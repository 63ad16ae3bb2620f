/**
 * The gateway's auth controller. Login and registration forward the body as received; token
 * validation and logout need an Authorization header and send only the extracted token.
 * A missing header throws before anything is sent.
 */
module GatewayAuthController {
  import opened Wrappers
  import opened Records
  import opened BearerToken
  import RpcExceptionFilter

  datatype Endpoint = LoginEndpoint | RegisterEndpoint | ValidateTokenEndpoint | LogoutEndpoint

  /** A message to the auth service: its command and payload. */
  datatype Outbound = Outbound(cmd: string, payload: Record)

  const HeaderRequiredMessage: string := "Authorization header is required"

  function Command(e: Endpoint): string {
    match e
    case LoginEndpoint => "authLogin"
    case RegisterEndpoint => "authRegister"
    case ValidateTokenEndpoint => "authValidateToken"
    case LogoutEndpoint => "authLogout"
  }

  /** What the controller sends for a request, or the message of the RpcException it throws. */
  function Handle(e: Endpoint, authHeader: Option<string>, body: Record): (r: Result<Outbound, string>)
    ensures e.LoginEndpoint? || e.RegisterEndpoint? ==> r == Success(Outbound(Command(e), body))
    ensures e.ValidateTokenEndpoint? || e.LogoutEndpoint? ==>
      && (r.Failure? <==> !HeaderPresent(authHeader))
      && (r.Failure? ==> r.error == HeaderRequiredMessage)
      && (r.Success? ==> r.value == Outbound(Command(e), map["token" := Str(ExtractToken(authHeader.value))]))
  {
    match e
    case LoginEndpoint => Success(Outbound(Command(e), body))
    case RegisterEndpoint => Success(Outbound(Command(e), body))
    case _ =>
      if !HeaderPresent(authHeader) then Failure(HeaderRequiredMessage)
      else Success(Outbound(Command(e), map["token" := Str(ExtractToken(authHeader.value))]))
  }

  /** A well-formed header reaches the auth service as exactly its token. */
  lemma BearerHeaderSendsToken(e: Endpoint, token: string, body: Record)
    requires e.ValidateTokenEndpoint? || e.LogoutEndpoint?
    ensures Handle(e, Some(Scheme + token), body) == Success(Outbound(Command(e), map["token" := Str(token)]))
  {
    ExtractFromBearerHeader(token);
  }

  /** The string RpcException for a missing header reaches the client, through the exception
      filter, as a 400 with the message in the body. */
  lemma MissingHeaderIsBadRequest(e: Endpoint, body: Record)
    requires e.ValidateTokenEndpoint? || e.LogoutEndpoint?
    ensures var msg := Handle(e, None, body).error;
      RpcExceptionFilter.Catch(RpcExceptionFilter.Primitive(Str(msg))).statusCode == 400
  {
  }
}
