/**
 * The gateway's RPC exception filter: it turns the error carried by an RpcException into an HTTP
 * status code and a JSON body. A structured error (an object with both `status` and `message`)
 * keeps its status when that is usable as a number; anything else becomes a 400 "Bad Request".
 */
module RpcExceptionFilter {
  import opened Wrappers
  import opened Records

  /** What `exception.getError()` returns: a primitive (a string message, null, ...) or an object. */
  datatype RpcError = Primitive(v: Value) | Object(fields: Record)

  /** The JSON body. The fallback body carries the raw error under the key `message`; here that
      field is `rawError`, since `message` on the structured body holds a value. */
  datatype Body =
    | Structured(statusCode: int, status: Value, message: Value)
    | Fallback(statusCode: int, rawError: RpcError, error: string)

  datatype HttpReply = HttpReply(statusCode: int, body: Body)

  const FallbackStatus: int := 400
  const FallbackError: string := "Bad Request"

  predicate IsDigit(c: char) {
    '0' <= c <= '9'
  }

  function DigitValue(c: char): nat
    requires IsDigit(c)
  {
    c as int - '0' as int
  }

  function Pow10(k: nat): nat {
    if k == 0 then 1 else 10 * Pow10(k - 1)
  }

  /** The positional value of a digit string: each digit times ten to the power of the number
      of digits to its right. Leading zeros add nothing. */
  function DigitsValue(s: string): nat
    requires forall i :: 0 <= i < |s| ==> IsDigit(s[i])
    decreases |s|
  {
    if s == [] then 0 else DigitValue(s[0]) * Pow10(|s| - 1) + DigitsValue(s[1..])
  }

  /** Reading digits from the right: the value of the string is ten times the value of all but
      its last digit, plus that digit. */
  lemma {:induction false} DigitsValueSnoc(s: string)
    requires s != [] && forall i :: 0 <= i < |s| ==> IsDigit(s[i])
    ensures DigitsValue(s) == DigitsValue(s[..|s| - 1]) * 10 + DigitValue(s[|s| - 1])
    decreases |s|
  {
    if |s| > 1 {
      var init := s[..|s| - 1];
      DigitsValueSnoc(s[1..]);
      assert s[1..][..|s| - 2] == init[1..];
      assert s[1..][|s| - 2] == s[|s| - 1];
      var d, p := DigitValue(s[0]), Pow10(|s| - 2);
      assert Pow10(|s| - 1) == 10 * p;
      assert DigitsValue(init) == d * p + DigitsValue(init[1..]);
      assert d * (10 * p) == (d * p) * 10;
    }
  }

  /** `Number(s)` for a non-empty string of decimal digits; None stands for NaN. */
  function ParseDecimal(s: string): (r: Option<nat>)
    ensures r.Some? <==> s != [] && forall i :: 0 <= i < |s| ==> IsDigit(s[i])
    ensures r.Some? ==> r.value == DigitsValue(s)
    decreases |s|
  {
    if s == [] || !IsDigit(s[|s| - 1]) then None
    else if |s| == 1 then Some((s[0] as int - '0' as int) as nat)
    else match ParseDecimal(s[..|s| - 1])
      case None => None
      case Some(prefix) =>
        DigitsValueSnoc(s);
        Some(prefix * 10 + (s[|s| - 1] as int - '0' as int))
  }

  /** The decimal spelling of a number, as `String(n)` writes it. */
  function DecimalString(n: nat): (s: string)
    ensures s != [] && forall i :: 0 <= i < |s| ==> IsDigit(s[i])
    decreases n
  {
    var last := (('0' as int) + n % 10) as char;
    if n < 10 then [last] else DecimalString(n / 10) + [last]
  }

  /** Numeric strings are read back as the number they spell. */
  lemma {:induction false} ParseDecimalString(n: nat)
    ensures ParseDecimal(DecimalString(n)) == Some(n)
    decreases n
  {
    var s := DecimalString(n);
    if n >= 10 {
      ParseDecimalString(n / 10);
      assert s[..|s| - 1] == DecimalString(n / 10);
    }
  }

  /** A leading zero does not change the number a digit string spells ("007" is 7). */
  lemma LeadingZeroIgnored(s: string)
    requires s != [] && forall i :: 0 <= i < |s| ==> IsDigit(s[i])
    ensures ParseDecimal(['0'] + s) == ParseDecimal(s)
  {
    var t := ['0'] + s;
    assert forall i :: 0 <= i < |t| ==> IsDigit(t[i]);
    assert t[1..] == s;
    assert DigitValue(t[0]) == 0;
    assert DigitsValue(t) == DigitsValue(s);
  }

  /** Unary `+` on a status: booleans and null coerce to 1/0 and 0, undefined to NaN (None). */
  function ToNumber(v: Value): (r: Option<int>)
    ensures v.Num? ==> r == Some(v.n)
    ensures v.Str? ==> r == (match ParseDecimal(v.s) case Some(k) => Some(k as int) case None => None)
    ensures v.Undefined? ==> r.None?
    ensures v.Null? ==> r == Some(0)
    ensures v.Bool? ==> r == Some(if v.b then 1 else 0)
  {
    match v
    case Undefined => None
    case Null => Some(0)
    case Bool(b) => Some(if b then 1 else 0)
    case Num(n) => Some(n)
    case Str(s) => match ParseDecimal(s) case Some(k) => Some(k as int) case None => None
  }

  /** `typeof status === 'number' && 100 <= status <= 599 ? status : isNaN(+status) ? 400 : +status` */
  function StatusCode(status: Value): (code: int)
    ensures status.Num? && 100 <= status.n <= 599 ==> code == status.n
    ensures ToNumber(status).None? ==> code == FallbackStatus
    ensures ToNumber(status).Some? ==> code == ToNumber(status).value
  {
    if status.Num? && 100 <= status.n <= 599 then status.n
    else match ToNumber(status)
      case None => FallbackStatus
      case Some(n) => n
  }

  predicate IsStructured(e: RpcError) {
    e.Object? && "status" in e.fields && "message" in e.fields
  }

  /** The reply the filter writes for an error. */
  function Catch(e: RpcError): (r: HttpReply)
    ensures IsStructured(e) ==>
      r.statusCode == StatusCode(e.fields["status"])
      && r.body == Structured(r.statusCode, e.fields["status"], e.fields["message"])
    ensures !IsStructured(e) ==>
      r.statusCode == FallbackStatus && r.body == Fallback(FallbackStatus, e, FallbackError)
  {
    if IsStructured(e) then
      var code := StatusCode(e.fields["status"]);
      HttpReply(code, Structured(code, e.fields["status"], e.fields["message"]))
    else
      HttpReply(FallbackStatus, Fallback(FallbackStatus, e, FallbackError))
  }

  /** The range check is no clamp: EVERY numeric status comes back as the response code. */
  lemma NumericStatusPassesThroughUnclamped(n: int, fields: Record)
    requires "status" in fields && "message" in fields && fields["status"] == Num(n)
    ensures Catch(Object(fields)).statusCode == n
  {
  }

  /** A status spelled in decimal digits ("404", "700") is used as that number. */
  lemma NumericStringStatusPassesThrough(n: nat, message: Value)
    ensures Catch(Object(map["status" := Str(DecimalString(n)), "message" := message])).statusCode == n
  {
    ParseDecimalString(n);
  }

  /** A status that coerces to NaN gives 400, and the body still echoes the original status. */
  lemma NaNStatusGives400(s: string, message: Value)
    requires ParseDecimal(s).None?
    ensures Catch(Object(map["status" := Str(s), "message" := message]))
      == HttpReply(400, Structured(400, Str(s), message))
  {
  }

  /** An error object missing either key falls back to 400 with the raw error as message. */
  lemma MissingKeyFallsBack(fields: Record)
    requires "status" !in fields || "message" !in fields
    ensures Catch(Object(fields)) == HttpReply(400, Fallback(400, Object(fields), "Bad Request"))
  {
  }
}
