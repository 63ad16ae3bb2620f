/**
 * Extracting the token from an Authorization header, as both the guard and the gateway's auth
 * controller do it: `authHeader.replace('Bearer ', '')`. JavaScript's `String.prototype.replace`
 * with a string pattern removes only the FIRST occurrence, wherever it is; it is not anchored to
 * the start of the header, and a header without the substring comes back unchanged.
 */
module BearerToken {
  import opened Wrappers

  const Scheme: string := "Bearer "

  /** A header value counts as present when it is truthy: defined and not the empty string. */
  predicate HeaderPresent(header: Option<string>) {
    header.Some? && header.value != ""
  }

  predicate OccursAt(s: string, pat: string, i: nat) {
    i + |pat| <= |s| && s[i..i + |pat|] == pat
  }

  /** `s.indexOf(pat)`, with -1 as None. */
  function IndexOf(s: string, pat: string): (r: Option<nat>)
    ensures r.Some? ==> OccursAt(s, pat, r.value)
    ensures r.Some? ==> forall j :: 0 <= j < r.value ==> !OccursAt(s, pat, j)
    ensures r.None? ==> forall j :: 0 <= j <= |s| ==> !OccursAt(s, pat, j)
    decreases |s|
  {
    if |s| < |pat| then None
    else if s[..|pat|] == pat then Some(0)
    else
      var rest := IndexOf(s[1..], pat);
      assert forall j :: 1 <= j <= |s| ==> (OccursAt(s, pat, j) <==> OccursAt(s[1..], pat, j - 1)) by {
        forall j | 1 <= j <= |s| ensures OccursAt(s, pat, j) <==> OccursAt(s[1..], pat, j - 1) {
          if j + |pat| <= |s| {
            assert s[1..][j - 1..j - 1 + |pat|] == s[j..j + |pat|];
          }
        }
      }
      match rest
      case None => None
      case Some(k) => Some(k + 1)
  }

  /** `s.replace(pat, '')`: the first occurrence of `pat` removed. */
  function RemoveFirst(s: string, pat: string): (r: string)
    ensures IndexOf(s, pat).None? ==> r == s
    ensures IndexOf(s, pat).Some? ==>
      var i := IndexOf(s, pat).value; r == s[..i] + s[i + |pat|..] && |r| == |s| - |pat|
  {
    match IndexOf(s, pat)
    case None => s
    case Some(i) => s[..i] + s[i + |pat|..]
  }

  /** The token the gateway sends on for a header value. */
  function ExtractToken(header: string): (t: string)
    ensures t == header <==> IndexOf(header, Scheme).None?
    ensures IndexOf(header, Scheme).Some? ==> |t| == |header| - |Scheme|
  {
    RemoveFirst(header, Scheme)
  }

  /** The well-formed case: `Bearer <t>` yields exactly `<t>`, whatever `<t>` holds. */
  lemma ExtractFromBearerHeader(t: string)
    ensures ExtractToken(Scheme + t) == t
  {
    assert (Scheme + t)[..|Scheme|] == Scheme;
    assert (Scheme + t)[|Scheme|..] == t;
  }

  /** A header without the scheme is passed on as it is. */
  lemma HeaderWithoutSchemeUnchanged(header: string)
    requires forall j :: 0 <= j <= |header| ==> !OccursAt(header, Scheme, j)
    ensures ExtractToken(header) == header
  {
  }

  /** The removal is not anchored: text in front of the scheme stays part of the token. */
  lemma RemovalIsNotAnchored()
    ensures ExtractToken("xBearer abc") == "xabc"
  {
    var s := "xBearer abc";
    assert s[..|Scheme|] != Scheme by { assert s[0] != Scheme[0]; }
    assert s[1..][..|Scheme|] == Scheme;
    assert IndexOf(s[1..], Scheme) == Some(0);
    assert IndexOf(s, Scheme) == Some(1);
  }

  /** Only the first occurrence goes: a doubled scheme leaves one behind. */
  lemma OnlyFirstOccurrenceRemoved(t: string)
    ensures ExtractToken(Scheme + Scheme + t) == Scheme + t
  {
    var s := Scheme + Scheme + t;
    assert s[..|Scheme|] == Scheme;
    assert s[|Scheme|..] == Scheme + t;
  }
}
