/** Bearer-scheme handling of the Authorization header: Go's `strings`
    prefix test and trim, and `GetBearerToken`. */
module Bearer {

  const Prefix: string := "Bearer "

  /** `strings.HasPrefix`: `s` starts with every character of `p`, in order. */
  predicate HasPrefix(s: string, p: string)
    ensures HasPrefix(s, p) <==> |p| <= |s| && forall i :: 0 <= i < |p| ==> s[i] == p[i]
  {
    |p| <= |s| && s[..|p|] == p
  }

  /** `strings.TrimPrefix`: drops one leading `p` if there is one. */
  function TrimPrefix(s: string, p: string): (r: string)
    ensures HasPrefix(s, p) ==> p + r == s
    ensures !HasPrefix(s, p) ==> r == s
  {
    if HasPrefix(s, p) then s[|p|..] else s
  }

  /** Trimming a non-empty prefix leaves the string unchanged exactly when it is absent;
      the middleware's `tokenString == authHeader` test relies on this. */
  lemma TrimPrefixUnchangedIff(s: string, p: string)
    requires p != ""
    ensures TrimPrefix(s, p) == s <==> !HasPrefix(s, p)
  {
  }

  /** The token of an Authorization header, or "" when it has none. */
  function GetBearerToken(authorization: string): (r: string)
    ensures authorization == "" ==> r == ""
    ensures !HasPrefix(authorization, Prefix) ==> r == ""
    ensures HasPrefix(authorization, Prefix) ==> Prefix + r == authorization && |r| == |authorization| - |Prefix|
    ensures |r| <= |authorization| && r == authorization[|authorization| - |r|..]
  {
    if authorization == "" then ""
    else if !HasPrefix(authorization, Prefix) then ""
    else TrimPrefix(authorization, Prefix)
  }

  /** Building a header from a token and extracting it again gives the token back. */
  lemma GetBearerTokenOfHeader(token: string)
    ensures GetBearerToken(Prefix + token) == token
  {
  }

  /** Only one prefix is stripped: "Bearer Bearer x" gives "Bearer x". */
  lemma GetBearerTokenStripsOnce(token: string)
    ensures GetBearerToken(Prefix + Prefix + token) == Prefix + token
  {
  }

  /** The scheme is case-sensitive. */
  lemma GetBearerTokenCaseSensitive(token: string)
    ensures GetBearerToken("bearer " + token) == ""
  {
  }
}
