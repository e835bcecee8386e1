/**
 * Token helpers of the React front end's server routes
 * (frontend-react/lib/auth.ts). The JWT library is an oracle: `verify` and
 * `sign` stand for `jwt.verify` and `jwt.sign` with a given secret.
 */
module TokenAuth {
  import opened Wrappers
  import opened JsString
  import opened Http

  /** The claims a token carries. */
  datatype Claims = Claims(userId: string)

  const BearerPrefix := "Bearer "

  /**
   * `getTokenFromRequest`: the Authorization header with its first
   * "Bearer " removed; null when there is no header or nothing is left.
   */
  function TokenFromHeader(header: Option<string>): (token: Option<string>)
    ensures token.Some? ==> token.value != ""
    ensures header.None? ==> token.None?
  {
    match header
    case None => None
    case Some(h) =>
      var t := RemoveFirst(h, BearerPrefix);
      if t == "" then None else Some(t)
  }

  /** The prefix sits at the front of `"Bearer " + t`, so that is its first occurrence. */
  lemma PrefixFoundFirst(t: string)
    ensures IndexOf(BearerPrefix + t, BearerPrefix) == Some(0)
  {
    var h := BearerPrefix + t;
    assert h[0..|BearerPrefix|] == BearerPrefix;
    assert OccursAt(h, BearerPrefix, 0);
  }

  /** `"Bearer " + t` yields `t`, even when `t` itself contains "Bearer ". */
  lemma BearerHeaderToken(t: string)
    requires t != ""
    ensures TokenFromHeader(Some(BearerPrefix + t)) == Some(t)
  {
    PrefixFoundFirst(t);
    var h := BearerPrefix + t;
    assert h[..0] + h[|BearerPrefix|..] == t;
    assert RemoveFirst(h, BearerPrefix) == t;
  }

  /** A header that is exactly "Bearer " yields null: the empty string is falsy. */
  lemma BareBearerIsNull()
    ensures TokenFromHeader(Some(BearerPrefix)) == None
  {
    PrefixFoundFirst("");
    assert BearerPrefix + "" == BearerPrefix;
  }

  /** A header without "Bearer " anywhere is taken whole as the token. */
  lemma HeaderWithoutPrefix(h: string)
    requires !Includes(h, BearerPrefix)
    ensures TokenFromHeader(Some(h)) == if h == "" then None else Some(h)
  {
  }

  /**
   * Only the first "Bearer " is removed, wherever it occurs: what comes
   * before it is kept and what follows it is kept, later occurrences included.
   */
  lemma FirstOccurrenceRemoved(a: string, b: string)
    requires !Includes(a + BearerPrefix[..|BearerPrefix| - 1], BearerPrefix)
    requires a + b != ""
    ensures TokenFromHeader(Some(a + BearerPrefix + b)) == Some(a + b)
  {
    var h := a + BearerPrefix + b;
    var pre := a + BearerPrefix[..|BearerPrefix| - 1];
    assert h[|a|..|a| + |BearerPrefix|] == BearerPrefix;
    assert OccursAt(h, BearerPrefix, |a|);
    forall j: nat | j < |a|
      ensures !OccursAt(h, BearerPrefix, j)
    {
      assert !OccursAt(pre, BearerPrefix, j);
      forall i | j <= i < j + |BearerPrefix|
        ensures h[i] == pre[i]
      {
        if i < |a| {
          assert h[i] == a[i] == pre[i];
        } else {
          assert h[i] == BearerPrefix[i - |a|] == pre[i];
        }
      }
      assert h[j..j + |BearerPrefix|] == pre[j..j + |BearerPrefix|];
    }
    assert IndexOf(h, BearerPrefix) == Some(|a|);
    assert h[..|a|] == a;
    assert h[|a| + |BearerPrefix|..] == b;
  }

  /**
   * `verifyToken`: the claims when `jwt.verify` accepts the token with the
   * secret, null otherwise; a missing or empty JWT_SECRET throws inside the
   * try and so also gives null.
   */
  function VerifyToken(token: string, secret: Option<string>, verify: (string, string) -> Option<Claims>): (r: Option<Claims>)
    ensures !Given(secret) ==> r.None?
    ensures r.Some? ==> verify(token, secret.value) == r
  {
    if !Given(secret) then None else verify(token, secret.value)
  }

  /**
   * `generateToken`: `jwt.sign({userId}, secret)`, or None where it throws
   * because JWT_SECRET is missing or empty.
   */
  function GenerateToken(userId: string, secret: Option<string>, sign: (Claims, string) -> string): (r: Option<string>)
    ensures r.None? <==> !Given(secret)
    ensures r.Some? ==> r.value == sign(Claims(userId), secret.value)
  {
    if !Given(secret) then None else Some(sign(Claims(userId), secret.value))
  }
}
