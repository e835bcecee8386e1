/**
 * The backend's `auth` middleware (backend/middleware/auth.js): it reads the
 * bearer token, verifies it, records the user on the request and passes
 * control on, or answers 401. `verify` stands for `jwt.verify` with the
 * server's JWT_SECRET; None is any exception it throws.
 */
module AuthMiddleware {
  import opened Wrappers
  import opened JsString
  import opened Http
  import TokenAuth

  const NoTokenText := "No token, authorization denied"
  const InvalidTokenText := "Token is not valid"

  /** Whether `auth` calls `next()` for a user, or denies with a message. */
  datatype Decision = Proceed(userId: string) | Deny(error: string)

  /** `req.header('Authorization')?.replace('Bearer ', '')`, with "" standing for a missing header. */
  function HeaderToken(header: Option<string>): (token: string)
    ensures header.None? ==> token == ""
    ensures header.Some? && StartsWith(header.value, TokenAuth.BearerPrefix) ==>
      token == header.value[|TokenAuth.BearerPrefix|..]
    ensures header.Some? && !Includes(header.value, TokenAuth.BearerPrefix) ==> token == header.value
  {
    match header
    case None => ""
    case Some(h) => RemoveFirst(h, TokenAuth.BearerPrefix)
  }

  /** The decision `auth` takes for a request with this Authorization header. */
  function Decide(header: Option<string>, verify: string -> Option<TokenAuth.Claims>): (d: Decision)
    ensures d == Deny(NoTokenText) <==> HeaderToken(header) == ""
    ensures d == Deny(InvalidTokenText) <==> HeaderToken(header) != "" && verify(HeaderToken(header)).None?
    ensures d.Proceed? ==> verify(HeaderToken(header)) == Some(TokenAuth.Claims(d.userId))
  {
    var token := HeaderToken(header);
    if token == "" then Deny(NoTokenText)
    else
      match verify(token)
      case None => Deny(InvalidTokenText)
      case Some(claims) => Proceed(claims.userId)
  }

  /** The backend reads the same token from a header as the front end's `getTokenFromRequest`. */
  lemma SameTokenAsFrontEnd(header: Option<string>)
    ensures HeaderToken(header) == TokenAuth.TokenFromHeader(header).GetOr("")
  {
  }

  /** A request carrying `"Bearer " + t` is decided on `t` itself. */
  lemma BearerTokenDecided(t: string, verify: string -> Option<TokenAuth.Claims>)
    requires t != ""
    ensures Decide(Some(TokenAuth.BearerPrefix + t), verify) ==
      match verify(t) case None => Deny(InvalidTokenText) case Some(c) => Proceed(c.userId)
  {
    TokenAuth.BearerHeaderToken(t);
  }

  /**
   * `auth(req, res, next)`: returns whether `next()` was called. Exactly one
   * thing happens: `next()` with `req.userId` set and no response written, or
   * a 401 response with `req` untouched.
   */
  method Auth(req: Request, res: Response, verify: string -> Option<TokenAuth.Claims>) returns (nextCalled: bool)
    modifies req, res
    ensures nextCalled <==> Decide(req.authorization, verify).Proceed?
    ensures nextCalled ==> req.userId == Some(Decide(req.authorization, verify).userId)
    ensures nextCalled ==> res.status == old(res.status) && res.body == old(res.body)
    ensures !nextCalled ==> req.userId == old(req.userId)
    ensures !nextCalled ==> res.status == 401 && res.body == Some(ErrorBody(Decide(req.authorization, verify).error))
  {
    var token := HeaderToken(req.authorization);
    if token == "" {
      res.Send(401, ErrorBody(NoTokenText));
      return false;
    }
    var decoded := verify(token);
    if decoded.None? {
      // the catch block
      res.Send(401, ErrorBody(InvalidTokenText));
      return false;
    }
    req.userId := Some(decoded.value.userId);
    nextCalled := true;
  }
}
