/**
 * The Next.js route `POST /api/auth/login`
 * (frontend-react/app/api/auth/login/route.ts): connect, read the JSON body,
 * then the backend's `/login` chain with tokens from `generateToken`.
 */
module NextLoginRoute {
  import opened Wrappers
  import opened Http
  import TokenAuth
  import AuthRoutes
  import NextSignupRoute

  /** The fields `await req.json()` yields. */
  datatype LoginBody = LoginBody(email: Option<string>, password: Option<string>)

  /** The response `POST` returns; the table is only read. */
  function Post(users: seq<AuthRoutes.UserRecord>, connected: bool, json: Option<LoginBody>, findOk: bool,
                matches: (string, string) -> Option<bool>, secret: Option<string>,
                sign: (TokenAuth.Claims, string) -> string): (r: HttpResponse)
    ensures !connected || json.None? ==> r == HttpResponse(500, ErrorBody(AuthRoutes.LoginErrorText))
    ensures connected && json.Some? ==>
      r == AuthRoutes.LoginResult(users, json.value.email, json.value.password, findOk, matches,
                                  NextSignupRoute.Tokens(secret, sign))
    ensures r.status == 200 ==> Given(secret) && r.body.SessionBody?
  {
    if !connected then HttpResponse(500, ErrorBody(AuthRoutes.LoginErrorText))
    else
      match json
      case None => HttpResponse(500, ErrorBody(AuthRoutes.LoginErrorText))
      case Some(b) =>
        AuthRoutes.LoginResult(users, b.email, b.password, findOk, matches, NextSignupRoute.Tokens(secret, sign))
  }

  /** A user signed up through the Next.js route logs in through it and gets the token for their id. */
  lemma SignupThenLogin(users: seq<AuthRoutes.UserRecord>, email: string, password: string, name: string, newId: string,
                        matches: (string, string) -> Option<bool>, secret: string, sign: (TokenAuth.Claims, string) -> string)
    requires email != "" && password != "" && name != "" && secret != ""
    requires AuthRoutes.FindByEmail(users, email).None? && matches(password, password) == Some(true)
    ensures var after := NextSignupRoute.SignupResponse(users, true,
        Some(NextSignupRoute.SignupBody(Some(email), Some(password), Some(name))), newId, true, true, Some(secret), sign).table;
      Post(after, true, Some(LoginBody(Some(email), Some(password))), true, matches, Some(secret), sign)
        == HttpResponse(200, SessionBody(AuthRoutes.LoggedInText, sign(TokenAuth.Claims(newId), secret),
                                         PublicUser(newId, email, name)))
  {
    AuthRoutes.SignupThenLogin(users, email, password, name, newId, matches, NextSignupRoute.Tokens(Some(secret), sign));
  }
}
