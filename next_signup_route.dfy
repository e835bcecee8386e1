/**
 * The Next.js route `POST /api/auth/signup`
 * (frontend-react/app/api/auth/signup/route.ts): connect to the database,
 * read the JSON body, then the same decision chain as the backend's
 * `/signup`, with tokens from `generateToken` of frontend-react/lib/auth.ts.
 * `connected` says whether `connectDB()` succeeds; a body that is not JSON
 * is `None`.
 */
module NextSignupRoute {
  import opened Wrappers
  import opened Http
  import TokenAuth
  import AuthRoutes

  /** The fields `await req.json()` yields. */
  datatype SignupBody = SignupBody(email: Option<string>, password: Option<string>, name: Option<string>)

  /** The token oracle of this route: `generateToken(id)` with JWT_SECRET, None where it throws. */
  function Tokens(secret: Option<string>, sign: (TokenAuth.Claims, string) -> string): string -> Option<string> {
    id => TokenAuth.GenerateToken(id, secret, sign)
  }

  /** The table after the request and the response `POST` returns. */
  function SignupResponse(users: seq<AuthRoutes.UserRecord>, connected: bool, json: Option<SignupBody>, newId: string,
                          findOk: bool, saveOk: bool, secret: Option<string>,
                          sign: (TokenAuth.Claims, string) -> string): (r: AuthRoutes.SignupOutcome)
    ensures !connected || json.None? ==>
      r == AuthRoutes.SignupOutcome(users, HttpResponse(500, ErrorBody(AuthRoutes.SignupErrorText)))
    ensures connected && json.Some? ==>
      r == AuthRoutes.SignupResult(users, json.value.email, json.value.password, json.value.name, newId, findOk, saveOk,
                                   Tokens(secret, sign))
    ensures AuthRoutes.UniqueEmails(users) ==> AuthRoutes.UniqueEmails(r.table)
    ensures r.response.status == 201 ==> Given(secret)
  {
    if !connected then AuthRoutes.SignupOutcome(users, HttpResponse(500, ErrorBody(AuthRoutes.SignupErrorText)))
    else
      match json
      case None => AuthRoutes.SignupOutcome(users, HttpResponse(500, ErrorBody(AuthRoutes.SignupErrorText)))
      case Some(b) =>
        AuthRoutes.SignupResult(users, b.email, b.password, b.name, newId, findOk, saveOk, Tokens(secret, sign))
  }

  /** Without JWT_SECRET a valid signup still stores the user, then answers 500. */
  lemma NoSecretStillSaves(users: seq<AuthRoutes.UserRecord>, email: string, password: string, name: string, newId: string,
                           sign: (TokenAuth.Claims, string) -> string)
    requires email != "" && password != "" && name != ""
    requires AuthRoutes.FindByEmail(users, email).None?
    ensures SignupResponse(users, true, Some(SignupBody(Some(email), Some(password), Some(name))), newId, true, true, None, sign)
      == AuthRoutes.SignupOutcome(users + [AuthRoutes.UserRecord(newId, email, password, name)],
                                  HttpResponse(500, ErrorBody(AuthRoutes.SignupErrorText)))
  {
    AuthRoutes.SavedDespiteTokenError(users, email, password, name, newId, Tokens(None, sign));
  }

  /** `POST`: the collection becomes the table of `SignupResponse`, and its response is returned. */
  method Post(collection: AuthRoutes.UserCollection, connected: bool, json: Option<SignupBody>, newId: string,
              findOk: bool, saveOk: bool, secret: Option<string>, sign: (TokenAuth.Claims, string) -> string)
    returns (response: HttpResponse)
    modifies collection
    ensures var r := SignupResponse(old(collection.users), connected, json, newId, findOk, saveOk, secret, sign);
      collection.users == r.table && response == r.response
  {
    if !connected || json.None? {
      return HttpResponse(500, ErrorBody(AuthRoutes.SignupErrorText));
    }
    var b := json.value;
    if !(Given(b.email) && Given(b.password) && Given(b.name)) {
      return HttpResponse(400, ErrorBody(AuthRoutes.MissingFieldsText));
    }
    if !findOk {
      return HttpResponse(500, ErrorBody(AuthRoutes.SignupErrorText));
    }
    var existing := collection.FindOne(b.email.value);
    if existing.Some? {
      return HttpResponse(400, ErrorBody(AuthRoutes.DuplicateEmailText));
    }
    if !saveOk {
      return HttpResponse(500, ErrorBody(AuthRoutes.SignupErrorText));
    }
    var user := AuthRoutes.UserRecord(newId, b.email.value, b.password.value, b.name.value);
    collection.Insert(user);
    var token := TokenAuth.GenerateToken(newId, secret, sign);
    if token.None? {
      return HttpResponse(500, ErrorBody(AuthRoutes.SignupErrorText));
    }
    response := HttpResponse(201, SessionBody(AuthRoutes.CreatedText, token.value, PublicUser(user.id, user.email, user.name)));
  }
}
