/**
 * The backend's account routes (backend/routes/auth.js): `/signup` adds a
 * user to the collection, `/login` checks a password; both answer with a
 * token and the user's public fields. The collection is a class whose
 * `users` field `save()` extends. Oracles: `findOk` and `saveOk` say whether
 * `findOne` and `save` succeed, `sign` is `jwt.sign` for a user id (None when
 * it throws), `matches(candidate, stored)` is `comparePassword` (None when
 * it throws).
 */
module AuthRoutes {
  import opened Wrappers
  import opened Http

  const MissingFieldsText := "Please provide all required fields"
  const DuplicateEmailText := "User already exists with this email"
  const SignupErrorText := "Error creating user"
  const CreatedText := "User created successfully"
  const MissingCredentialsText := "Please provide email and password"
  const InvalidCredentialsText := "Invalid credentials"
  const LoginErrorText := "Error logging in"
  const LoggedInText := "Login successful"

  /** A stored user document. */
  datatype UserRecord = UserRecord(id: string, email: string, password: string, name: string)

  /** The position of the first user with this email (what `findOne({ email })` returns). */
  function FindByEmail(users: seq<UserRecord>, email: string): (r: Option<nat>)
    ensures r.Some? ==> r.value < |users| && users[r.value].email == email
    ensures r.Some? ==> forall j :: 0 <= j < r.value ==> users[j].email != email
    ensures r.None? ==> forall j :: 0 <= j < |users| ==> users[j].email != email
    decreases |users|
  {
    if users == [] then None
    else if users[0].email == email then Some(0)
    else
      match FindByEmail(users[1..], email)
      case None => None
      case Some(k) => Some(k + 1)
  }

  /** No two users share an email. */
  predicate UniqueEmails(users: seq<UserRecord>) {
    forall i, j :: 0 <= i < j < |users| ==> users[i].email != users[j].email
  }

  /** Adding a user whose email is not taken keeps emails unique. */
  lemma InsertKeepsUnique(users: seq<UserRecord>, u: UserRecord)
    requires FindByEmail(users, u.email).None?
    ensures UniqueEmails(users) ==> UniqueEmails(users + [u])
  {
    if !UniqueEmails(users) {
      return;
    }
    var t := users + [u];
    forall i, j | 0 <= i < j < |t|
      ensures t[i].email != t[j].email
    {
      if j == |users| {
        assert t[i] == users[i];
      } else {
        assert t[i] == users[i] && t[j] == users[j];
      }
    }
  }

  /** The user collection; `save()` of a new document appends it. */
  class UserCollection {
    var users: seq<UserRecord>

    constructor ()
      ensures users == []
    {
      users := [];
    }

    /** `User.findOne({ email })` */
    function FindOne(email: string): (r: Option<UserRecord>)
      reads this
      ensures r.Some? ==> r.value in users && r.value.email == email
      ensures r.None? <==> forall u :: u in users ==> u.email != email
    {
      match FindByEmail(users, email)
      case None => None
      case Some(i) => Some(users[i])
    }

    /** `new User(...).save()` */
    method Insert(u: UserRecord)
      modifies this
      ensures users == old(users) + [u]
    {
      users := users + [u];
    }
  }

  /** The table after a signup request and the response it gets. */
  datatype SignupOutcome = SignupOutcome(table: seq<UserRecord>, response: HttpResponse)

  /** `/signup` for a table, the body's fields, the id the new document gets, and the oracles. */
  function SignupResult(users: seq<UserRecord>, email: Option<string>, password: Option<string>, name: Option<string>,
                        newId: string, findOk: bool, saveOk: bool, sign: string -> Option<string>): (r: SignupOutcome)
    ensures r.response == HttpResponse(400, ErrorBody(MissingFieldsText)) <==> !(Given(email) && Given(password) && Given(name))
    ensures r.response == HttpResponse(400, ErrorBody(DuplicateEmailText)) <==>
      Given(email) && Given(password) && Given(name) && findOk && FindByEmail(users, email.value).Some?
    ensures r.table != users <==>
      Given(email) && Given(password) && Given(name) && findOk && FindByEmail(users, email.value).None? && saveOk
    ensures r.table != users ==> r.table == users + [UserRecord(newId, email.value, password.value, name.value)]
    ensures r.response.status == 201 <==> r.table != users && sign(newId).Some?
    ensures r.response.status == 201 ==>
      r.response.body == SessionBody(CreatedText, sign(newId).value, PublicUser(newId, email.value, name.value))
    ensures r.response.status != 201 ==> r.response.status in {400, 500} && r.response.body.ErrorBody?
    ensures r.response.status == 500 ==> r.response.body == ErrorBody(SignupErrorText)
    ensures r.response.status == 500 <==>
      Given(email) && Given(password) && Given(name)
      && (!findOk || (FindByEmail(users, email.value).None? && (!saveOk || sign(newId).None?)))
    ensures UniqueEmails(users) ==> UniqueEmails(r.table)
  {
    if !(Given(email) && Given(password) && Given(name)) then
      SignupOutcome(users, HttpResponse(400, ErrorBody(MissingFieldsText)))
    else if !findOk then
      SignupOutcome(users, HttpResponse(500, ErrorBody(SignupErrorText)))
    else if FindByEmail(users, email.value).Some? then
      SignupOutcome(users, HttpResponse(400, ErrorBody(DuplicateEmailText)))
    else if !saveOk then
      SignupOutcome(users, HttpResponse(500, ErrorBody(SignupErrorText)))
    else
      var user := UserRecord(newId, email.value, password.value, name.value);
      var table := users + [user];
      assert table[|users|] == user && table != users;
      InsertKeepsUnique(users, user);
      match sign(newId)
      case None => SignupOutcome(table, HttpResponse(500, ErrorBody(SignupErrorText)))
      case Some(token) =>
        SignupOutcome(table, HttpResponse(201, SessionBody(CreatedText, token, PublicUser(newId, email.value, name.value))))
  }

  /** One signup request: the body's fields, the new document's id and the oracles' answers. */
  datatype SignupRequest = SignupRequest(email: Option<string>, password: Option<string>, name: Option<string>,
                                         newId: string, findOk: bool, saveOk: bool)

  /** The table after a series of signup requests handled one after another. */
  function SignupAll(users: seq<UserRecord>, requests: seq<SignupRequest>, sign: string -> Option<string>): seq<UserRecord>
    decreases |requests|
  {
    if requests == [] then users
    else
      var q := requests[0];
      SignupAll(SignupResult(users, q.email, q.password, q.name, q.newId, q.findOk, q.saveOk, sign).table, requests[1..], sign)
  }

  /** However many signups run in sequence, no two users share an email. */
  lemma {:induction false} SignupsKeepEmailsUnique(users: seq<UserRecord>, requests: seq<SignupRequest>, sign: string -> Option<string>)
    requires UniqueEmails(users)
    ensures UniqueEmails(SignupAll(users, requests, sign))
    ensures |SignupAll(users, requests, sign)| <= |users| + |requests|
    decreases |requests|
  {
    if requests != [] {
      var q := requests[0];
      var next := SignupResult(users, q.email, q.password, q.name, q.newId, q.findOk, q.saveOk, sign).table;
      SignupsKeepEmailsUnique(next, requests[1..], sign);
    }
  }

  /** A failing `jwt.sign` comes after `save()`: the user is stored although the answer is a 500. */
  lemma SavedDespiteTokenError(users: seq<UserRecord>, email: string, password: string, name: string, newId: string,
                               sign: string -> Option<string>)
    requires email != "" && password != "" && name != ""
    requires FindByEmail(users, email).None? && sign(newId).None?
    ensures SignupResult(users, Some(email), Some(password), Some(name), newId, true, true, sign)
      == SignupOutcome(users + [UserRecord(newId, email, password, name)], HttpResponse(500, ErrorBody(SignupErrorText)))
  {
  }

  /** `router.post('/signup', ...)`: the collection and the response become those of `SignupResult`. */
  method Signup(collection: UserCollection, res: Response, email: Option<string>, password: Option<string>,
                name: Option<string>, newId: string, findOk: bool, saveOk: bool, sign: string -> Option<string>)
    modifies collection, res
    ensures var r := SignupResult(old(collection.users), email, password, name, newId, findOk, saveOk, sign);
      collection.users == r.table && res.status == r.response.status && res.body == Some(r.response.body)
  {
    if !(Given(email) && Given(password) && Given(name)) {
      res.Send(400, ErrorBody(MissingFieldsText));
      return;
    }
    if !findOk {
      res.Send(500, ErrorBody(SignupErrorText));
      return;
    }
    var existing := collection.FindOne(email.value);
    if existing.Some? {
      res.Send(400, ErrorBody(DuplicateEmailText));
      return;
    }
    if !saveOk {
      res.Send(500, ErrorBody(SignupErrorText));
      return;
    }
    var user := UserRecord(newId, email.value, password.value, name.value);
    collection.Insert(user);
    var token := sign(newId);
    if token.None? {
      res.Send(500, ErrorBody(SignupErrorText));
      return;
    }
    res.Send(201, SessionBody(CreatedText, token.value, PublicUser(user.id, user.email, user.name)));
  }

  /** `/login` for a table, the body's fields and the oracles; it never changes the table. */
  function LoginResult(users: seq<UserRecord>, email: Option<string>, password: Option<string>, findOk: bool,
                       matches: (string, string) -> Option<bool>, sign: string -> Option<string>): (r: HttpResponse)
    ensures r == HttpResponse(400, ErrorBody(MissingCredentialsText)) <==> !(Given(email) && Given(password))
    ensures r == HttpResponse(401, ErrorBody(InvalidCredentialsText)) <==>
      Given(email) && Given(password) && findOk &&
      (FindByEmail(users, email.value).None?
       || matches(password.value, users[FindByEmail(users, email.value).value].password) == Some(false))
    ensures r.status == 200 <==>
      Given(email) && Given(password) && findOk && FindByEmail(users, email.value).Some?
      && matches(password.value, users[FindByEmail(users, email.value).value].password) == Some(true)
      && sign(users[FindByEmail(users, email.value).value].id).Some?
    ensures r.status == 200 ==>
      var u := users[FindByEmail(users, email.value).value];
      r.body == SessionBody(LoggedInText, sign(u.id).value, PublicUser(u.id, u.email, u.name))
    ensures r.status in {200, 400, 401, 500}
    ensures r.status == 500 ==> r.body == ErrorBody(LoginErrorText)
    ensures r.status == 500 <==>
      Given(email) && Given(password)
      && (!findOk
          || (FindByEmail(users, email.value).Some?
              && var u := users[FindByEmail(users, email.value).value];
                 matches(password.value, u.password).None?
                 || (matches(password.value, u.password) == Some(true) && sign(u.id).None?)))
  {
    if !(Given(email) && Given(password)) then HttpResponse(400, ErrorBody(MissingCredentialsText))
    else if !findOk then HttpResponse(500, ErrorBody(LoginErrorText))
    else
      match FindByEmail(users, email.value)
      case None => HttpResponse(401, ErrorBody(InvalidCredentialsText))
      case Some(i) =>
        var u := users[i];
        match matches(password.value, u.password)
        case None => HttpResponse(500, ErrorBody(LoginErrorText))
        case Some(isMatch) =>
          if !isMatch then HttpResponse(401, ErrorBody(InvalidCredentialsText))
          else
            match sign(u.id)
            case None => HttpResponse(500, ErrorBody(LoginErrorText))
            case Some(token) => HttpResponse(200, SessionBody(LoggedInText, token, PublicUser(u.id, u.email, u.name)))
  }

  /** An unknown email and a wrong password for a known one get the very same answer. */
  lemma UnknownEmailLooksLikeWrongPassword(users: seq<UserRecord>, known: string, unknown: string, password: string,
                                           matches: (string, string) -> Option<bool>, sign: string -> Option<string>)
    requires known != "" && unknown != "" && password != ""
    requires FindByEmail(users, unknown).None?
    requires FindByEmail(users, known).Some? && matches(password, users[FindByEmail(users, known).value].password) == Some(false)
    ensures LoginResult(users, Some(unknown), Some(password), true, matches, sign)
      == LoginResult(users, Some(known), Some(password), true, matches, sign)
  {
  }

  /** A user who signed up can log in with the same password, and gets their own public fields back. */
  lemma SignupThenLogin(users: seq<UserRecord>, email: string, password: string, name: string, newId: string,
                        matches: (string, string) -> Option<bool>, sign: string -> Option<string>)
    requires email != "" && password != "" && name != ""
    requires FindByEmail(users, email).None? && matches(password, password) == Some(true) && sign(newId).Some?
    ensures var after := SignupResult(users, Some(email), Some(password), Some(name), newId, true, true, sign).table;
      LoginResult(after, Some(email), Some(password), true, matches, sign)
        == HttpResponse(200, SessionBody(LoggedInText, sign(newId).value, PublicUser(newId, email, name)))
  {
    var after := users + [UserRecord(newId, email, password, name)];
    assert after[|users|].email == email;
    assert FindByEmail(after, email) == Some(|users|);
  }

  /** `router.post('/login', ...)`: writes the response of `LoginResult`; the collection is not modified. */
  method Login(collection: UserCollection, res: Response, email: Option<string>, password: Option<string>,
               findOk: bool, matches: (string, string) -> Option<bool>, sign: string -> Option<string>)
    modifies res
    ensures var r := LoginResult(collection.users, email, password, findOk, matches, sign);
      res.status == (if r.status == 200 then old(res.status) else r.status) && res.body == Some(r.body)
  {
    if !(Given(email) && Given(password)) {
      res.Send(400, ErrorBody(MissingCredentialsText));
      return;
    }
    if !findOk {
      res.Send(500, ErrorBody(LoginErrorText));
      return;
    }
    var user := collection.FindOne(email.value);
    if user.None? {
      res.Send(401, ErrorBody(InvalidCredentialsText));
      return;
    }
    var u := user.value;
    var isMatch := matches(password.value, u.password);
    if isMatch.None? {
      // `comparePassword` threw
      res.Send(500, ErrorBody(LoginErrorText));
      return;
    }
    if !isMatch.value {
      res.Send(401, ErrorBody(InvalidCredentialsText));
      return;
    }
    var token := sign(u.id);
    if token.None? {
      res.Send(500, ErrorBody(LoginErrorText));
      return;
    }
    // `res.json`: the status already set stays (200 on a fresh response)
    res.Json(SessionBody(LoggedInText, token.value, PublicUser(u.id, u.email, u.name)));
  }
}
