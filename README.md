# TutorPy in Dafny

TutorPy is a tutoring web application. Users sign up and log in, chat with a
hosted language model through a server that adds a fixed system prompt, and
work on Python problems in an in-browser editor. From that editor they can ask
for progressive hints, up to level 4. This project models the application's
logic and proves properties of it:

- **The per-problem hint store** of the React front end (`Hints`). One browser
  storage entry, `tutorpy_hints`, holds a dictionary from problem id to hint
  record. The id is `problem_` followed by the absolute value of a 32-bit
  rolling hash over the problem's UTF-16 code units.
  - `HintStore` is a class whose `stored` field is `Absent | Corrupt | Parsed(map)`.
  - Its methods read a record with defaults, save one, append a hint, and reset
    one. Each method is tied to a value function (`Lookup`, `Save`, `Appended`,
    `Reset`).
  - The hash loop is a method proved against the hash function.
  - The history text is `Level n: hint` lines joined by line breaks.
- **The editor's hint state machine** (`PyodideEditor.Editor`).
  - The problem-load effect.
  - `getNextHint`, split at its `fetch` into `RequestHint` and `ReceiveHint`.
  - The last-error bookkeeping of `runCode`.
- **URL and token helpers.**
  - `Api`: joining the backend base URL and an endpoint.
  - `TokenAuth`: bearer-token extraction, and the null-on-failure contracts of
    `verifyToken` and `generateToken`.
  - `AuthMiddleware`: the backend's `auth` middleware.
- **Request handlers.**
  - `ChatServer`: the backend's `/api/chat` validation, message assembly and
    response.
  - `ChatRoute`: the Next.js chat proxy.
  - `ProviderErrors`: the classification of provider errors that both chat
    handlers share.
  - `AuthRoutes`: the backend's signup and login, over a `UserCollection` class.
  - `NextSignupRoute` and `NextLoginRoute`: the Next.js versions of signup and
    login.

JavaScript built-ins are modelled in `JsString` and `Http`. `JsString` covers
`indexOf`, `includes`, `replace` with a string pattern, `trim`, `String(n)`,
`join` and `split`. `Http` covers JSON body fields with JavaScript truthiness,
and Express request and response objects.

External libraries and the environment enter as parameters:

- `jwt.sign` and `jwt.verify` are function parameters.
- bcrypt's `comparePassword` is `matches`; None stands for a `comparePassword` that throws.
- The Groq SDK call is `groq`.
- The backend `fetch` is `backend`.
- Whether `findOne` and `save` succeed is `findOk` and `saveOk`.
- Whether `connectDB` succeeds is `connected`.
- Configuration values are `Option<string>` or `string` parameters; an unset
  `NEXT_PUBLIC_API_URL` is `""`.
- `Date.now()` is `now`.

Some behaviours of the code that the model keeps:

- The store never caps the hint level; only the editor refuses to ask past 4.
  `Hints.AddAllAppends` proves that any number of `addHint` calls keep
  appending.
- The chat handlers send only the fixed system prompt and the current message.
  No conversation history is scanned for earlier hints, and no hint level is
  inferred from chat text. The only hint level is the editor's stored counter.
  The editor's hint prompt travels as the user message of an ordinary chat
  request.
- A reply that arrives after the editor's problem changed is stored under the
  problem of the request, as the suspended closure captured it.
- A signup whose token cannot be signed has already saved the user, and answers
  500.

## Model

| member | source | states |
|---|---|---|
| JsString.IndexOf | frontend-react/lib/auth.ts:28 | The result is the first position where the pattern occurs; None means it occurs nowhere (the search inside `replace`/`includes`) |
| JsString.RemoveFirst | frontend-react/lib/auth.ts:28 | `replace(p, '')`: without an occurrence the text is unchanged; otherwise it is |p| shorter, and putting p back at the first occurrence gives the text back |
| JsString.AbsentCharExcludes | backend/server.js:105 | A text lacking one character of the pattern does not include it |
| JsString.PairFreeConcat | backend/server.js:111 | Joining texts without the pair x,y adjacent gives such a text unless the pair forms at the seam |
| JsString.AbsentPairExcludes | backend/server.js:111 | A text where the pattern's first two characters never stand together does not include it |
| JsString.TrimStart | backend/server.js:55 | Leading whitespace is removed: the result is a suffix and starts with a non-whitespace character or is empty |
| JsString.TrimEnd | backend/server.js:55 | Trailing whitespace is removed: the result is a prefix and ends with a non-whitespace character or is empty |
| JsString.Trim | backend/server.js:55 | `trim()` is the piece of the text between its leading and trailing whitespace, and neither starts nor ends with whitespace |
| JsString.TrimEmptyIff | backend/server.js:55 | `message.trim().length === 0` holds exactly when every character is whitespace |
| JsString.NatToString | frontend-react/lib/hints.ts:32 | `String(n)`: non-empty decimal digits without a leading zero |
| JsString.NatToStringRoundTrip | frontend-react/lib/hints.ts:32 | Reading the decimal text of n gives back n |
| JsString.NatToStringInjective | frontend-react/lib/hints.ts:32 | Different numbers have different decimal texts |
| JsString.IntToString | frontend-react/lib/hints.ts:138 | `String(i)`: a leading "-" exactly for negative i, then decimal digits that read back as the absolute value |
| JsString.Join | frontend-react/lib/hints.ts:137-139 | `join` of no parts is ""; otherwise the text starts with the first part and ends with the last |
| JsString.SplitJoin | frontend-react/lib/hints.ts:137-139 | Splitting a `join` of line-break-free parts at the separator gives the parts back |
| Hints.ToInt32 | frontend-react/lib/hints.ts:29-30 | The result is a signed 32-bit integer congruent to the input modulo 2^32 |
| Hints.ToInt32Congruent | frontend-react/lib/hints.ts:30 | Congruent inputs wrap to the same 32-bit value |
| Hints.HashStepIsWrapped | frontend-react/lib/hints.ts:29-30 | `((h << 5) - h) + c` followed by `h & h` equals 31*h + c wrapped to 32 bits |
| Hints.Utf16OfBasicText | frontend-react/lib/hints.ts:27-28 | Text below U+10000 has one `charCodeAt` unit per character, equal to its code |
| Hints.CodeUnits | frontend-react/lib/hints.ts:28 | A character gives one code unit below U+10000 (its own code) and a surrogate pair above it; every unit is below 0x10000 |
| Hints.Utf16 | frontend-react/lib/hints.ts:27-28 | The code units `length` counts and `charCodeAt` reads: at least one per character, each below 0x10000 |
| Hints.Hash | frontend-react/lib/hints.ts:26-31 | The hash after every character stays a signed 32-bit value, starting from 0 |
| Hints.ProblemIdOf | frontend-react/lib/hints.ts:24-33 | An id is `problem_` followed by at least one decimal digit |
| Hints.GetProblemId | frontend-react/lib/hints.ts:24-33 | The loop computes exactly the id of the hash over all code units |
| Hints.ProblemIdShape | frontend-react/lib/hints.ts:32 | An id is `problem_` then decimal digits denoting the absolute hash, at most 2^31 |
| Hints.SameIdIff | frontend-react/lib/hints.ts:32 | Two problems share an id exactly when their hashes have equal absolute values; equal texts give equal ids |
| Hints.EmptyProblemId | frontend-react/lib/hints.ts:26-32 | The empty problem's id is `problem_0` |
| Hints.CollidingProblems | frontend-react/lib/hints.ts:24-33 | "Aa" and "BB" both get `problem_2112` |
| Hints.Save | frontend-react/lib/hints.ts:72-86 | Storage becomes parsed; only key `r.problemId` is written; unparseable storage becomes a map of this record alone |
| Hints.Fresh | frontend-react/lib/hints.ts:43-48 | The zero record carries the problem and its id, no hints and level 0, and is well formed |
| Hints.Reset | frontend-react/lib/hints.ts:114-127 | Absent or unparseable storage is untouched; otherwise only this problem's key is deleted |
| Hints.Lookup | frontend-react/lib/hints.ts:38-66 | The record read is the zero record or one held in storage; whenever storage parses and holds a record under the problem's id, that record is the one returned, whichever session wrote it |
| Hints.Appended | frontend-react/lib/hints.ts:91-106 | `addHint`'s record keeps id, problem and every earlier hint, and adds exactly one hint at level `currentLevel + 1`, which becomes the level |
| Hints.LookupDefaults | frontend-react/lib/hints.ts:38-66 | Absent storage, unparseable storage and a missing key each read as the zero record |
| Hints.LookupAfterSave | frontend-react/lib/hints.ts:38-86 | A save then a read of any problem with that id returns the saved record unchanged, collisions included |
| Hints.SaveLeavesOthers | frontend-react/lib/hints.ts:84 | A save leaves every other problem's reading unchanged |
| Hints.LookupAfterReset | frontend-react/lib/hints.ts:114-127 | After a reset the problem reads as the zero record |
| Hints.ResetLeavesOthers | frontend-react/lib/hints.ts:122 | A reset leaves other problems' readings unchanged |
| Hints.ResetIdempotent | frontend-react/lib/hints.ts:114-127 | Resetting twice is resetting once |
| Hints.WritesKeepKeysMatch | frontend-react/lib/hints.ts:84-122 | Saves and resets keep every record under its own id |
| Hints.LookupId | frontend-react/lib/hints.ts:38-58 | In such storage the record read for a problem carries that problem's id |
| Hints.ExtendsByOne | frontend-react/lib/hints.ts:103-104 | Appending the next-level hint extends the hint list by exactly that entry |
| Hints.AddAllReadsAppendAll | frontend-react/lib/hints.ts:91-109 | After n `addHint` calls the problem reads as its old record with those n hints appended in order, and records stay under their ids |
| Hints.AppendAllExtends | frontend-react/lib/hints.ts:93-105 | Appending n hints keeps id, text and earlier hints, adds the hints at levels old+1..old+n, and raises the level by n |
| Hints.AddAllAppends | frontend-react/lib/hints.ts:91-109 | n `addHint` calls append n hints at levels old+1..old+n in order, keep the id, text and earlier hints, and never stop at 4 |
| Hints.AddOneAppends | frontend-react/lib/hints.ts:91-109 | One `addHint` reads back as the appended record and keeps records under their ids |
| Hints.FreshProblemLevels | frontend-react/lib/hints.ts:91-109 | From a fresh problem, n calls give `hints.length == currentLevel == n`, levels 1..n, texts in call order |
| Hints.AppendedWellFormed | frontend-react/lib/hints.ts:93-105 | `addHint` keeps "level counts hints, levels 1..n" and puts the new hint at level n+1 |
| Hints.CollisionReturnsOtherRecord | frontend-react/lib/hints.ts:51-53 | After adding a hint for "Aa", reading "BB" returns the record whose problem text is "Aa" |
| Hints.EmptyHistoryString | frontend-react/lib/hints.ts:133-135 | A record without hints renders exactly as "No previous hints given." |
| Hints.HintLine | frontend-react/lib/hints.ts:138 | `Level ${level}: ${hint}`: the level's digits read back as the level, and no line break appears unless the hint has one |
| Hints.HintLines | frontend-react/lib/hints.ts:137-138 | One line per hint, in order |
| Hints.HintHistoryString | frontend-react/lib/hints.ts:133-139 | The text is "No previous hints given." exactly when the record has no hints |
| Hints.OneHintHistoryString | frontend-react/lib/hints.ts:137-139 | A record with one level-1 hint renders as the single line "Level 1: " followed by the hint |
| Hints.IntToStringOneLine | frontend-react/lib/hints.ts:138 | A level number's text holds no line break |
| Hints.HistoryStringLines | frontend-react/lib/hints.ts:137-139 | With line-break-free hints, splitting the history at line breaks gives the hint lines back in order |
| Hints.HintStore.GetProblemHints | frontend-react/lib/hints.ts:38-66 | Returns the storage's reading for the problem and changes nothing |
| Hints.HintStore.SaveProblemHints | frontend-react/lib/hints.ts:72-86 | The new storage is `Save` of the old |
| Hints.HintStore.AddHint | frontend-react/lib/hints.ts:91-109 | Returns the old record with one hint appended at the next level, and saves it |
| Hints.HintStore.ResetHints | frontend-react/lib/hints.ts:114-127 | The new storage is `Reset` of the old |
| PyodideEditor.ReplyText | frontend-react/components/PythonCodeEditorPyodide.tsx:251 | The hint is never empty, and is the reply itself when the reply is non-empty |
| PyodideEditor.HistoryFor | frontend-react/components/PythonCodeEditorPyodide.tsx:191 | Without a loaded record, or with one that has no hints, the history is "No previous hints given." |
| PyodideEditor.ErrorSection | frontend-react/components/PythonCodeEditorPyodide.tsx:206 | The runtime-error section is present exactly when the last error is non-empty, and carries it |
| PyodideEditor.Editor.constructor | frontend-react/components/PythonCodeEditorPyodide.tsx:49-65 | Initial state, then the load effect for a non-empty problem: its record and level are loaded, and the hint shown is its last stored hint, or "" when it has none |
| PyodideEditor.Editor.SetProblem | frontend-react/components/PythonCodeEditorPyodide.tsx:56-65 | A new non-empty problem loads its record, the level follows it, and its last hint is shown if it has one; otherwise nothing but the prop changes |
| PyodideEditor.Editor.SetCode | frontend-react/components/PythonCodeEditorPyodide.tsx:384 | Only the code changes |
| PyodideEditor.Editor.RuntimeLoaded | frontend-react/components/PythonCodeEditorPyodide.tsx:75-95 | Only the runtime becomes ready |
| PyodideEditor.Editor.HintButtonEnabled | frontend-react/components/PythonCodeEditorPyodide.tsx:297-300 | An enabled button means a problem is set, no request is in flight, and a click asks for a level of at most 4 |
| PyodideEditor.Editor.RequestHint | frontend-react/components/PythonCodeEditorPyodide.tsx:175-242 | Refused (empty problem, loading, level >= 4): nothing changes. No token: only the sign-in text. Otherwise it sends the request for level+1 (at most 4) to `API_ENDPOINTS.chat` with `Bearer token`, carrying the history text and the error section |
| PyodideEditor.Editor.ReceiveHint | frontend-react/components/PythonCodeEditorPyodide.tsx:244-266 | OK: exactly one `addHint` for the request's problem, and the level becomes the updated one, equal to the requested level when the panel was in step with the store. Failure: the failure text and no store write. Loading ends either way |
| PyodideEditor.Editor.RunCode | frontend-react/components/PythonCodeEditorPyodide.tsx:132-171 | Without the runtime nothing changes; otherwise the last error is cleared, then set to a raised error's message |
| Api.CleanEndpointSpec | frontend-react/lib/api.ts:19 | The endpoint starts with "/", and gains one only when it lacks one |
| Api.CleanBaseSpec | frontend-react/lib/api.ts:21 | At most one trailing "/" is removed from the base, and only a "/" |
| Api.ApiUrl | frontend-react/lib/api.ts:13-39 | The URL always ends with the endpoint; without a base it is the endpoint; with one it is the cleaned base, then one "/" |
| Api.ApiUrlWithoutBase | frontend-react/lib/api.ts:33-39 | With no base, the endpoint is returned unchanged |
| Api.ApiUrlWithBase | frontend-react/lib/api.ts:17-29 | With a base, the URL is the cleaned base followed by the cleaned endpoint, joined by "/" |
| Api.LeadingSlashOptional | frontend-react/lib/api.ts:19 | An endpoint with or without its leading "/" gives the same URL |
| Api.TrailingSlashOptional | frontend-react/lib/api.ts:21 | A base with or without one trailing "/" gives the same URL |
| Api.OnlyOneSlashRemoved | frontend-react/lib/api.ts:21 | A base ending in "//" keeps one of them |
| Api.EndpointUrls | frontend-react/lib/api.ts:43-48 | The four `API_ENDPOINTS` are `apiUrl` of their paths |
| TokenAuth.TokenFromHeader | frontend-react/lib/auth.ts:26-29 | A missing header gives null, and a token is never empty |
| TokenAuth.BearerHeaderToken | frontend-react/lib/auth.ts:28 | `"Bearer " + t` gives t, even when t contains "Bearer " |
| TokenAuth.BareBearerIsNull | frontend-react/lib/auth.ts:28 | A header of exactly "Bearer " gives null |
| TokenAuth.HeaderWithoutPrefix | frontend-react/lib/auth.ts:28 | A header without "Bearer " is the token itself (null when empty) |
| TokenAuth.FirstOccurrenceRemoved | frontend-react/lib/auth.ts:28 | Only the first "Bearer " is removed, wherever it occurs |
| TokenAuth.VerifyToken | frontend-react/lib/auth.ts:5-24 | A missing or empty JWT_SECRET gives null; a result is what `jwt.verify` accepted |
| TokenAuth.GenerateToken | frontend-react/lib/auth.ts:13-15 | Fails exactly when JWT_SECRET is missing or empty; otherwise it is `jwt.sign` of `{userId}` |
| Http.Response.Send | backend/server.js:51 | `res.status(code).json(b)`: the status becomes the code and the body is b |
| Http.Response.Json | backend/server.js:99 | `res.json(b)`: the body is b and the status stays what it was (200 on a fresh response) |
| AuthMiddleware.Decide | backend/middleware/auth.js:6-23 | No token: 401 "No token, authorization denied". A rejected token: 401 "Token is not valid". Otherwise the verified user id proceeds |
| AuthMiddleware.HeaderToken | backend/middleware/auth.js:9 | No header gives ""; a header starting with "Bearer " gives the rest; one without "Bearer " is the token as is |
| AuthMiddleware.SameTokenAsFrontEnd | backend/middleware/auth.js:9 | The backend reads the same token from a header as `getTokenFromRequest` does |
| AuthMiddleware.BearerTokenDecided | backend/middleware/auth.js:9-19 | `Bearer t` is decided on t |
| AuthMiddleware.Auth | backend/middleware/auth.js:6-23 | Exactly one thing happens: `next()` with `req.userId` set and no response, or a 401 with the request untouched |
| ProviderErrors.Classify | backend/server.js:101-121 | "API key" gives 500 with the key-configuration text, checked first; otherwise "rate limit" gives 503 with the quota text; a message with neither gets exactly 500 "Failed to generate response. Please try again." |
| ProviderErrors.KeyTestFirst | backend/server.js:105-109 | A message naming both "API key" and "rate limit" is a 500 |
| ChatServer.ValidateMessage | backend/server.js:50-57 | A missing, empty or non-string message gives 400 "Message is required"; a whitespace-only one gives 400 "Message cannot be empty"; the rest pass |
| ChatServer.ProviderMessages | backend/server.js:84-87 | Two messages, the system prompt first; the only user message is the request's message, so no earlier conversation is sent |
| ChatServer.Chat | backend/server.js:46-121 | Validation decides first. A reply is sent exactly when the message passes, the key is set and the provider answers, and it is the provider's content with status 200. Without the key the answer is the classification of the missing-key message; a provider failure gets the classification of its own message |
| ChatServer.MissingKeyTextUnmatched | backend/server.js:16 | The missing-key message contains neither "API key" nor "rate limit" |
| ChatServer.MissingKeyIsGenericError | backend/server.js:14-120 | A valid message without GROQ_API_KEY gets the generic 500, not the key-configuration error |
| ChatServer.ValidationBeforeProvider | backend/server.js:50-83 | A rejected message gets a 400 whatever the key and the provider |
| ChatServer.MessageSentUntrimmed | backend/server.js:84-87 | The provider receives the system prompt, then the message as typed, surrounding blanks included |
| ChatServer.ChatHandler | backend/server.js:46-121 | The provider is called exactly when the message passes and the key is set, with exactly [system prompt, message]; the response is that of `Chat` |
| ChatServer.PostChat | backend/server.js:45 | The middleware's 401 stands, the request is untouched and nothing reaches the provider unless the middleware proceeds; otherwise the handler's status and body, and the messages sent are [system prompt, message] |
| ChatRoute.Post | frontend-react/app/api/chat/route.ts:16-75 | With a backend URL, it forwards `{message}` to `<url>/api/chat` with `Bearer <token>` or "", and relays the backend's status and body. Unset, it gives 500 with the configuration error and hint, and forwards nothing. Errors are classified |
| ChatRoute.ForwardedAuthorization | frontend-react/app/api/chat/route.ts:31 | Empty exactly when there is no token; otherwise "Bearer " followed by the token |
| ChatRoute.BackendSeesSameToken | frontend-react/app/api/chat/route.ts:24-31 | The backend middleware reads from the forwarded header the token the route read |
| ChatRoute.TokenForwardedUnverified | frontend-react/app/api/chat/route.ts:16-38 | Any `Bearer t` is forwarded as is; the route never verifies it |
| ChatRoute.ProxyPassesThrough | frontend-react/app/api/chat/route.ts:36-37 | The backend's status and body reach the client unchanged |
| ChatRoute.UnconfiguredNeverForwards | frontend-react/app/api/chat/route.ts:43-50 | Without NEXT_PUBLIC_API_URL nothing is forwarded and the status is 500 |
| AuthRoutes.FindByEmail | backend/routes/auth.js:28 | The first user with that email, or None when no user has it |
| AuthRoutes.InsertKeepsUnique | backend/routes/auth.js:28-35 | Adding a user whose email is not taken keeps emails unique |
| AuthRoutes.UserCollection.FindOne | backend/routes/auth.js:28-70 | A found user is in the collection with that email; None exactly when no user has it |
| AuthRoutes.UserCollection.Insert | backend/routes/auth.js:34-35 | `save()` appends exactly this user |
| AuthRoutes.SignupResult | backend/routes/auth.js:18-54 | A falsy field gives 400 "Please provide all required fields"; a taken email gives 400 "User already exists with this email". The table changes exactly on a successful save, by one user. 201 carries the token and `{id,email,name}`. 500 "Error creating user" exactly when the fields are given and `findOne` fails, or the email is free and `save` or `jwt.sign` fails. Unique emails stay unique |
| AuthRoutes.SignupsKeepEmailsUnique | backend/routes/auth.js:28-35 | However many signups run in sequence, no two users share an email |
| AuthRoutes.SavedDespiteTokenError | backend/routes/auth.js:34-53 | A failing `jwt.sign` leaves the saved user in place and answers 500 |
| AuthRoutes.Signup | backend/routes/auth.js:18-54 | The collection and the response become those of `SignupResult` |
| AuthRoutes.LoginResult | backend/routes/auth.js:60-98 | Missing credentials give 400. An unknown email or wrong password gives 401 "Invalid credentials". 200 carries the first matching user's token and `{id,email,name}`. 500 "Error logging in" exactly when `findOne` fails, `comparePassword` throws, or `jwt.sign` fails for a matching password |
| AuthRoutes.UnknownEmailLooksLikeWrongPassword | backend/routes/auth.js:70-79 | An unknown email and a wrong password get the identical response |
| AuthRoutes.SignupThenLogin | backend/routes/auth.js:34-92 | A user who signed up logs in with the same password and gets their own id, email and name |
| AuthRoutes.Login | backend/routes/auth.js:60-98 | The body is that of `LoginResult`, and so is the status, except that a success sent with `res.json` keeps the status already set; the collection is not modified |
| NextSignupRoute.SignupResponse | frontend-react/app/api/auth/signup/route.ts:8-55 | A failed `connectDB` or unparseable body gives 500 "Error creating user" with the table unchanged; otherwise the backend's signup chain with tokens from `generateToken`. A 201 needs JWT_SECRET. Unique emails stay unique |
| NextSignupRoute.NoSecretStillSaves | frontend-react/app/api/auth/signup/route.ts:31-53 | Without JWT_SECRET a valid signup still stores the user, then answers 500 |
| NextSignupRoute.Post | frontend-react/app/api/auth/signup/route.ts:8-55 | The collection and the response become those of `SignupResponse` |
| NextLoginRoute.Post | frontend-react/app/api/auth/login/route.ts:8-60 | A failed `connectDB` or unparseable body gives 500 "Error logging in"; otherwise the backend's login chain with tokens from `generateToken`. A 200 needs JWT_SECRET |
| NextLoginRoute.SignupThenLogin | frontend-react/app/api/auth/login/route.ts:22-50 | A user who signed up through the Next.js route logs in through it and gets the token for their id |

## Left out

- Pyodide loading, stdout capture, the output text, the `isRunning` flag and the editor UI are left out. They are I/O and rendering. `runCode` is modelled only for `lastErrorRef`.
- The wording of the hint prompt is left out: a hint request records the facts the prompt is built from, and the level once. The hint prompt template, the TutorPy system prompt's effect and the model's replies are text for a language model, not logic.
- The JDoodle and plain editors, the pages, the UI components and the legacy DOM scripts under frontend/ are left out. They are rendering and navigation.
- The JWT format and expiry, bcrypt hashing in the User model, mongoose, `connectDB`'s connection caching and the Groq SDK are parameters. The User model is not part of this model, so the stored password is kept as given and compared through `matches`.
- Body fields that are neither strings nor absent (numbers, objects) are left out of the auth routes, which take `Option<string>`. The chat message does model them, as `JsonField.NonText`.
- JSON parse and stringify fidelity is left out. Storage is `Absent | Corrupt | Parsed`, and a stored dictionary that parses to a non-object (`null`, a number) is not distinguished from `Corrupt`.
- ChatServer.Chat: a provider answer whose `choices[0].message.content` is null, or whose `choices` is empty, is not modelled. The provider either returns a string or fails with a message.
- ChatRoute.Post: an error thrown without a `message` is the empty message; the route's unused `getGroqClient`, and `connectDB` and `verifyToken` imports, have no effect and are left out.
- The CORS origins, `/health`, `/test-gemini`, the root endpoint, `next.config.js` rewrites and the unused `fullPrompt` in backend/server.js are configuration or dead code.
- Concurrency is left out. Signup's check-then-insert is not atomic, and several browser tabs writing `tutorpy_hints` are not modelled. Each handler runs alone, and the editor has one request in flight at a time.
- The timestamp `Date.now()` is the parameter `now`.
- No hint-level resolver and no conversation history exist in the code: the chat handlers send one message to the provider, the only hint level is the editor's stored counter, and the store does not cap that counter (only the editor's button stops at 4).
- Hints.GetProblemId: a JavaScript string can hold a lone surrogate, which `charCodeAt` returns as it is; a Dafny `string` cannot hold one, so `Utf16` and `ProblemIdOf` cover only well-formed text, not every problem string the hash loop reads.
