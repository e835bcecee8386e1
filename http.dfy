/**
 * What the route handlers exchange: fields of a parsed JSON request body,
 * the JSON bodies they answer with, and Express's request and response
 * objects, which the backend handlers update in place.
 */
module Http {
  import opened Wrappers

  /** A field of a parsed JSON body as JavaScript sees it: absent, a string, or another JSON value. */
  datatype JsonField = Missing | Text(text: string) | NonText(truthy: bool)

  /** JavaScript truthiness of a body field. */
  predicate Truthy(f: JsonField) {
    match f
    case Missing => false
    case Text(t) => t != ""
    case NonText(b) => b
  }

  /** A string field that is present and non-empty (`!!value` for a string or nothing). */
  predicate Given(v: Option<string>) {
    v.Some? && v.value != ""
  }

  /** The user as the auth routes report it: no password. */
  datatype PublicUser = PublicUser(id: string, email: string, name: string)

  /** The JSON bodies the handlers send. */
  datatype Body =
    | ErrorBody(error: string)
    | ConfigErrorBody(error: string, hint: string)
    | ReplyBody(reply: string)
    | SessionBody(message: string, token: string, user: PublicUser)

  datatype HttpResponse = HttpResponse(status: int, body: Body)

  /** An Express request: its Authorization header, the `message` of its body, and `req.userId`. */
  class Request {
    const authorization: Option<string>
    const message: JsonField
    var userId: Option<string>

    constructor (authorization: Option<string>, message: JsonField)
      ensures this.authorization == authorization && this.message == message && userId == None
    {
      this.authorization := authorization;
      this.message := message;
      userId := None;
    }
  }

  /** An Express response: the status code (200 until set) and the JSON body once sent. */
  class Response {
    var status: int
    var body: Option<Body>

    constructor ()
      ensures status == 200 && body == None
    {
      status := 200;
      body := None;
    }

    /** `res.status(code).json(b)` */
    method Send(code: int, b: Body)
      modifies this
      ensures status == code && body == Some(b)
    {
      status := code;
      body := Some(b);
    }

    /** `res.json(b)`: the status stays what it was. */
    method Json(b: Body)
      modifies this
      ensures status == old(status) && body == Some(b)
    {
      body := Some(b);
    }
  }
}
