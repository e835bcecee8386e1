/**
 * How both chat handlers (backend/server.js and the Next.js route
 * frontend-react/app/api/chat/route.ts) turn a caught error into a response:
 * case-sensitive substring tests on `error.message`, "API key" first, then
 * "rate limit". A missing message is "" here; it fails both tests, as a falsy
 * `error.message` does in the source.
 */
module ProviderErrors {
  import opened JsString
  import opened Http

  const KeyErrorText := "Groq API key configuration error."
  const QuotaErrorText := "API quota exceeded. Please try again later."
  const GenericErrorText := "Failed to generate response. Please try again."

  /** The response the catch block sends for an error with this message. */
  function Classify(message: string): (r: HttpResponse)
    ensures r.status == 500 || r.status == 503
    ensures r.status == 503 <==> !Includes(message, "API key") && Includes(message, "rate limit")
    ensures r.body.ErrorBody?
    ensures r.body.error == KeyErrorText <==> Includes(message, "API key")
    ensures r.body.error == QuotaErrorText <==> r.status == 503
    ensures !Includes(message, "API key") && !Includes(message, "rate limit") ==>
      r == HttpResponse(500, ErrorBody(GenericErrorText))
  {
    if Includes(message, "API key") then HttpResponse(500, ErrorBody(KeyErrorText))
    else if Includes(message, "rate limit") then HttpResponse(503, ErrorBody(QuotaErrorText))
    else HttpResponse(500, ErrorBody(GenericErrorText))
  }

  /** The "API key" test comes first: a message naming both is a 500. */
  lemma KeyTestFirst(message: string)
    requires Includes(message, "API key") && Includes(message, "rate limit")
    ensures Classify(message) == HttpResponse(500, ErrorBody(KeyErrorText))
  {
  }
}
