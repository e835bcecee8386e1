/**
 * Backend URL construction of the React front end (frontend-react/lib/api.ts).
 * `base` is the value of NEXT_PUBLIC_API_URL, "" when it is unset.
 */
module Api {
  import opened JsString

  /** `endpoint` with a "/" put in front when it does not start with one. */
  function CleanEndpoint(endpoint: string): string {
    if StartsWith(endpoint, "/") then endpoint else "/" + endpoint
  }

  /** `base` with one trailing "/" sliced off when it ends with one. */
  function CleanBase(base: string): string {
    if EndsWith(base, "/") then base[..|base| - 1] else base
  }

  /** `apiUrl(endpoint)`: the endpoint itself without a base, else base and endpoint joined by one "/". */
  function ApiUrl(base: string, endpoint: string): (url: string)
    ensures EndsWith(url, endpoint)
    ensures base == "" ==> url == endpoint
    ensures base != "" ==> |CleanBase(base)| < |url| && StartsWith(url, CleanBase(base)) && url[|CleanBase(base)|] == '/'
  {
    if base != "" then CleanBase(base) + CleanEndpoint(endpoint) else endpoint
  }

  /** The endpoint gains a leading "/" only when it lacks one. */
  lemma CleanEndpointSpec(endpoint: string)
    ensures StartsWith(CleanEndpoint(endpoint), "/")
    ensures StartsWith(endpoint, "/") ==> CleanEndpoint(endpoint) == endpoint
    ensures !StartsWith(endpoint, "/") ==> CleanEndpoint(endpoint)[1..] == endpoint
  {
    if !StartsWith(endpoint, "/") {
      assert ("/" + endpoint)[..1] == "/";
    }
  }

  /** At most one trailing "/" is removed from the base, and only a "/". */
  lemma CleanBaseSpec(base: string)
    ensures StartsWith(base, CleanBase(base))
    ensures |CleanBase(base)| == if EndsWith(base, "/") then |base| - 1 else |base|
    ensures |CleanBase(base)| < |base| ==> base[|base| - 1] == '/'
  {
  }

  /** Without a base the endpoint is used as it is, a relative path to the Next.js routes. */
  lemma ApiUrlWithoutBase(endpoint: string)
    ensures ApiUrl("", endpoint) == endpoint
  {
  }

  /**
   * With a base, the URL is the cleaned base followed by the cleaned endpoint:
   * it starts with the one, ends with the other, and a "/" joins them.
   */
  lemma ApiUrlWithBase(base: string, endpoint: string)
    requires base != ""
    ensures var url := ApiUrl(base, endpoint);
      && StartsWith(url, CleanBase(base))
      && EndsWith(url, CleanEndpoint(endpoint))
      && |url| == |CleanBase(base)| + |CleanEndpoint(endpoint)|
      && url[|CleanBase(base)|] == '/'
  {
    var url := ApiUrl(base, endpoint);
    CleanEndpointSpec(endpoint);
    assert url[..|CleanBase(base)|] == CleanBase(base);
    assert url[|url| - |CleanEndpoint(endpoint)|..] == CleanEndpoint(endpoint);
    assert url[|CleanBase(base)|] == CleanEndpoint(endpoint)[0];
  }

  /** Writing the endpoint with or without its leading "/" makes no difference. */
  lemma LeadingSlashOptional(base: string, endpoint: string)
    requires !StartsWith(endpoint, "/")
    ensures base != "" ==> ApiUrl(base, "/" + endpoint) == ApiUrl(base, endpoint)
  {
    assert StartsWith("/" + endpoint, "/");
  }

  /** Writing the base with or without one trailing "/" makes no difference. */
  lemma TrailingSlashOptional(base: string, endpoint: string)
    requires base != "" && !EndsWith(base, "/")
    ensures ApiUrl(base + "/", endpoint) == ApiUrl(base, endpoint)
  {
    assert EndsWith(base + "/", "/");
    assert (base + "/")[..|base|] == base;
  }

  /** Only one of two trailing slashes is removed. */
  lemma OnlyOneSlashRemoved()
    ensures ApiUrl("http://host//", "/api/health") == "http://host//api/health"
  {
    assert EndsWith("http://host//", "/");
    assert "http://host//"[..12] == "http://host/";
  }

  /** `API_ENDPOINTS.chat()` */
  function ChatUrl(base: string): string { ApiUrl(base, "/api/chat") }
  /** `API_ENDPOINTS.login()` */
  function LoginUrl(base: string): string { ApiUrl(base, "/api/auth/login") }
  /** `API_ENDPOINTS.signup()` */
  function SignupUrl(base: string): string { ApiUrl(base, "/api/auth/signup") }
  /** `API_ENDPOINTS.health()` */
  function HealthUrl(base: string): string { ApiUrl(base, "/api/health") }

  /**
   * The four endpoints are their paths appended to a base without a trailing
   * "/", and the bare paths when no base is configured.
   */
  lemma EndpointUrls(base: string)
    requires !EndsWith(base, "/")
    ensures ChatUrl(base) == base + "/api/chat"
    ensures LoginUrl(base) == base + "/api/auth/login"
    ensures SignupUrl(base) == base + "/api/auth/signup"
    ensures HealthUrl(base) == base + "/api/health"
  {
    assert StartsWith("/api/chat", "/");
    assert StartsWith("/api/auth/login", "/");
    assert StartsWith("/api/auth/signup", "/");
    assert StartsWith("/api/health", "/");
  }
}
