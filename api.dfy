/**
 * The HTTP client's configuration: which host the app talks to, the `/api`
 * base path, and the request interceptor that attaches the stored session
 * token. The environment variable, the platform and the browser window are
 * inputs.
 */
module Api {
  import opened Wrappers
  import opened Text
  import opened Storage
  import Auth

  /** `Platform.OS`. */
  datatype Platform = Android | Ios | Web | Windows | MacOS

  /** The parts of `window.location` that are used; `protocol` keeps its colon, as in `"https:"`. */
  datatype Location = Location(protocol: string, hostname: string)

  /** Request headers, by name. */
  type Headers = map<string, string>

  const AndroidEmulatorUrl := "http://10.0.2.2:8081"
  const LoopbackUrl := "http://127.0.0.1:8081"
  const ApiSuffix := "/api"
  const AuthorizationHeader := "Authorization"

  /**
   * The host chosen at load time: a non-empty `EXPO_PUBLIC_API_URL` first,
   * then the Android emulator's alias for the development machine, then the
   * page's own host on port 8081 in a browser, and the loopback address
   * everywhere else (iOS, other platforms, web without a window).
   */
  function HostUrl(envApiUrl: Option<string>, os: Platform, window: Option<Location>): (url: string)
    ensures Truthy(envApiUrl) ==> url == envApiUrl.value
    ensures !Truthy(envApiUrl) && os == Android ==> url == AndroidEmulatorUrl
    ensures !Truthy(envApiUrl) && os == Web && window.Some? ==>
              url == window.value.protocol + "//" + window.value.hostname + ":8081"
    ensures !Truthy(envApiUrl) && os != Android && !(os == Web && window.Some?) ==> url == LoopbackUrl
  {
    if envApiUrl.Some? && envApiUrl.value != "" then envApiUrl.value
    else if os == Android then AndroidEmulatorUrl
    else if os == Web then
      if window.Some? then window.value.protocol + "//" + window.value.hostname + ":8081" else LoopbackUrl
    else LoopbackUrl
  }

  /** `baseURL`: the host with `/api` appended unless it already ends with it. */
  function BaseUrl(url: string): (b: string)
    ensures EndsWith(b, ApiSuffix)
    ensures |url| <= |b| && b[..|url|] == url
    ensures EndsWith(url, ApiSuffix) <==> b == url
    ensures !EndsWith(url, ApiSuffix) ==> b == url + ApiSuffix
  {
    if EndsWith(url, ApiSuffix) then url
    else
      EndsWithAppended(url, ApiSuffix);
      url + ApiSuffix
  }

  /** The base URL the client is created with. */
  function ConfiguredBaseUrl(envApiUrl: Option<string>, os: Platform, window: Option<Location>): (b: string)
    ensures EndsWith(b, ApiSuffix)
    ensures var host := HostUrl(envApiUrl, os, window); |host| <= |b| && b[..|host|] == host
    ensures envApiUrl.Some? && envApiUrl.value != "" ==> b == BaseUrl(envApiUrl.value)
  {
    BaseUrl(HostUrl(envApiUrl, os, window))
  }

  /** Applying the suffix rule twice is the same as applying it once. */
  lemma BaseUrlIdempotent(url: string)
    ensures BaseUrl(BaseUrl(url)) == BaseUrl(url)
  {
  }

  /** A non-empty environment URL decides the host whatever the platform and window. */
  lemma EnvironmentUrlWins(env: string, os1: Platform, os2: Platform, w1: Option<Location>, w2: Option<Location>)
    requires env != ""
    ensures ConfiguredBaseUrl(Some(env), os1, w1) == ConfiguredBaseUrl(Some(env), os2, w2) == BaseUrl(env)
  {
  }

  /** An empty environment URL is treated exactly as a missing one. */
  lemma EmptyEnvironmentUrlIsAbsent(os: Platform, window: Option<Location>)
    ensures ConfiguredBaseUrl(Some(""), os, window) == ConfiguredBaseUrl(None, os, window)
  {
  }

  /** A host URL that ends in a digit, as every fallback does, gets `/api` appended. */
  lemma EndsInDigitGetsSuffix(url: string)
    requires url != [] && '0' <= url[|url| - 1] <= '9'
    ensures BaseUrl(url) == url + ApiSuffix
  {
    if |url| >= |ApiSuffix| {
      assert url[|url| - |ApiSuffix|..][3] == url[|url| - 1];
    }
  }

  /** The Android emulator's fixed base URL. */
  lemma AndroidBaseUrl(window: Option<Location>)
    ensures ConfiguredBaseUrl(None, Android, window) == AndroidEmulatorUrl + ApiSuffix
  {
    EndsInDigitGetsSuffix(AndroidEmulatorUrl);
  }

  /** The loopback base URL, used on iOS and the other platforms, and on the web without a window. */
  lemma LoopbackBaseUrl(os: Platform, window: Option<Location>)
    requires os != Android && !(os == Web && window.Some?)
    ensures ConfiguredBaseUrl(None, os, window) == LoopbackUrl + ApiSuffix
  {
    EndsInDigitGetsSuffix(LoopbackUrl);
  }

  /** A browser page's base URL: its own protocol and host name, port 8081, then `/api`. */
  lemma WebBaseUrl(loc: Location)
    ensures ConfiguredBaseUrl(None, Web, Some(loc)) == loc.protocol + "//" + loc.hostname + ":8081" + ApiSuffix
  {
    var host := loc.protocol + "//" + loc.hostname + ":8081";
    assert host[|host| - 1] == '1';
    EndsInDigitGetsSuffix(host);
  }

  /**
   * The request interceptor's header rule: a truthy token sets
   * `Authorization: Bearer <token>`; without one the headers pass untouched.
   * No other header is changed.
   */
  function WithAuthorization(headers: Headers, token: Option<string>): (h: Headers)
    ensures Truthy(token) ==> AuthorizationHeader in h && h[AuthorizationHeader] == "Bearer " + token.value
    ensures !Truthy(token) ==> h == headers
    ensures h.Keys == headers.Keys + (if Truthy(token) then {AuthorizationHeader} else {})
    ensures forall k :: k in headers && k != AuthorizationHeader ==> h[k] == headers[k]
  {
    if token.Some? && token.value != "" then headers[AuthorizationHeader := "Bearer " + token.value] else headers
  }

  /** What the interceptor does to a request, given the store it reads the token from. */
  function InterceptRequest(headers: Headers, store: Store): (h: Headers)
    ensures Truthy(GetItem(store, TokenKey)) ==>
      AuthorizationHeader in h && h[AuthorizationHeader] == "Bearer " + store[TokenKey]
    ensures !Truthy(GetItem(store, TokenKey)) ==> h == headers
    ensures forall k :: k in headers && k != AuthorizationHeader ==> k in h && h[k] == headers[k]
  {
    WithAuthorization(headers, GetItem(store, TokenKey))
  }

  /** After a successful log-in every request carries the new session's bearer token. */
  lemma RequestsAfterLoginCarryToken(s: Auth.AuthState, mode: Auth.AuthMode, email: string, password: string,
                                     session: Auth.Session, headers: Headers)
    requires Auth.ValidateCredentials(email, password) == None
    requires session.token != ""
    ensures var t := Auth.Authenticated(s, mode, email, password, Auth.Responded(Some(session)));
      InterceptRequest(headers, t.storage)[AuthorizationHeader] == "Bearer " + session.token
  {
    var t := Auth.Authenticated(s, mode, email, password, Auth.Responded(Some(session)));
    assert GetItem(t.storage, TokenKey) == Some(session.token);
  }

  /** After a log-out no request gets an `Authorization` header from the interceptor. */
  lemma RequestsAfterLogoutCarryNoToken(s: Auth.AuthState, headers: Headers)
    ensures InterceptRequest(headers, Auth.LoggedOut(s).storage) == headers
  {
  }
}
