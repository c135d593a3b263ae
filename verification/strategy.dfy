/**
  The machine-to-machine authentication strategy as pure transitions.

  Each operation of the strategy takes the current state and the answers of
  the external calls it makes (client-credentials exchange, token refresh,
  AWS federation) and returns the state it writes. The clock is the
  parameter `nowMs`, in milliseconds since the epoch, as `Date` reports it.
 */
module M2MStrategy {
  import opened Results
  import opened AuthState

  /** Refresh this many seconds before the token expires. */
  const ExpiryBufferSeconds: int := 20

  const OauthFailurePrefix: string := "Oauth failure: "
  const FederationFailurePrefix: string := "Token federation failure: "
  const ApiCallFailedPrefix: string := "API call failed: "
  const AuthenticationFailurePrefix: string := "Authentication failure: "
  const InternalErrorMessage: string := "Internal error: unreachable state"

  /** A call that either answers or fails with an already described error. */
  type Outcome<T> = Result<T, string>

  /**
    How the external calls answer during one operation: the
    client-credentials exchange for the profile's fixed host, audience,
    client id and secret; the refresh exchange as a function of the refresh
    token; and AWS federation as a function of the access token.
   */
  datatype Providers = Providers(
    clientCredentials: Outcome<OAuthInfo>,
    tokenRefresh: string -> Outcome<OAuthInfo>,
    federate: string -> Outcome<AwsConfig>)

  /** What `scheduleTokenRefresh` does with the state it finds. */
  datatype RefreshAction =
    | ArmTimer(delayMs: int, refreshToken: string)
    | RefreshNow(refreshToken: string)
    | Dormant

  /** The outcome of `withAuthentication`: the state it leaves and what it resolves or rejects with. */
  datatype Access<R> = Access(state: AuthenticationState, result: Outcome<R>)

  /**
    `authenticate`: exchange the client credentials, federate the access
    token, and overwrite the state whatever it was.
   */
  function Authenticate(p: Providers): (s: AuthenticationState)
    ensures s.Authenticated? || s.AuthenticationFailed?
    ensures s.Authenticated? <==>
              p.clientCredentials.Ok? && p.federate(p.clientCredentials.value.accessToken).Ok?
    ensures s.Authenticated? ==>
              s.oauthInfo == p.clientCredentials.value
              && p.federate(s.oauthInfo.accessToken) == Ok(s.awsConfig)
    ensures p.clientCredentials.Err? ==>
              s == AuthenticationFailed(OauthFailurePrefix + p.clientCredentials.error)
    ensures p.clientCredentials.Ok? && p.federate(p.clientCredentials.value.accessToken).Err? ==>
              s == AuthenticationFailed(FederationFailurePrefix + p.federate(p.clientCredentials.value.accessToken).error)
  {
    match p.clientCredentials
    case Err(e) => AuthenticationFailed(OauthFailurePrefix + e)
    case Ok(info) =>
      match p.federate(info.accessToken)
      case Ok(config) => Authenticated(info, config)
      case Err(e) => AuthenticationFailed(FederationFailurePrefix + e)
  }

  /**
    `performTokenRefreshAndUpdateState`: exchange `refreshToken` for new
    tokens; keep them (federating the new access token) only if the state
    is `authenticated` when the exchange answers. Any failure is stored
    with its bare description.
   */
  function RefreshAndUpdate(s: AuthenticationState, refreshToken: string, p: Providers): (s': AuthenticationState)
    ensures p.tokenRefresh(refreshToken).Err? ==>
              s' == AuthenticationFailed(p.tokenRefresh(refreshToken).error)
    ensures p.tokenRefresh(refreshToken).Ok? && !s.Authenticated? ==> s' == s
    ensures p.tokenRefresh(refreshToken).Ok? && s.Authenticated? ==>
              var info := p.tokenRefresh(refreshToken).value;
              match p.federate(info.accessToken)
              case Ok(config) => s' == Authenticated(info, config)
              case Err(e) => s' == AuthenticationFailed(e)
    ensures s'.AuthenticationExpired? ==> s' == s
  {
    match p.tokenRefresh(refreshToken)
    case Err(e) => AuthenticationFailed(e)
    case Ok(info) =>
      if s.Authenticated? then
        match p.federate(info.accessToken)
        case Ok(config) => Authenticated(info, config)
        case Err(e) => AuthenticationFailed(e)
      else
        s
  }

  /** The AWS half of freshness: no expiration, or one strictly after `nowMs`. */
  predicate AwsCredsAreFresh(config: AwsConfig, nowMs: int) {
    match config.expirationMs
    case None => true
    case Some(expiration) => expiration > nowMs
  }

  /** The OAuth half of freshness as written: `expiry` compared with milliseconds. */
  predicate OauthCredsAreFresh(info: OAuthInfo, nowMs: int) {
    info.expiry > nowMs
  }

  /** The OAuth half of freshness with `expiry` read as seconds, as the refresh delay reads it. */
  predicate OauthCredsAreFreshSeconds(info: OAuthInfo, nowMs: int) {
    info.expiry * 1000 > nowMs
  }

  /** `isFresh` as written. */
  function IsFresh(s: AuthenticationState, nowMs: int): (valid: bool)
    ensures !s.Authenticated? ==> !valid
    ensures s.Authenticated? ==>
              (valid <==>
                 (s.awsConfig.expirationMs.None? || s.awsConfig.expirationMs.value > nowMs)
                 && s.oauthInfo.expiry > nowMs)
  {
    s.Authenticated? && AwsCredsAreFresh(s.awsConfig, nowMs) && OauthCredsAreFresh(s.oauthInfo, nowMs)
  }

  /** `isFresh` with the OAuth expiry read in seconds, consistent with the refresh delay. */
  function IsFreshCorrected(s: AuthenticationState, nowMs: int): (valid: bool)
    ensures !s.Authenticated? ==> !valid
    ensures s.Authenticated? ==>
              (valid <==>
                 (s.awsConfig.expirationMs.None? || s.awsConfig.expirationMs.value > nowMs)
                 && s.oauthInfo.expiry * 1000 > nowMs)
  {
    s.Authenticated? && AwsCredsAreFresh(s.awsConfig, nowMs) && OauthCredsAreFreshSeconds(s.oauthInfo, nowMs)
  }

  /**
    One evaluation of `scheduleTokenRefresh`: arm a timer for the refresh
    token of an `authenticated` state, refresh an expired one at once, and
    otherwise do nothing.
   */
  function ScheduleTokenRefresh(s: AuthenticationState, nowMs: int): (a: RefreshAction)
    ensures a.ArmTimer? <==> s.Authenticated?
    ensures a.RefreshNow? <==> s.AuthenticationExpired?
    ensures a.Dormant? <==> s.Unauthenticated? || s.AuthenticationFailed?
    ensures !a.Dormant? ==> a.refreshToken == s.oauthInfo.refreshToken
    ensures a.ArmTimer? ==> nowMs + a.delayMs == (s.oauthInfo.expiry - ExpiryBufferSeconds) * 1000
  {
    match s
    case Authenticated(info, _) =>
      ArmTimer(info.expiry * 1000 - ExpiryBufferSeconds * 1000 - nowMs, info.refreshToken)
    case AuthenticationExpired(info) => RefreshNow(info.refreshToken)
    case _ => Dormant
  }

  /**
    One turn of the refresh loop: the timer callback (or the immediate
    refresh of an expired state) refreshes with `refreshToken` and then
    schedules again, whatever the refresh did, against the state it left.
   */
  function RefreshTick(s: AuthenticationState, refreshToken: string, p: Providers, nowMs: int)
    : (r: (AuthenticationState, RefreshAction))
    ensures r.0 == RefreshAndUpdate(s, refreshToken, p)
    ensures r.1.ArmTimer? <==> r.0.Authenticated?
    ensures r.1.Dormant? <==> r.0.Unauthenticated? || r.0.AuthenticationFailed?
    ensures r.1.ArmTimer? ==> nowMs + r.1.delayMs == (r.0.oauthInfo.expiry - ExpiryBufferSeconds) * 1000
    ensures !r.1.Dormant? ==> r.1.refreshToken == r.0.oauthInfo.refreshToken
  {
    var s' := RefreshAndUpdate(s, refreshToken, p);
    (s', ScheduleTokenRefresh(s', nowMs))
  }

  /** `initialise`: authenticate, then start the refresh loop. */
  function Initialise(p: Providers, nowMs: int): (r: (AuthenticationState, RefreshAction))
    ensures r.0 == Authenticate(p)
    ensures r.1.ArmTimer? <==> r.0.Authenticated?
    ensures r.1.Dormant? <==> r.0.AuthenticationFailed?
    ensures r.1.ArmTimer? ==> r.1.refreshToken == r.0.oauthInfo.refreshToken
                              && nowMs + r.1.delayMs == (r.0.oauthInfo.expiry - ExpiryBufferSeconds) * 1000
  {
    var s := Authenticate(p);
    (s, ScheduleTokenRefresh(s, nowMs))
  }

  /**
    `withAuthentication`: authenticate unless the state is `authenticated`,
    then hand the access token and AWS configuration to `callback`.
   */
  function WithAuthentication<R>(s: AuthenticationState, p: Providers,
                                 callback: (string, AwsConfig) -> Outcome<R>): (r: Access<R>)
    ensures s.Authenticated? ==> r.state == s
    ensures !s.Authenticated? ==> r.state == Authenticate(p)
    ensures r.state.Authenticated? || r.state.AuthenticationFailed?
    ensures r.state.Authenticated? ==>
              match callback(r.state.oauthInfo.accessToken, r.state.awsConfig)
              case Ok(v) => r.result == Ok(v)
              case Err(e) => r.result == Err(ApiCallFailedPrefix + e)
    ensures r.state.AuthenticationFailed? ==>
              r.result == Err(AuthenticationFailurePrefix + r.state.error)
    ensures r.result != Err(InternalErrorMessage)
  {
    var s' := if s.Authenticated? then s else Authenticate(p);
    if s'.Authenticated? then
      match callback(s'.oauthInfo.accessToken, s'.awsConfig)
      case Ok(v) => Access(s', Ok(v))
      case Err(e) =>
        assert (ApiCallFailedPrefix + e)[0] != InternalErrorMessage[0];
        Access(s', Err(ApiCallFailedPrefix + e))
    else if s'.AuthenticationFailed? then
      Access(s', Err(AuthenticationFailurePrefix + s'.error))
    else
      Access(s', Err(InternalErrorMessage))
  }
}
