/** Properties of the strategy's transitions that relate several calls or pin concrete scenarios. */
module StrategyProperties {
  import opened Results
  import opened AuthState
  import opened M2MStrategy

  /**
    The prefix of an `authenticate` failure tells which call failed: it
    starts with the OAuth prefix exactly when the exchange failed, and with
    the federation prefix exactly when the exchange succeeded.
   */
  lemma AuthenticateFailureNamesStage(p: Providers)
    requires Authenticate(p).AuthenticationFailed?
    ensures OauthFailurePrefix <= Authenticate(p).error <==> p.clientCredentials.Err?
    ensures FederationFailurePrefix <= Authenticate(p).error <==> p.clientCredentials.Ok?
  {
    var e := Authenticate(p).error;
    if p.clientCredentials.Err? {
      assert e[0] == 'O' != FederationFailurePrefix[0];
    } else {
      assert e[0] == 'T' != OauthFailurePrefix[0];
    }
  }

  /** Freshness only decays: credentials fresh at some instant were fresh at every earlier one. */
  lemma FreshnessDecays(s: AuthenticationState, earlierMs: int, laterMs: int)
    requires earlierMs <= laterMs
    ensures IsFresh(s, laterMs) ==> IsFresh(s, earlierMs)
    ensures IsFreshCorrected(s, laterMs) ==> IsFreshCorrected(s, earlierMs)
  {
  }

  /**
    With the clock in whole seconds and a token valid for another 100
    seconds, the refresh timer is armed for 80 seconds.
   */
  lemma RefreshFiresBufferEarly(info: OAuthInfo, config: AwsConfig, nowSeconds: int)
    requires info.expiry == nowSeconds + 100
    ensures ScheduleTokenRefresh(Authenticated(info, config), nowSeconds * 1000) == ArmTimer(80_000, info.refreshToken)
  {
  }

  /**
    As written, `isFresh` already reports the credentials stale at the
    instant the refresh timer fires, for any expiry of 21 or more: the
    timer reads `expiry` as seconds and `isFresh` as milliseconds.
   */
  lemma IsFreshStaleWhenRefreshFires(s: AuthenticationState, nowMs: int)
    requires s.Authenticated? && s.oauthInfo.expiry >= 21
    ensures var a := ScheduleTokenRefresh(s, nowMs);
            a.ArmTimer? && !IsFresh(s, nowMs + a.delayMs)
  {
  }

  /**
    The same discrepancy on a concrete token: issued at second 1700000000
    and valid for an hour, it is reported stale at that very instant.
   */
  lemma IsFreshRejectsNewToken()
    ensures var s := Authenticated(OAuthInfo("tok1", "r1", 1_700_003_600), AwsConfig(None));
            !IsFresh(s, 1_700_000_000_000) && IsFreshCorrected(s, 1_700_000_000_000)
  {
  }

  /**
    With the expiry read as seconds, the OAuth tokens are still fresh when
    the refresh timer fires: the buffer is strictly positive.
   */
  lemma IsFreshCorrectedWhenRefreshFires(s: AuthenticationState, nowMs: int)
    requires s.Authenticated?
    requires AwsCredsAreFresh(s.awsConfig, s.oauthInfo.expiry * 1000 - ExpiryBufferSeconds * 1000)
    ensures var a := ScheduleTokenRefresh(s, nowMs);
            a.ArmTimer? && IsFreshCorrected(s, nowMs + a.delayMs)
  {
  }

  /** A failed refresh stores the failure and the loop goes dormant. */
  lemma FailedRefreshGoesDormant(s: AuthenticationState, refreshToken: string, p: Providers, nowMs: int)
    requires p.tokenRefresh(refreshToken).Err?
    ensures RefreshTick(s, refreshToken, p, nowMs) ==
              (AuthenticationFailed(p.tokenRefresh(refreshToken).error), Dormant)
  {
  }

  /**
    A refresh that succeeds in the `authenticated` state installs the new
    tokens and re-arms the timer against the new expiry.
   */
  lemma RenewedTokenRearmsTimer(s: AuthenticationState, refreshToken: string, p: Providers, nowMs: int)
    requires s.Authenticated?
    requires p.tokenRefresh(refreshToken).Ok?
    requires p.federate(p.tokenRefresh(refreshToken).value.accessToken).Ok?
    ensures var info := p.tokenRefresh(refreshToken).value;
            var r := RefreshTick(s, refreshToken, p, nowMs);
            r.0 == Authenticated(info, p.federate(info.accessToken).value)
            && r.1.ArmTimer? && r.1.refreshToken == info.refreshToken
            && nowMs + r.1.delayMs == (info.expiry - ExpiryBufferSeconds) * 1000
  {
  }

  /**
    In the `authentication-expired` state a successful refresh is
    discarded: the state stays expired and the loop refreshes again at once.
   */
  lemma ExpiredRefreshRepeats(info: OAuthInfo, p: Providers, nowMs: int)
    requires p.tokenRefresh(info.refreshToken).Ok?
    ensures ScheduleTokenRefresh(AuthenticationExpired(info), nowMs) == RefreshNow(info.refreshToken)
    ensures RefreshTick(AuthenticationExpired(info), info.refreshToken, p, nowMs) ==
              (AuthenticationExpired(info), RefreshNow(info.refreshToken))
  {
  }

  /**
    From `unauthenticated`, `withAuthentication` authenticates once and,
    when that succeeds, runs the callback with the new access token.
   */
  lemma AccessAuthenticatesFirst<R>(p: Providers, callback: (string, AwsConfig) -> Outcome<R>)
    requires p.clientCredentials.Ok? && p.federate(p.clientCredentials.value.accessToken).Ok?
    requires callback(p.clientCredentials.value.accessToken,
                      p.federate(p.clientCredentials.value.accessToken).value).Ok?
    ensures var r := WithAuthentication(Unauthenticated, p, callback);
            var token := p.clientCredentials.value.accessToken;
            r.state == Authenticated(p.clientCredentials.value, p.federate(token).value)
            && r.result == callback(token, p.federate(token).value)
  {
  }

  /**
    A federation failure leaves `authentication-failed`; a later access
    whose own authentication fails the same way rejects with the
    authentication-failure prefix in front of the federation message.
   */
  lemma FederationFailureSurfacesOnAccess<R>(p: Providers, callback: (string, AwsConfig) -> Outcome<R>)
    requires p.clientCredentials.Ok? && p.federate(p.clientCredentials.value.accessToken).Err?
    ensures var e := p.federate(p.clientCredentials.value.accessToken).error;
            Authenticate(p) == AuthenticationFailed(FederationFailurePrefix + e)
            && WithAuthentication(Authenticate(p), p, callback).result ==
                 Err(AuthenticationFailurePrefix + FederationFailurePrefix + e)
  {
    var e := p.federate(p.clientCredentials.value.accessToken).error;
    assert AuthenticationFailurePrefix + (FederationFailurePrefix + e)
        == AuthenticationFailurePrefix + FederationFailurePrefix + e;
  }

  /**
    A failed state is not sticky for callers: `withAuthentication`
    authenticates again, whatever the providers answer this time.
   */
  lemma FailedStateRetriedOnAccess<R>(error: string, p: Providers, callback: (string, AwsConfig) -> Outcome<R>)
    ensures WithAuthentication(AuthenticationFailed(error), p, callback).state == Authenticate(p)
  {
  }

  /** A callback failing with "boom" makes `withAuthentication` reject with exactly "API call failed: boom". */
  lemma CallbackFailureWrapped(info: OAuthInfo, config: AwsConfig, p: Providers,
                               callback: (string, AwsConfig) -> Outcome<int>)
    requires callback(info.accessToken, config) == Err("boom")
    ensures WithAuthentication(Authenticated(info, config), p, callback) ==
              Access(Authenticated(info, config), Err("API call failed: boom"))
  {
    assert ApiCallFailedPrefix + "boom" == "API call failed: boom";
  }

  /**
    The end-to-end scenario: the exchange returns "tok1" valid for an hour,
    federation returns non-expiring credentials; the strategy is
    authenticated, the corrected freshness check holds, and the callback
    receives "tok1".
   */
  lemma NewTokenReachesCallback(p: Providers, nowSeconds: int, callback: (string, AwsConfig) -> Outcome<string>)
    requires p.clientCredentials == Ok(OAuthInfo("tok1", "r1", nowSeconds + 3600))
    requires p.federate("tok1") == Ok(AwsConfig(None))
    requires forall token, config :: callback(token, config) == Ok(token)
    ensures Initialise(p, nowSeconds * 1000).0 == Authenticated(OAuthInfo("tok1", "r1", nowSeconds + 3600), AwsConfig(None))
    ensures IsFreshCorrected(Initialise(p, nowSeconds * 1000).0, nowSeconds * 1000)
    ensures WithAuthentication(Initialise(p, nowSeconds * 1000).0, p, callback).result == Ok("tok1")
  {
  }
}
