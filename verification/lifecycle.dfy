/**
  Sequential runs of the strategy. A run starts in `unauthenticated` (the
  field initialiser) and applies the operations that write the state, one
  after another, each with the answers its external calls gave.
 */
module Lifecycle {
  import opened Results
  import opened AuthState
  import opened M2MStrategy

  /** One state-writing operation, with the answers of its external calls. */
  datatype Event =
    | Initialised(providers: Providers)
    | TimerFired(refreshToken: string, providers: Providers)
    | Accessed(providers: Providers, callback: (string, AwsConfig) -> Outcome<()>)

  /**
    The event obtained `info` from the provider it consults (the token refresh
    for a timer, client credentials otherwise) and federated its access token
    into `config`.
   */
  predicate Issued(e: Event, info: OAuthInfo, config: AwsConfig) {
    && e.providers.federate(info.accessToken) == Ok(config)
    && (if e.TimerFired? then e.providers.tokenRefresh(e.refreshToken) == Ok(info)
        else e.providers.clientCredentials == Ok(info))
  }

  /** The state after one operation. */
  function Step(s: AuthenticationState, e: Event): (s': AuthenticationState)
    ensures s'.AuthenticationExpired? ==> s' == s
    ensures s'.Unauthenticated? ==> s' == s && e.TimerFired?
    ensures s'.Authenticated? && s' != s ==> Issued(e, s'.oauthInfo, s'.awsConfig)
    ensures !e.TimerFired? ==> s'.Authenticated? || s'.AuthenticationFailed?
  {
    match e
    case Initialised(p) => Authenticate(p)
    case TimerFired(token, p) => RefreshAndUpdate(s, token, p)
    case Accessed(p, callback) => WithAuthentication(s, p, callback).state
  }

  /** The state after the operations of `events`, in order, starting from `s`. */
  function Run(s: AuthenticationState, events: seq<Event>): AuthenticationState
    decreases |events|
  {
    if |events| == 0 then s else Step(Run(s, events[..|events| - 1]), events[|events| - 1])
  }

  /** A state some sequential run from `unauthenticated` can leave behind. */
  ghost predicate Reachable(s: AuthenticationState) {
    exists events :: Run(Unauthenticated, events) == s
  }

  /** No operation produces `authentication-expired`: a run that does not start there never reaches it. */
  lemma {:induction false} NeverExpired(s: AuthenticationState, events: seq<Event>)
    requires !s.AuthenticationExpired?
    ensures !Run(s, events).AuthenticationExpired?
    decreases |events|
  {
    if |events| > 0 {
      NeverExpired(s, events[..|events| - 1]);
    }
  }

  /**
    Once an operation other than a timer refresh has run, the state is
    never `unauthenticated` again.
   */
  lemma {:induction false} AuthenticationAttemptIsFinal(s: AuthenticationState, events: seq<Event>, i: nat)
    requires i < |events| && !events[i].TimerFired?
    ensures !Run(s, events).Unauthenticated?
    decreases |events|
  {
    if i < |events| - 1 {
      AuthenticationAttemptIsFinal(s, events[..|events| - 1], i);
    }
  }

  /**
    Every state a run from `unauthenticated` reaches is `unauthenticated`,
    `authenticated` or `authentication-failed`.
   */
  lemma ReachableStates(s: AuthenticationState)
    requires Reachable(s)
    ensures s.Unauthenticated? || s.Authenticated? || s.AuthenticationFailed?
  {
    var events :| Run(Unauthenticated, events) == s;
    NeverExpired(Unauthenticated, events);
  }

  /**
    `authenticated` is only entered with a complete pair: if a run that did
    not start authenticated ends authenticated, then one of its operations
    obtained exactly those tokens and federated their access token into
    exactly that configuration.
   */
  lemma {:induction false} AuthenticatedWasIssued(s: AuthenticationState, events: seq<Event>)
    requires !s.Authenticated?
    ensures var t := Run(s, events);
            t.Authenticated? ==>
              exists i :: 0 <= i < |events| && Issued(events[i], t.oauthInfo, t.awsConfig)
    decreases |events|
  {
    var t := Run(s, events);
    if |events| > 0 && t.Authenticated? {
      var prefix := events[..|events| - 1];
      var last := |events| - 1;
      if t == Run(s, prefix) {
        AuthenticatedWasIssued(s, prefix);
        var i :| 0 <= i < |prefix| && Issued(prefix[i], t.oauthInfo, t.awsConfig);
        assert events[i] == prefix[i];
      } else {
        assert Issued(events[last], t.oauthInfo, t.awsConfig);
      }
    }
  }
}
