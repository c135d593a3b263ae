/**
  The data held by the machine-to-machine authentication strategy: the
  tokens the identity provider hands out, the federated AWS configuration,
  and the tagged authentication state that the strategy replaces as a whole
  on every write.
 */
module AuthState {
  import opened Results

  /**
    Tokens returned by a client-credentials exchange or a token refresh.
    `expiry` is the provider's expiry instant; the strategy reads it as
    seconds when it computes the refresh delay and compares it with
    milliseconds when it checks freshness (see M2MStrategy).
   */
  datatype OAuthInfo = OAuthInfo(accessToken: string, refreshToken: string, expiry: int)

  /**
    The federated AWS configuration. Only the credentials' expiration is
    observed by the strategy: absent when the credentials are not federated
    (they never expire), otherwise an instant in milliseconds since the epoch.
   */
  datatype AwsConfig = AwsConfig(expirationMs: Option<int>)

  /** The strategy's single state value. */
  datatype AuthenticationState =
    | Unauthenticated
    | Authenticated(oauthInfo: OAuthInfo, awsConfig: AwsConfig)
    | AuthenticationExpired(oauthInfo: OAuthInfo)
    | AuthenticationFailed(error: string)
}
