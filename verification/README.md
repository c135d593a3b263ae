# Machine-to-machine credential lifecycle and index-definition validator

This project models two parts of the stashjs client library in Dafny.

**The machine-to-machine authentication strategy** (`Auth0Machine2MachineStrategy`). It holds one
`AuthenticationState`: `unauthenticated`, `authenticated{oauthInfo, awsConfig}`,
`authentication-expired{oauthInfo}` or `authentication-failed{error}`. Every write replaces the whole value.
Each operation is a pure function of the current state and of the answers its external calls gave:

- `Providers` bundles those answers: the client-credentials exchange, the refresh exchange (a function of
  the refresh token) and AWS federation (a function of the access token).
- Errors arrive already described, so `describeError` is the identity on them.
- The clock is a parameter `nowMs`, in milliseconds, as `Date.getTime()` reports it.

The pieces:

- `AuthState` holds the data.
- `M2MStrategy` holds the operations: `authenticate`, `performTokenRefreshAndUpdateState`, `isFresh`,
  one evaluation of `scheduleTokenRefresh` (the action it picks and the delay it computes), one turn of
  the refresh loop, `initialise` and `withAuthentication`.
- `StrategyProperties` relates several calls to each other.
- `Lifecycle` folds sequences of state-writing operations into runs from `unauthenticated` and proves
  the state machine's invariants.

**The collection-schema index validator**, as its tests pin it down. Its implementation file is not part
of this model.

- `CollectionSchema` holds JSON values, the three index kinds (`exact`, `range`, `match`), their decoders
  and `parseIndexDefinition`.
- `IndexEncoding` gives every definition a canonical JSON form and proves that the decoders accept it
  back unchanged.
- `SchemaTypecheck` is the typechecker: `match` works on `string`; `range` works on
  `number, bigint, date, boolean`. The types `exact` works on are a parameter, because nothing fixes
  them.
- `MismatchMessages` and `SchemaExamples` state the tests' concrete inputs and exact error messages as
  lemmas.

Time units follow the code. The refresh delay reads `expiry` as seconds (`expiry * 1000`), while
`isFresh` compares `expiry` directly with milliseconds. `IsFresh` reproduces that literally; see
Findings.

One might expect a successful refresh in `authentication-expired` to restore `authenticated`. The
code, however, only keeps refreshed tokens when the state is
`authenticated` (src/auth/auth0-machine-2-machine-strategy.ts:84). In `authentication-expired`, then, a successful refresh is discarded, the
state stays expired and the loop refreshes again at once. The model follows the code
(`StrategyProperties.ExpiredRefreshRepeats`). No operation ever enters `authentication-expired`
(`Lifecycle.NeverExpired`).

## Model

| member | source | states |
|---|---|---|
| M2MStrategy.Authenticate | src/auth/auth0-machine-2-machine-strategy.ts:99-119 | ends `authenticated` or `authentication-failed`, whatever the prior state; `authenticated` exactly when the exchange and the federation of its access token both succeed, holding exactly those tokens and that configuration; exchange failure gives "Oauth failure: " + cause, federation failure "Token federation failure: " + cause |
| M2MStrategy.RefreshAndUpdate | src/auth/auth0-machine-2-machine-strategy.ts:76-97 | refresh failure gives `authentication-failed` with the bare cause; a successful refresh is discarded unless the state is `authenticated`; if it is, the result is the new tokens with their federated configuration, or the bare federation error; never enters `authentication-expired` |
| M2MStrategy.IsFresh | src/auth/auth0-machine-2-machine-strategy.ts:22-35 | false outside `authenticated`; inside it, true iff the AWS expiration is absent or after now, and `expiry` (compared with milliseconds, as written) is after now |
| M2MStrategy.IsFreshCorrected | src/auth/auth0-machine-2-machine-strategy.ts:27-34 | the same conjunction with `expiry` read as seconds, the unit the refresh delay uses |
| M2MStrategy.ScheduleTokenRefresh | src/auth/auth0-machine-2-machine-strategy.ts:55-74 | arms a timer iff `authenticated`, refreshes at once iff `authentication-expired`, stays dormant iff `unauthenticated` or `authentication-failed`; uses the state's refresh token; the timer fires at (expiry - 20 s) in milliseconds, whenever it is armed |
| M2MStrategy.RefreshTick | src/auth/auth0-machine-2-machine-strategy.ts:58-72 | one turn of the loop refreshes, then re-arms the timer exactly when the refresh left `authenticated`, for 20 s before the new expiry, and goes dormant exactly when it left `unauthenticated` or `authentication-failed`; the next timer or immediate refresh carries the refresh token of the state the refresh left |
| M2MStrategy.Initialise | src/auth/auth0-machine-2-machine-strategy.ts:17-20 | after authenticating, the refresh timer is armed exactly when authentication succeeded, carrying the new refresh token and firing 20 s before the new expiry; the loop is dormant exactly when authentication failed |
| M2MStrategy.WithAuthentication | src/auth/auth0-machine-2-machine-strategy.ts:37-53 | authenticates only when not `authenticated`; the callback gets the access token and AWS configuration, its failure becomes "API call failed: " + cause and leaves the state alone; a failed state rejects with "Authentication failure: " + error; the "Internal error: unreachable state" rejection never happens |
| StrategyProperties.AuthenticateFailureNamesStage | src/auth/auth0-machine-2-machine-strategy.ts:113-118 | an `authenticate` failure starts with "Oauth failure: " iff the exchange failed, and with "Token federation failure: " iff the exchange succeeded |
| StrategyProperties.FreshnessDecays | src/auth/auth0-machine-2-machine-strategy.ts:27-34 | credentials fresh at an instant were fresh at every earlier instant, for both freshness checks |
| StrategyProperties.RefreshFiresBufferEarly | src/auth/auth0-machine-2-machine-strategy.ts:64 | with a token valid for another 100 s, the timer is armed for 80 000 ms |
| StrategyProperties.IsFreshStaleWhenRefreshFires | src/auth/auth0-machine-2-machine-strategy.ts:32 | as written, `isFresh` is false at the instant the refresh timer fires, for every expiry of 21 or more |
| StrategyProperties.IsFreshRejectsNewToken | src/auth/auth0-machine-2-machine-strategy.ts:27-34 | a token valid for another hour is stale by `isFresh` and fresh by the corrected check |
| StrategyProperties.IsFreshCorrectedWhenRefreshFires | src/auth/auth0-machine-2-machine-strategy.ts:55-64 | with `expiry` read as seconds, the OAuth tokens are still fresh when the refresh timer fires |
| StrategyProperties.FailedRefreshGoesDormant | src/auth/auth0-machine-2-machine-strategy.ts:58-72 | a failed refresh stores the bare failure and the loop arms nothing |
| StrategyProperties.RenewedTokenRearmsTimer | src/auth/auth0-machine-2-machine-strategy.ts:58-64 | a successful refresh while `authenticated` installs the new tokens and re-arms the timer against the new expiry |
| StrategyProperties.ExpiredRefreshRepeats | src/auth/auth0-machine-2-machine-strategy.ts:66-72 | in `authentication-expired` a successful refresh leaves the state expired, and the loop refreshes again at once |
| StrategyProperties.AccessAuthenticatesFirst | src/auth/auth0-machine-2-machine-strategy.ts:38-44 | from `unauthenticated`, `withAuthentication` authenticates once, then runs the callback with the new access token |
| StrategyProperties.FederationFailureSurfacesOnAccess | src/auth/auth0-machine-2-machine-strategy.ts:48-49 | after a federation failure, an access whose own authentication fails the same way rejects with "Authentication failure: Token federation failure: " + cause |
| StrategyProperties.FailedStateRetriedOnAccess | src/auth/auth0-machine-2-machine-strategy.ts:38-40 | `authentication-failed` is not sticky: an access authenticates again |
| StrategyProperties.CallbackFailureWrapped | src/auth/auth0-machine-2-machine-strategy.ts:45-46 | a callback failing with "boom" rejects with exactly "API call failed: boom" |
| StrategyProperties.NewTokenReachesCallback | src/auth/auth0-machine-2-machine-strategy.ts:17-44 | a token "tok1" valid for an hour with non-expiring AWS credentials leaves the strategy authenticated and fresh by the corrected check, and the callback receives "tok1" |
| Lifecycle.Step | src/auth/auth0-machine-2-machine-strategy.ts:37-119 | no operation enters `authentication-expired` or returns to `unauthenticated`; a newly written `authenticated` state holds the tokens that operation obtained from the provider it consults (the token refresh for a timer, client credentials otherwise), with their federated configuration; every operation but a timer refresh leaves `authenticated` or `authentication-failed` |
| Lifecycle.NeverExpired | src/auth/auth0-machine-2-machine-strategy.ts:13-119 | a run not starting in `authentication-expired` never reaches it |
| Lifecycle.AuthenticationAttemptIsFinal | src/auth/auth0-machine-2-machine-strategy.ts:17-53 | once `initialise` or `withAuthentication` has run, the state is never `unauthenticated` again |
| Lifecycle.ReachableStates | src/auth/auth0-machine-2-machine-strategy.ts:13 | every state reachable from `unauthenticated` is `unauthenticated`, `authenticated` or `authentication-failed` |
| Lifecycle.AuthenticatedWasIssued | src/auth/auth0-machine-2-machine-strategy.ts:84-112 | a run ending `authenticated` contains an operation that obtained exactly those tokens from the provider it consults and federated them into exactly that configuration |
| CollectionSchema.DecodeExact | src/parsers/collection-schema-parser.test.ts:5-24 | accepts exactly objects whose kind is "exact" and whose field is a string |
| CollectionSchema.DecodeRange | src/parsers/collection-schema-parser.test.ts:27-46 | accepts exactly objects whose kind is "range" and whose field is a string |
| CollectionSchema.DecodeMatch | src/parsers/collection-schema-parser.test.ts:49-79 | accepts exactly kind "match" whose `fields` is an array of strings, `tokenFilters` an array of token filters and `tokenizer` a tokenizer, and decodes to those three; `fields` given as a string is rejected |
| CollectionSchema.DecodeTokenizer | src/parsers/collection-schema-parser.test.ts:58 | accepts exactly a tokenizer whose kind is "standard" |
| CollectionSchema.ParseFieldType | src/parsers/collection-schema-parser.test.ts:108-112 | a type name is accepted exactly when it is the name of one of the five field types, and denotes that type |
| CollectionSchema.DecodeIndex | src/parsers/collection-schema-parser.test.ts:82-101 | accepts what one of the three decoders accepts, and decodes to what the decoder for the object's kind returns; the result's kind is the object's kind |
| CollectionSchema.ParseIndexes | src/parsers/collection-schema-parser.test.ts:82-101 | succeeds iff every entry of the object decodes, keeping names and order |
| CollectionSchema.DecodeStrings | src/parsers/collection-schema-parser.test.ts:53 | accepts exactly arrays of strings, element by element |
| CollectionSchema.DecodeTokenFilter | src/parsers/collection-schema-parser.test.ts:54-57 | accepts exactly kind "downcase", or kind "ngram" with a numeric `tokenLength`, which an ngram filter keeps |
| CollectionSchema.DecodeTokenFilters | src/parsers/collection-schema-parser.test.ts:54-57 | accepts exactly arrays of token filters, element by element |
| IndexEncoding.IndexRoundTrip | src/parsers/collection-schema-parser.test.ts:5-79 | every index definition decodes back unchanged from its canonical JSON form |
| IndexEncoding.IndexesRoundTrip | src/parsers/collection-schema-parser.test.ts:82-101 | every `indexes` object built from definitions parses back to them |
| SchemaTypecheck.CheckFields | src/parsers/collection-schema-parser.test.ts:134-181 | succeeds iff every field the index reads is declared with a type its kind works on; an error names a real offending field |
| SchemaTypecheck.CheckIndexes | src/parsers/collection-schema-parser.test.ts:104-181 | succeeds iff the typing rule holds for every index and field; an error blames some index it really concerns |
| SchemaTypecheck.Typecheck | src/parsers/collection-schema-parser.test.ts:104-181 | succeeds iff the schema decodes and is well typed, returning the decoded schema; a failure of a decoded schema blames a real offending index |
| SchemaTypecheck.DecodeSchema | src/parsers/collection-schema-parser.test.ts:106-127 | a schema decodes exactly when its `type` object declares only known types and its `indexes` object parses, and decodes to those declarations and indexes |
| SchemaTypecheck.MismatchMessage | src/parsers/collection-schema-parser.test.ts:159 | a mismatch message opens with the index kind and the allowed type names in order, and closes with the offending field and its declared type, each quoted |
| SchemaTypecheck.ParseTypeEntries | src/parsers/collection-schema-parser.test.ts:108-112 | succeeds iff every declared type names a field type, keeping names and order |
| SchemaTypecheck.TypeEntriesRoundTrip | src/parsers/collection-schema-parser.test.ts:108-112 | a `type` object built from declarations parses back to them |
| SchemaExamples.ExactIndexExamples | src/parsers/collection-schema-parser.test.ts:5-24 | `{kind: "exact", field: "title"}` decodes; kind "garbage" does not |
| SchemaExamples.RangeIndexExamples | src/parsers/collection-schema-parser.test.ts:27-46 | `{kind: "range", field: "title"}` decodes; kind "garbage" does not |
| SchemaExamples.MatchIndexAccepted | src/parsers/collection-schema-parser.test.ts:49-63 | the match index over ["title"] with downcase and 3-gram filters and the standard tokenizer decodes |
| SchemaExamples.MatchIndexFieldsMustBeArray | src/parsers/collection-schema-parser.test.ts:65-79 | the same index with `fields: "title"` is rejected |
| SchemaExamples.MixedIndexesParse | src/parsers/collection-schema-parser.test.ts:82-101 | the object mixing exact, range and match entries parses to the four definitions |
| SchemaExamples.MovieSchemaTypechecks | src/parsers/collection-schema-parser.test.ts:104-131 | match on a string field and range on number fields typecheck, whenever exact indexes accept strings |
| SchemaExamples.MatchOnNumberRejected | src/parsers/collection-schema-parser.test.ts:134-160 | a match index over a number field fails with exactly the expected message |
| SchemaExamples.RangeOnStringRejected | src/parsers/collection-schema-parser.test.ts:163-181 | a range index over a string field fails with exactly the expected message |
| MismatchMessages.MatchMismatchMessage | src/parsers/collection-schema-parser.test.ts:159 | the match mismatch renders as the message the test expects |
| MismatchMessages.RangeMismatchMessage | src/parsers/collection-schema-parser.test.ts:180 | the range mismatch lists "number, bigint, date, boolean" in that order |

## Findings

| source | as written | input that shows it | evidently intended | confidence | as-written member | corrected member |
|---|---|---|---|---|---|---|
| src/auth/auth0-machine-2-machine-strategy.ts:32 | `oauthInfo.expiry > now` compares `expiry` with milliseconds, while line 64 reads the same `expiry` as seconds | expiry 1700003600 (seconds), now 1700000000000 ms: a token valid for another hour is reported stale; for every expiry of 21 or more it is stale at the instant its refresh fires | `expiry * 1000 > now` | medium, not executed: the unit of `expiry` is set in oauth-utils, which is not part of this model | StrategyProperties.IsFreshStaleWhenRefreshFires | StrategyProperties.IsFreshCorrectedWhenRefreshFires |

## Left out

- Timers: `setTimeout`, `timeout.unref()`, and what Node does with a negative or oversized delay are runtime behaviour. The model keeps only the chosen action and the computed delay.
- The self-rescheduling recursion of `scheduleTokenRefresh` is modelled one turn at a time (`M2MStrategy.RefreshTick`), not as an unbounded loop.
- Concurrency: asynchronous interleaving is not modelled. This includes the gap between the refresh answering and the state check, and overlapping `withAuthentication` calls. Every run is sequential, with the answers of the external calls passed in.
- The external calls (`stashOauth.authenticateViaClientCredentials`, `stashOauth.performTokenRefresh`, `awsConfig`) are modelled as answers in `Providers`. The host, client id, secret and audience they receive are fixed by the profile, and the model does not carry them.
- `describeError` is not modelled: failures carry the described string.
- `AwsConfig` keeps only the credentials' optional expiration. The `credentials!` assertion failing on a configuration without credentials is not modelled, and neither are invalid dates.
- The profile and configuration types (`StashProfileAuth0Machine2Machine`, `ClientCredentials`) are not modelled.
- SchemaTypecheck.Typecheck: the field types an `exact` index works on are a parameter (`exactTypes`), because nothing fixes them. The examples assume only that strings are among them.
- SchemaTypecheck.Typecheck: the implementation is not part of this model. Its choices here are not fixed by anything: the `type` object is decoded before `indexes`, the first offending index and field is reported, and an undeclared field is an error. The errors for malformed input and undeclared fields carry no message.
- CollectionSchema.DecodeTokenFilters: only the `downcase` and `ngram` filters and the `standard` tokenizer are accepted, because these are the only ones the tests show. Their tokenising semantics are not modelled.
- CollectionSchema.ParseFieldType: only the five type names the typing rule mentions are accepted.
- JSON numbers are integers, so `tokenLength` is an integer. The decoders ignore object properties they do not read.
