# Proofs about the aoa OAuth library

A Dafny model of the stateful and protocol parts of the Go package `aoa`, with proofs of
what they promise. `dafny verify dfyconfig.toml` checks all of it.

| part | modules | Go files |
|---|---|---|
| Remote key cache with one refresh in flight | `KeyCache`, `KeyCacheProtocol`, `KeyCacheTheorems` | `jwks.go` |
| DPoP replay cache with lazy sweep | `ReplayCache`, `ReplayRuns` | `dpop_replay.go` |
| Request pipeline, its audit log, the target of a proof and whole runs | `Claims`, `TokenVerifier`, `Middleware`, `MiddlewareTheorems`, `MiddlewareReplies`, `Urls`, `ProofTarget`, `MiddlewareRuns` | `claims.go`, `verify.go`, `bearer.go`, `dpop.go` |
| Challenges, printed and parsed | `Challenge` | `bearer_errors.go` |
| Server nonces | `Nonce` | `dpop_nonce.go` |
| Exchanging client and its wire formats | `ExchangeForm`, `ExchangeWire`, `ExchangeClient` | `exchange.go`, `exchange_client_auth.go`, `exchange_errors.go` |
| Exchange validator and delegation chains | `ExchangeValidator`, `DelegationChain` | `exchange_validator.go` |

`Wrappers`, `Clock`, `Text` and `Json` hold what the parts share: optional values, 64-bit
durations, the string functions of the Go standard library, JSON documents.

How the model is built:

* Objects that the Go code changes in place are classes (`RemoteKeySource`, `MemReplay`,
  `BearerMiddleware`, `ResponseWriter`, `Values`, `Network`, `Validator`). Each method is
  proved to change the object as a function says, and the theorems are about that function
  over arbitrary inputs and runs.
* The key cache is a transition system over any number of callers. A step is one critical
  section, one fetch, one close or one receive, and any caller that is not blocked may go
  next. Its theorems hold at the end of every legal run.
* A call of the replay cache reads the clock before it takes the lock. A run is therefore a
  sequence of calls in lock order with arbitrary readings, and "in order" is a hypothesis
  of just those theorems that need it.
* Cryptography, JOSE parsing, the server, the key source, user callbacks and every clock
  reading are parameters. So is the URL parser, until `ProofTarget`, which uses a model of
  `url.Parse` that leaves only the form of authorities open.
* What is assumed of a parameter is a hypothesis of the theorems that need it: that the HMAC of
  the nonces has no collisions among the decimal numbers of 64-bit windows (`Nonce.GoodMac`),
  or just that it is never empty, and that the scheme and authority of a request are well-formed.

Where the code does not do what its documentation, or a first reading of it, says; each with
the exact condition for all inputs and an input at which it fails:

* `README.md:217` says that the middleware rejects replays. The `iat` window is closed and
  the recorded expiry is open at the same instant, so a proof is accepted again when both
  clocks read exactly `iat + DPoPProofMaxAge`, or when `Seen` reads the clock later than the
  window check. Condition: `MiddlewareRuns.AcceptedAgainIff`, and for readings in any order
  `MiddlewareRuns.AcceptedAgainAnyOrderIff`. Input: `MiddlewareRuns.ReplayAcceptedAtDeadline`.
* `README.md:217` and `README.md:363` say that a proof is bound to the URL of the request. The
  middleware puts that URL together from the decoded path and parses it again, so a request
  to `/a%3Fb` is taken for one to `/a`, and its own proof is refused. Condition:
  `ProofTarget.TargetIff` and `ProofTarget.HonestIff`. Input: `ProofTarget.QuestionMarkMismatch`.
* `dpop_replay.go:10-15` requires that a recorded and unexpired `jti` is always reported.
  When readings are out of lock order, a sweep with a later reading can drop an entry that
  an earlier reading would still find alive. Condition: `ReplayCache.ReplayedIff`. Input:
  `ReplayCache.OutOfOrderForgets`.
* `jwks.go:25-26` says that concurrent refreshes are single-flighted. At most one fetch is in
  flight at a time, but callers that missed together may still fetch one after the other.
  Condition: `KeyCacheTheorems.FetchStartsIff` for one step, `KeyCacheTheorems.SecondFetchIff`
  for whole runs. Input: `KeyCacheTheorems.MissersMayFetchTwice`. A caller may also be handed
  a fetch that had returned before its own check, if it was unpublished then. Condition:
  `KeyCacheTheorems.ReturnedBeforeCheckIff`. Input: `KeyCacheTheorems.FetchMayReturnBeforeCheck`.
* `dpop_nonce.go` accepts a nonce in its own and the next window. Division truncates toward
  zero, so for clocks before 1970 the window around zero is twice as wide. Condition:
  `Nonce.AcceptedIff`. Input: `Nonce.LongerBeforeEpoch`.
* `%q` in `bearer_errors.go:127` is Go syntax and not the quoted-string of RFC 9110. A
  challenge always parses, but a control character comes back as the letters of its escape.
  Condition: `Challenge.ChallengeRoundTrip`. Input: `Challenge.TabIsLost`.
* A `cnf` claim of the wrong type leaves the token unbound instead of failing. Condition:
  `Claims.ConfirmationIff`. Input: `Claims.MistypedConfirmation`.

## Model

| member | source | states |
|---|---|---|
| KeyCache.RemoteKeySource.constructor | jwks.go:39-41 | A new cache holds no set, no error and no fetch in flight |
| KeyCache.RemoteKeySource.Check | jwks.go:44-55 | The first critical section hits exactly for a set that has the kid and is at most ttl old, with the saturating difference of two readings |
| KeyCache.RemoteKeySource.Decide | jwks.go:61-79 | Of the callers that get here only one that finds no fetch in flight becomes leader, with a channel of its own; a joiner changes nothing |
| KeyCache.RemoteKeySource.Publish | jwks.go:83-90 | A publication clears fetching and sets lastErr to its outcome; the set and its time change only on success |
| KeyCache.RemoteKeySource.Reread | jwks.go:66-75 | A joiner gets the last error, wrapped, or else the set there is; never both |
| KeyCacheProtocol.InitialInv | jwks.go:27-37 | The invariant holds before any caller has moved, whatever set the cache starts with |
| KeyCacheProtocol.StepKeepsInv | jwks.go:43-97 | Each step of each caller keeps the invariant that ties fields, channels, publications and program counters together, also when a new leader starts between the unlock and the close |
| KeyCacheProtocol.RunKeepsInv | jwks.go:43-97 | So does every interleaving of any length |
| KeyCacheTheorems.SingleFlight | jwks.go:60-97 | At every moment at most one caller fetches; fetching is set exactly while it has not published, and names its channel; whoever waits waits for a closed channel or one that a leader is still to close |
| KeyCacheTheorems.WaiterHasLeader | jwks.go:62-91 | The leader of an open channel is still before its close |
| KeyCacheTheorems.NoDeadlock | jwks.go:43-97 | While a caller is unfinished, some caller can move |
| KeyCacheTheorems.RunsShrink | jwks.go:43-97 | Steps taken plus steps remaining never exceed the steps there were |
| KeyCacheTheorems.Terminates | jwks.go:43-97 | N callers take at most 5N steps, and a run that cannot go on is one that has answered everybody |
| KeyCacheTheorems.AtMostOneFetchEach | jwks.go:61-81 | No caller leads twice, so N callers make at most N fetches |
| KeyCacheTheorems.FetchStartsIff | jwks.go:61-79 | In every reachable state a move starts a fetch exactly if its caller has missed and nobody is between claiming a fetch and publishing it |
| KeyCacheTheorems.SecondFetchIff | jwks.go:43-97 | A run makes two or more fetches exactly if some caller that missed decides after a fetch has been published, with none in flight; otherwise all share one |
| KeyCacheTheorems.SettledIs | jwks.go:83-90 | After any sequence of publications the set and its time are those of the last success, and lastErr is that of the last publication |
| KeyCacheTheorems.CacheAgreement | jwks.go:83-90 | In every reachable state failed fetches have left set and fetchedAt alone, and no error means that the set is the one last published |
| KeyCacheTheorems.FastPathIsFresh | jwks.go:44-55 | An answer without refresh holds the kid and is the last good set at the check, at most ttl old there |
| KeyCacheTheorems.FreshKidIsServed | jwks.go:44-55 | Conversely a kid in a good set no older than ttl is served from it, without a fetch and without a change |
| KeyCacheTheorems.NoStaleLeak | jwks.go:60-97 | An answer through refresh is the set, or the error under its literal prefix for a joiner, of a fetch published after the caller's own check, never both; a leader gets its own fetch, and a joiner one no older than the fetch it joined |
| KeyCacheTheorems.JoinerSeesLatest | jwks.go:64-76 | A joiner that locks again gets the latest outcome published by then, error wrapped, which is that of the fetch it joined exactly if none has been published since |
| KeyCacheTheorems.ReturnedBeforeCheckIff | jwks.go:60-97 | The fetch behind an answer had returned before the caller's check exactly if it was in its leader's hands, unpublished, at that check; never for a leader |
| KeyCacheTheorems.FetchMayReturnBeforeCheck | jwks.go:81-91 | A run in which a joiner is served by a fetch that returned before its check |
| KeyCacheTheorems.MissersMayFetchTwice | jwks.go:44-79 | A run in which two callers that both missed make two fetches |
| ReplayCache.MemReplay.constructor | dpop_replay.go:23-25 | A new cache is empty and sweeps once a minute |
| ReplayCache.MemReplay.DeleteExpired | dpop_replay.go:51-53 | Key by key, exactly the entries that expire later than the reading are kept, unchanged |
| ReplayCache.MemReplay.Sweep | dpop_replay.go:47-55 | A sweep runs only when the interval has passed, and then moves lastSweep |
| ReplayCache.MemReplay.Seen | dpop_replay.go:34-44 | Sweep, test and recording in one critical section, as the step that the theorems are about |
| ReplayCache.SweepDueIff | dpop_replay.go:48-50 | A sweep is due exactly when the interval has passed, for all readings, although the difference of two of them saturates |
| ReplayCache.CallSweeps | dpop_replay.go:34-55 | A call within the interval of the last sweep drops nothing; one past it keeps exactly the unexpired entries; either way no entry but its own is written |
| ReplayCache.EntryRetained | dpop_replay.go:38-55 | No call with a reading before its expiry drops or overwrites an entry, and any such call with its jti is told of a replay |
| ReplayCache.Retained | dpop_replay.go:34-55 | A record stays as it was while all later readings, in any order, are before its expiry |
| ReplayCache.SingleWinner | dpop_replay.go:34-44 | Of any number of interleaved calls with one jti and readings before its expiry, exactly the first is told that it is new |
| ReplayCache.StoresAgree | dpop_replay.go:38-55 | With readings in order, no later reader can tell the swept map from one never swept or from the recorded history |
| ReplayCache.SweepTransparent | dpop_replay.go:38-55 | So every call answers as the unswept map, and as the contract of a replay cache on the history |
| ReplayCache.EntryUnlessSwept | dpop_replay.go:47-55 | With readings in any order, a record is in the map exactly if no sweep since read the clock at or past its expiry |
| ReplayCache.ReplayedIff | dpop_replay.go:34-44 | With readings in any order, a jti last recorded by an earlier call is reported exactly if it has not expired at this reading and no sweep in between went past it |
| ReplayCache.OutOfOrderForgets | dpop_replay.go:34-38 | In a cache that sweeps once a minute, at any time: three calls with readings out of order after which a recorded, unexpired jti is taken for new |
| ReplayCache.SinceSweepAlways | dpop_replay.go:47-55 | After any run in order the last sweep is less than one interval ago, and each entry was recorded since or outlived it |
| ReplayCache.SizeBound | dpop_replay.go:34-55 | Fed expiries at most a window ahead, the map holds only what was recorded within one sweep interval plus that window, and no more entries than such recordings |
| ReplayRuns.RecordKept | dpop_replay.go:34-55 | In a run of requests of which only some ask the cache, a record stays while the readings of those that do are before its expiry |
| ReplayRuns.NewTwice | dpop_replay.go:34-44 | A jti taken for new twice means a reading in between at or past the first expiry; with readings in order, the second one itself |
| ReplayRuns.RecordUnlessSwept | dpop_replay.go:47-55 | With readings in any order, a record that nobody has replaced is there exactly if no request since has swept at or past its expiry |
| ReplayRuns.NewAgainAnyOrderIff | dpop_replay.go:34-55 | With readings in any order, a jti last taken for new is taken for new again exactly if it is tested at or past its expiry, or a sweep in between was |
| ReplayRuns.NewAgainIff | dpop_replay.go:34-44 | With readings in order, and however often it has been refused in between, a jti is taken for new again exactly from its expiry on |
| Text.FieldsOfJoin | exchange.go:163-165 | Splitting joined scopes gives the words of each scope, in order, whatever the scopes are |
| Text.JoinFieldsRoundTrip | exchange.go:163-165 | A list of scopes survives joining and splitting exactly if every scope is a non-empty word without white space |
| Text.JoinAppend | exchange.go:164-164 | Scopes are joined by single spaces, without one at either end |
| Text.TrimIff | bearer.go:391-391 | A token is what is left of the header after all white space at either end, and nothing else, has been taken off |
| Text.SchemeWords | bearer.go:395-399 | The scheme names are the letters of Bearer and DPoP in either case, and no other words |
| Claims.NewClaims | claims.go:51-95 | Filling in the claims field by field gives the claims of which the next three rows tell each field |
| Claims.ClaimsFields | claims.go:53-70 | Subject, issuer, audience and each time are those of the same name in the token, and empty if the token has none |
| Claims.ClaimsScope | claims.go:71-87 | The scopes are the words of a string; or of an array all its strings, in their order, and nothing else; or none |
| Claims.ClaimsPayload | claims.go:88-93 | The payload is the decoded middle part of the token, and the token is bound to exactly the thumbprint that this payload confirms |
| Claims.PayloadPartIff | claims.go:88-92 | The payload is taken exactly from between the first and the second dot of the token |
| Claims.ConfirmationIff | claims.go:97-115 | A token counts as bound to a thumbprint exactly if its payload is an object whose cnf is an object whose jkt is that string |
| Claims.MistypedConfirmation | claims.go:103-110 | A token whose cnf is a string counts as unbound |
| Claims.ScopeFormsAgree | claims.go:71-87 | Scopes read the same from a joined string and from an array exactly if all of them are words |
| TokenVerifier.LookupsIff | verify.go:41-52 | The key source is asked exactly for a token that parses and names an allowed algorithm, once, for its kid; the two early errors occur exactly otherwise |
| TokenVerifier.VerifyIff | verify.go:41-62 | A token verifies with some claims exactly if its algorithm is allowed, its keys are found and the JOSE library accepts it with them |
| TokenVerifier.VerifyErrorIs | verify.go:41-60 | Which error it is tells the first check to fail, with the algorithm, the key source's error or the library's |
| Challenge.BuildChallenge | bearer_errors.go:100-125 | The header built parameter by parameter is the scheme and the parameter list that ParamsIff describes and ChallengeRoundTrip reads back |
| Challenge.ParamsIff | bearer_errors.go:105-123 | A challenge has exactly the parameters that its error calls for, under literal names and code texts, each at most once and in a fixed order |
| Challenge.ParamsHaveTokenKeys | bearer_errors.go:105-123 | Every parameter name is a token in the sense of section 5.6.2 of RFC 9110 |
| Challenge.ParseEscaped | bearer_errors.go:127 | Whatever the value and whatever follows, its quoted form ends where it should when read as a quoted-string of section 5.6.4 of RFC 9110 |
| Challenge.ValueSurvivesIff | bearer_errors.go:127 | A value is read back unchanged exactly if each of its characters prints as it stands, quotes and backslashes included |
| Challenge.UnquoteRoundTrip | bearer_errors.go:127 | Whatever the value, its quoted form read as a Go string literal is the value again |
| Challenge.ChallengeRoundTrip | bearer_errors.go:100-127 | Parsing a challenge by the grammar of section 11.2 of RFC 9110 gives its scheme and exactly its parameters in order; the values are equal exactly if all characters print as they stand |
| Challenge.TabIsLost | bearer_errors.go:127 | A challenge whose realm is a tab reads back with the realm t |
| Challenge.ChallengesParse | bearer_errors.go:80-95 | The last challenge sent parses to what the error says under its literal scheme; if both schemes are offered, the first is a Bearer challenge with realm and metadata alone, and there are no others |
| Challenge.ResponseWriter.Deny | bearer_errors.go:80-95 | The response gets the status and challenges of the error, a second Bearer challenge exactly when both schemes are offered, and a nonce header exactly when there is a nonce |
| Middleware.BearerMiddleware.FindMissing | bearer.go:490-498 | The loop collects the missing scopes in order |
| Middleware.BearerMiddleware.RecordReplay | dpop.go:108-121 | The jti is recorded until iat plus the maximum age; a backend failure rejects as an error and a replay under its own event kind |
| Middleware.BearerMiddleware.CheckDPoP | dpop.go:21-67 | The stage never touches the replay cache under Bearer or before all other checks on the proof have passed |
| Middleware.BearerMiddleware.Enforce | bearer.go:345-377 | The stage appends the events and changes the cache as the pipeline function says, in every mode |
| Middleware.BearerMiddleware.Serve | bearer.go:275-340 | The object's reply, new replay cache, new audit events and key lookups are those of the pipeline function that the theorems below are about; each rejection is spelt out by the rows of MiddlewareReplies |
| MiddlewareTheorems.ExtractIff | bearer.go:382-403 | A token is extracted exactly from a single header of the form scheme, space, token, for one of two scheme names in any case |
| MiddlewareTheorems.MissingIff | bearer.go:490-498 | A scope is missing exactly if it is required and not granted; none is missing exactly if all are granted |
| MiddlewareTheorems.AcceptedAudience | bearer.go:150-153 | A token's audience is accepted exactly if it names the resource, if that is set, or a listed audience |
| MiddlewareTheorems.AuthenticateIff | bearer.go:294-340 | The token stage passes exactly for an authentic token of an accepted audience, with all scopes and a content claim validator, under an enabled scheme |
| MiddlewareTheorems.CheckProofIff | dpop.go:48-105 | The ordered checks pass exactly for one proof header whose proof fits request, token, key, clock window and nonce |
| MiddlewareTheorems.EnforceIff | bearer.go:345-377 | The DPoP stage passes exactly under the rule for its mode and scheme |
| MiddlewareTheorems.ForwardsIff | bearer.go:275-377 | A request is forwarded with some claims exactly if it meets one declarative predicate without order or stages |
| MiddlewareTheorems.NoDowngrade | dpop.go:17-20 | In no mode is a token whose payload binds it to a key forwarded under Bearer |
| MiddlewareTheorems.ModesCompared | bearer.go:345-377 | Optional forwards exactly what Required forwards, plus what Off forwards without a DPoP header |
| MiddlewareTheorems.KeySourceIsolated | bearer.go:294-320 | A malformed token, a disallowed algorithm or a disabled scheme never reaches the key source |
| MiddlewareTheorems.ReplayIsolated | dpop.go:48-67 | A request that changes the replay cache has passed every other check under DPoP, and is forwarded exactly if the cache finds its proof new |
| MiddlewareTheorems.ForwardingIgnored | dpop.go:129-147 | Unless they are trusted, forwarding headers change nothing about reply, events, key lookups and replay cache |
| Urls.ParseRebuilt | dpop.go:146-153 | A URL put together from scheme, authority and decoded path parses back to that scheme and host, and to what is left of the path after a second cutting and decoding, or not at all |
| Urls.ReparsedIff | dpop.go:146-153 | A path comes through that unchanged exactly if it has no percent sign, question mark, hash or control character |
| ProofTarget.HonestIff | dpop.go:132-160 | The htu with the escaped path of the request always names its target, and is accepted exactly if the decoded path has none of these characters |
| ProofTarget.TargetIff | dpop.go:132-160 | For a well-formed scheme and authority, own or forwarded by a trusted proxy: an htu is accepted exactly if it names scheme, host and path of the request, for all htu, exactly if the decoded path has none of these characters; and for a path such as that of OPTIONS * exactly if nothing is accepted |
| ProofTarget.QuestionMarkMismatch | dpop.go:146-160 | For a request to /a%3Fb an htu that ends in /a is accepted and its own is not |
| MiddlewareTheorems.InsufficientScopeIff | bearer.go:327-331 | 403 with the required scopes is the answer exactly to an authentic token of the right audience that lacks a scope |
| MiddlewareTheorems.NonceChallengeIff | dpop.go:95-105 | use_dpop_nonce, with the current nonce, is the answer exactly to a proof that is good but for its nonce |
| MiddlewareTheorems.ReplayReportedIff | dpop.go:108-121 | A replay is reported exactly for a proof good in itself whose jti is recorded with an expiry ahead |
| MiddlewareTheorems.ErrorOutcomeIff | bearer.go:305-320 | The outcome error is audited exactly for a key source failure, or a replay backend failure on a good proof |
| MiddlewareTheorems.OneVerdict | bearer.go:275-376 | Each request yields one forward and one validating event, preceded by dpop_verified exactly under DPoP, or one challenge and one rejecting event with the same code; never both |
| MiddlewareReplies.MissingTokenReply | bearer.go:405-415 | Without a token the reply is 401 without a code, under DPoP with its algorithms unless DPoP is off, and offers Bearer as well exactly when DPoP is optional |
| MiddlewareReplies.DisabledSchemeReply | bearer.go:300-303 | A DPoP token with DPoP off gets a bare Bearer challenge and is not looked at |
| MiddlewareReplies.UnverifiedReply | bearer.go:305-320 | A token that cannot be verified gets 401 invalid_token, described as malformed exactly if its header cannot be read; the log names the first fault, and an error outcome exactly for the key source |
| MiddlewareReplies.UnfitTokenReply | bearer.go:322-338 | An authentic token is refused for its audience, then with 403 for its scopes, then by the claim validator, each with its literal code, description and logged reason |
| MiddlewareReplies.MissingInOrder | bearer.go:490-498 | The missing scopes of two lists are those of the first and then those of the second, so they keep their order |
| MiddlewareReplies.BearerReply | dpop.go:32-43 | A good token refused under Bearer is told that it needs a proof, with the algorithms, exactly if the mode or its binding demands one, else that the stray proof is invalid |
| MiddlewareReplies.ProofFault | dpop.go:48-67 | The first fault of a proof gives the logged reason, while the client gets the same 401 invalid_token for all; a stale nonce alone gets use_dpop_nonce with the current one |
| MiddlewareReplies.ClaimFault | dpop.go:71-92 | The claims of a proof are judged in a fixed order, with a literal reason for each |
| MiddlewareReplies.ProofReply | bearer.go:361-371 | A fault of a proof is what client and log are told, once, and the replay cache is left alone |
| MiddlewareReplies.ReplayReply | dpop.go:108-121 | A good proof that is not taken for new gets the same challenge; the log tells a failed backend, as an error, from a replay |
| MiddlewareTheorems.AuditConserved | bearer.go:436-458 | Over any run the log counts as many validating, rejecting and dpop_verified events as there were forwards, rejections and forwards under DPoP, and no others |
| MiddlewareRuns.PresentedIff | dpop.go:48-67 | A request presents a proof to the replay cache exactly if token and proof are good under DPoP |
| MiddlewareRuns.CacheAfterAsks | dpop.go:66-66 | Over any run the replay cache is what the calls of the proofs so presented make it |
| MiddlewareRuns.AcceptedTwice | dpop.go:81-84 | If a proof is accepted twice, the second window check read the clock at or before iat plus the maximum age, and some cache reading since the first was at or past it; with readings in order, the second one |
| MiddlewareRuns.AcceptedAgainAnyOrderIff | dpop_replay.go:34-55 | With readings in any order, a proof that was the last accepted with its jti, however often refused since, is accepted again exactly if the backend answers and the cache has tested or swept at or past its deadline |
| MiddlewareRuns.AcceptedAgainIff | dpop.go:109-109 | With readings in order, a proof that was the last accepted with its jti, however often refused since, is accepted again exactly if the backend answers and the cache reads the clock at or past that deadline |
| MiddlewareRuns.AcceptedAgainAtDeadline | dpop.go:82-82 | At the deadline itself an accepted proof is accepted a second time |
| MiddlewareRuns.ReplayAcceptedAtDeadline | dpop.go:82-82 | At any time and for any hash: a configuration, a bound token and two equal requests sixty seconds apart, both forwarded with one proof |
| MiddlewareRuns.ReplayCacheStaysSmall | dpop.go:107-121 | Fed by the middleware in order, the cache holds no more entries than first uses within one minute plus skew plus maximum age |
| MiddlewareRuns.RetryPassesNonce | dpop.go:95-105 | Whatever the HMAC, if it is never empty: a proof with the nonce of a use_dpop_nonce answer passes the nonce check for at least one window's length |
| Nonce.FormatIntInjective | dpop_nonce.go:40-45 | Different windows are written differently, so they get different nonces |
| Nonce.FormatIntReads | dpop_nonce.go:40-41 | A window number is written in decimal digits that read back as it |
| Nonce.AcceptedIff | dpop_nonce.go:47-59 | For every pair of clocks, a nonce is accepted exactly in its own window and the next, if no two window numbers collide |
| Nonce.LastsOneWindow | dpop_nonce.go:36-59 | Past the epoch and whatever the HMAC, a nonce is accepted for one window's length |
| Nonce.Lifetime | dpop_nonce.go:36-59 | Past the epoch a nonce is not accepted after two windows' length, nor by a clock in an earlier window |
| Nonce.LongerBeforeEpoch | dpop_nonce.go:36-38 | Before the epoch a nonce of a five-minute source is accepted 898 seconds later |
| ExchangeForm.Values.Clone | exchange.go:237-245 | The clone is a new map with equal entries |
| ExchangeForm.BuildExchangeForm | exchange.go:148-170 | The form built call by call is the one that RequestRoundTrip reads |
| ExchangeForm.Apply | exchange_client_auth.go:38-46 | Credentials go into the form or into the header, never both, and nothing else of the form changes |
| ExchangeForm.CredentialsIff | exchange_client_auth.go:38-46 | client_id carries the id and client_secret the secret exactly if they are posted, else basic authentication carries both in this order |
| ExchangeForm.FormNames | exchange.go:150-152 | The grant type and the default token type are the URNs of RFC 8693 |
| ExchangeForm.FormAt | exchange.go:148-170 | Each key of the form has exactly the values that the request has for it, and none if it has none |
| ExchangeForm.RequestRoundTrip | exchange_validator.go:105-133 | After authentication the validator reads the client's request with types defaulted and scopes split into words; equal to it exactly if all scopes are words |
| ExchangeWire.WriteExchangeResponse | exchange_validator.go:224-249 | The members written one by one are those that ResponseRoundTrip reads; no access token, no body |
| ExchangeWire.SecondsSurvive | exchange_validator.go:237-239 | For every positive 64-bit duration, the whole number of seconds that its double is cut to is less than one second off, exact just for whole seconds, and can be multiplied back without overflow |
| ExchangeWire.SecondsRound | exchange_validator.go:237-239 | Fractions are cut off for any lifetime up to 104 days; beyond 208 days a last nanosecond rounds up |
| ExchangeWire.ResponseRoundTrip | exchange.go:256-280 | A written token reads back with its types defaulted, its scopes split and its lifetime less than a second off; as a whole exactly if its scopes are words, and with its very lifetime exactly for whole seconds |
| ExchangeWire.ParseResultIs | exchange.go:256-270 | Of all bodies, exactly those with members of the right types and a non-empty access token are taken for one; the error tells a body that does not decode from one without access token |
| ExchangeWire.WriteExchangeError | exchange_errors.go:51-71 | An error is written with its own status or that of its code, and any other error as a 500 with server_error alone |
| ExchangeWire.ErrorMembers | exchange_errors.go:63-69 | An error body has its code, and description and URI exactly if there are any, under the names of RFC 6749, and nothing else |
| ExchangeWire.ErrorRoundTrip | exchange_errors.go:26-46 | A written error reads back under its status exactly if its code is not empty, and as unparseable otherwise; with no status of its own it is a 401 for invalid_client alone, else a 400 |
| ExchangeWire.ParseErrorIs | exchange_errors.go:36-46 | Of all bodies, exactly those with string members and a non-empty code are read; any other is reported as unparseable under its status |
| ExchangeClient.Network.Post | exchange.go:213-213 | Each POST is recorded, and answered by an arbitrary server that may look at all it has been sent |
| ExchangeClient.Do | exchange.go:190-235 | One attempt sends at most one POST and leaves the caller's form alone |
| ExchangeClient.ExchangeWithNonceRetry | exchange.go:175-185 | The requests sent and the result are those that ExchangedIs and RetriesOnce are about, with the caller's form unmodified |
| ExchangeClient.JudgeNonceIff | exchange.go:222-234 | An attempt yields a nonce exactly for a response that is neither success nor redirect, has the error use_dpop_nonce and carries that nonce |
| ExchangeClient.JudgeIs | exchange.go:213-234 | What each response becomes: a transport failure, a token or unreadable body for 2xx, a refused redirect for 3xx, the parsed error otherwise |
| ExchangeClient.PreparedIs | exchange.go:191-211 | A POST carries form, credentials and, exactly with a key, a proof for this attempt; what cannot be made is the error, before anything is sent |
| ExchangeClient.ExchangedIs | exchange.go:175-185 | The whole exchange: the first answer decides unless it is a nonce challenge to a client with a key, and then the second does; an attempt that cannot be prepared ends it with its error |
| ExchangeClient.RetriesOnce | exchange.go:172-185 | At most two POSTs, two exactly after such a challenge to a client with a key; both with the same parameters and credentials, the second with a proof for that nonce, and its answer decides |
| ExchangeClient.ClientReadsToken | exchange.go:233-234 | What the server writes for a token is what the client returns |
| ExchangeClient.ClientReadsError | exchange.go:226-231 | What the server writes for an error is what the client returns, with the nonce exactly for use_dpop_nonce |
| ExchangeClient.ExchangeDelivers | exchange.go:175-185 | An exchange whose last POST is answered with a written token returns that token |
| ExchangeClient.ExchangeReports | exchange.go:175-182 | An exchange whose only POST is answered with a written error, not a challenge it can meet, returns that error |
| ExchangeClient.RetryReports | exchange.go:183-184 | After a retry the error of the second answer is returned, even if it asks for a nonce again |
| ExchangeValidator.Validator.Deny | exchange_validator.go:168-171 | A refusal is returned and audited once, with its code and description |
| ExchangeValidator.Validator.BuildGrant | exchange_validator.go:118-151 | The grant filled in field by field is the one that GrantSoundIff is about |
| ExchangeValidator.Validator.Validate | exchange_validator.go:101-166 | The result is that of the specification, and exactly one event is audited that agrees with it |
| ExchangeValidator.MayActIff | exchange_validator.go:178-196 | Any actor or none may act unless may_act is present, null included; then exactly the one non-empty subject it names |
| ExchangeValidator.CheckTokenIff | exchange_validator.go:118-124 | A token passes exactly if it is authentic and, if audiences are configured, meant for one of them |
| ExchangeValidator.GrantSoundIff | exchange_validator.go:105-151 | The policy sees a grant exactly if it is sound: subject and actor verified, delegation, actor and act all present exactly with an actor token, may_act obeyed, and the rest as requested |
| ExchangeValidator.ValidatedIff | exchange_validator.go:101-166 | A request is granted something exactly if its form parses, a sound grant exists for it, and the policy, if there is one, approves of it with that result |
| ExchangeValidator.PolicyRefuses | exchange_validator.go:153-161 | A policy that refuses is obeyed: its own error is the answer, or invalid_target for an error of another type |
| ExchangeValidator.PolicyNotAsked | exchange_validator.go:101-151 | Without a sound grant the answer does not depend on the policy |
| ExchangeValidator.EventIff | exchange_validator.go:163-171 | The one event allows exactly a granted request, with the verified subject and issuer and what the policy has left; a denial carries code and description of the answer |
| ExchangeValidator.RejectionDescription | exchange_validator.go:118-151 | The description says which token is at fault, and whether for being invalid, for its audience or for may_act, the subject token first |
| ExchangeValidator.RejectionCodeIff | exchange_validator.go:106-151 | The error code before the policy says which part is at fault: grant type, form or tokens |
| ExchangeValidator.ClientFormsPass | exchange.go:118-124 | The validator's checks on the form pass for exactly those requests that the client does not refuse to send |
| DelegationChain.ChainGrows | exchange_validator.go:200-209 | The new actor is outermost and the chain there was is nested unchanged, one level deeper |
| DelegationChain.MintedChain | exchange_validator.go:135-151 | A token minted from a grant names its actor before the subject's chain, or nobody for an impersonation |
| DelegationChain.ChainOfRun | exchange_validator.go:200-209 | However long the run of exchanges, its last token names the actors since the last impersonation, newest first |

## Left out

- ExchangeClient.Do: client authentication that fails is left out, because `ClientSecretAuth` never does.
- Claims.NewClaims: base64 and JSON are one parameter that may fail, and what the JOSE library reads from a token is a record.
- Nonce.AcceptedIff: rests on an HMAC without collisions among window numbers, as does `Nonce.Lifetime`; that is the security of the nonce and not a property of this code.
- ProofTarget.TargetIff: which authorities are well-formed is a parameter; scheme and authority of the request are taken to be so, and case folding of hosts outside ASCII is not modelled.
- KeyCacheTheorems.AtMostOneFetchEach: gives N fetches for N callers and not one, because the code promises no more.
- Middleware.BearerMiddleware.Serve: the key source is an arbitrary answer for each kid, so the remote protocol of `jwks.go` is proved on its own and not composed with the pipeline.
- DelegationChain.ChainGrows: the decoder turns numbers inside a nested act into doubles, so large integers there may change; the actors do not.
- JOSE and cryptography: signature, issuer and time checks of access tokens, parsing and signing of proofs, thumbprints, SHA-256 and HMAC are parameters.
- HTTP: transport, the reading of bodies, the encoding of forms and JSON text are not modelled; forms are maps from keys to lists of values, and bodies are JSON documents or unparseable.
- The decoder of encoding/json also matches member names in other letter cases and takes the last of duplicates; documents here are maps with exact names.
- Times are unbounded integers, so overflow of `time.Time` at extreme `iat` values is not modelled; differences saturate as `Time.Sub` does.
- `strings.EqualFold` folds ASCII letters and the two characters outside ASCII that fold to one of them; other Unicode folding and invalid UTF-8 under `%q` are not modelled, and which characters outside ASCII print as they stand is a parameter.
- The challenge grammar is parsed for one challenge per header field, without empty list elements.
- Locks are critical sections that run as one step; the memory model of Go is not part of this model.
- Contexts, event timestamps and the HTTP and resource fields of events are left out; an event carries the claims its subject, issuer, audience and scope are copied from.
- Error codes and schemes are those that the constructors in `bearer_errors.go` use; a custom `ErrorHandler`, which may answer anything, is left out.
- User callbacks are functions of their arguments; a policy returns the grant it leaves behind, and one that changes the claims through their pointers is not modelled.
- Values of one form key are an immutable list, so the copying of slices in `cloneValues` shows only as a copy of the map.
- `Exchange` around the retry: its audit event and endpoint discovery with a cache that never expires.
- Option validation and defaults of `RequireBearer`, `NewExchangeValidator` and `NewTokenExchanger`, except the accepted audiences: easy members only.
- `metadata.go`, `handler.go`, `adapters`, `audit.go`, `exchange_discovery.go`, `exchange_dpop.go`, `dpop_proof.go`, `PrivateKeyJWTAuth` and the examples: validation branches or library calls.
