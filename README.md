# Request observability of the Kotlin todo backend, in Dafny

This project models the request-observability pipeline of a Spring Boot todo backend and the token
logic that gates it:

- the **log store** (`RequestLogService`): a newest-first history capped at 300 entries, an id
  counter, and the read side (`list`, `listResponses`);
- the **broadcaster** (`RequestLogBroadcaster`): the set of live WebSocket subscribers, and the
  fan-out that drops closed or failing subscribers;
- the **handshake gate** (`RequestLogWebSocketHandler`): the `token` query-parameter parser, and the
  rule that a connection is registered only when its token checks out;
- the **capture filter** (`RequestLogFilter`): the excluded paths, and the one entry built per request;
- the **bearer filter** (`JwtAuthenticationFilter`): the `Authorization: Bearer` extraction and when
  the request becomes authenticated;
- the **token rules** (`JwtUtil`): expiry is issue time plus the configured horizon; a token is
  valid iff its subject is the account's username and it has not expired.

Files, one module each: `Wrappers.dfy` (Option, Result), `JvmLong.dfy` (64-bit `Long` wrap-around),
`KotlinText.dfy` (`startsWith`, `split`, `split(limit = 2)`, `isBlank`, UTF-8 length),
`RequestLog.dfy` (the two record shapes), `RequestLogBroadcaster.dfy`, `RequestLogService.dfy`,
`JwtUtil.dfy`, `TokenCheck.dfy` (the lookup-then-validate sequence both filters share),
`JwtAuthenticationFilter.dfy`, `RequestLogWebSocketHandler.dfy`, `RequestLogFilter.dfy`.

Objects whose fields the source updates in place are classes: the service (`logs`, `counter`),
the broadcaster (`sessions`), a WebSocket session (`isOpen`, close status, what it was sent), the
security context (`authentication`) and the filter chain (how often it was continued). The token
rules, the query parser and the path predicate are functions.

Foreign code becomes parameters. The JWS library is a `JwsCodec` of two function values, `sign` and
`parse`. The lemmas that need it assume `RoundTrips`: parsing a token signed with the same key gives
back exactly the signed claims, though an already expired token may be refused instead. Jackson's
`writeValueAsString` and `Instant.toString()` are function-valued fields of the service. The user
repository is a `map` from email to account, and a missing key means the lookup throws. Clock
readings are parameters in milliseconds. A session's `sendFails` field says whether the transport
throws on the next send.

Behaviours of the code that the model keeps as they are:

- A controller exception does not stop capture. The exception advice turns it into an error
  response (`exception/GlobalExceptionHandler.kt:59-60`), so the chain returns normally. Only an
  exception that escapes the rest of the filter chain skips capture: `doFilterInternal` has no
  `try`/`finally`, so such a request draws no id and adds no entry (`RequestLogFilter.kt:22-39`).
  This is the `Threw` case of `Downstream`.
- A token is still valid at exactly its expiry, because `Date.before` is strict (`JwtUtil.kt:110`).
- `broadcast` has no timeout and no queue: each send returns or throws
  (`RequestLogBroadcaster.kt:29-33`).
- `broadcast` walks the live session set and removes dead sessions through its iterator
  (`RequestLogBroadcaster.kt:22-34`).

## Model

| member | source | states |
|---|---|---|
| `JvmLong.Wrap` | src/main/kotlin/com/example/kotlinbackend/metrics/RequestLogService.kt:12 | truncation to a `Long` keeps every `Long` value, and differs from the exact value by a multiple of 2^64 |
| `JvmLong.Add` | src/main/kotlin/com/example/kotlinbackend/security/JwtUtil.kt:62 | `Long` addition is exact whenever the sum fits, and always yields a `Long` |
| `JvmLong.Sub` | src/main/kotlin/com/example/kotlinbackend/metrics/RequestLogFilter.kt:23 | `Long` subtraction is exact whenever the difference fits |
| `JvmLong.IncrementOverflows` | src/main/kotlin/com/example/kotlinbackend/metrics/RequestLogService.kt:29 | incrementing `Long.MAX_VALUE` gives `Long.MIN_VALUE`, which is how far the "ids are never reused" promise reaches |
| `KotlinText.IndexOf` | src/main/kotlin/com/example/kotlinbackend/metrics/RequestLogWebSocketHandler.kt:47 | the index returned is the first occurrence of the separator, or the length when there is none |
| `KotlinText.Split` | src/main/kotlin/com/example/kotlinbackend/metrics/RequestLogWebSocketHandler.kt:45 | `split("&")` always yields at least one piece |
| `KotlinText.SplitPiecesFree` | src/main/kotlin/com/example/kotlinbackend/metrics/RequestLogWebSocketHandler.kt:45 | no piece of `split("&")` contains `&` |
| `KotlinText.JoinSplit` | src/main/kotlin/com/example/kotlinbackend/metrics/RequestLogWebSocketHandler.kt:45 | rejoining the pieces with `&` gives back the query: the split loses nothing, empty pieces included |
| `KotlinText.SplitJoin` | src/main/kotlin/com/example/kotlinbackend/metrics/RequestLogWebSocketHandler.kt:45 | splitting a join of `&`-free pieces gives back exactly those pieces |
| `KotlinText.SplitFree` | src/main/kotlin/com/example/kotlinbackend/metrics/RequestLogWebSocketHandler.kt:45 | a query without `&` is a single pair |
| `KotlinText.SplitAppend` | src/main/kotlin/com/example/kotlinbackend/metrics/RequestLogWebSocketHandler.kt:45 | a separator-free head followed by `&` becomes the first piece, and the rest splits on its own |
| `KotlinText.SplitFirst` | src/main/kotlin/com/example/kotlinbackend/metrics/RequestLogWebSocketHandler.kt:47 | `split("=", limit = 2)` gives one piece iff there is no `=`; otherwise two pieces, the first without `=`, which rejoin to the pair |
| `KotlinText.Utf8Length` | src/main/kotlin/com/example/kotlinbackend/security/JwtUtil.kt:43 | the UTF-8 byte count of the secret lies between its length and four times its length |
| `Broadcasting.WebSocketSession.constructor` | src/main/kotlin/com/example/kotlinbackend/metrics/RequestLogWebSocketHandler.kt:17 | a new connection is open, unclosed, and has been sent nothing |
| `Broadcasting.WebSocketSession.SendMessage` | src/main/kotlin/com/example/kotlinbackend/metrics/RequestLogBroadcaster.kt:30 | the send succeeds exactly when the oracle allows it; only a successful send delivers the text |
| `Broadcasting.WebSocketSession.Close` | src/main/kotlin/com/example/kotlinbackend/metrics/RequestLogWebSocketHandler.kt:20 | after `close(status)` the session is not open and records `status` |
| `Broadcasting.RequestLogBroadcaster.constructor` | src/main/kotlin/com/example/kotlinbackend/metrics/RequestLogBroadcaster.kt:10 | the registry starts empty |
| `Broadcasting.RequestLogBroadcaster.Register` | src/main/kotlin/com/example/kotlinbackend/metrics/RequestLogBroadcaster.kt:12-14 | the set gains the session; registering twice leaves one membership |
| `Broadcasting.RequestLogBroadcaster.Unregister` | src/main/kotlin/com/example/kotlinbackend/metrics/RequestLogBroadcaster.kt:16-18 | the set loses the session; an absent session changes nothing |
| `Broadcasting.RequestLogBroadcaster.Broadcast` | src/main/kotlin/com/example/kotlinbackend/metrics/RequestLogBroadcaster.kt:20-35 | the new set is the old one minus closed and failing sessions, and no session is added; each kept session gets the payload once; dropped ones get nothing; the walk continues past failures, and nothing is thrown |
| `LogStore.Take` | src/main/kotlin/com/example/kotlinbackend/metrics/RequestLogService.kt:34 | `take(n)` for `n >= 0` is a prefix of length `min(n, size)` |
| `LogStore.PushedShape` | src/main/kotlin/com/example/kotlinbackend/metrics/RequestLogService.kt:19-22 | after one add the new entry is first, the size is `min(old + 1, 300)`, and the rest are the first `min(old, 299)` old entries, so only the oldest are evicted |
| `LogStore.TakeAppendTake` | src/main/kotlin/com/example/kotlinbackend/metrics/RequestLogService.kt:20-22 | evicting down to the cap before or after later insertions at the front gives the same store |
| `LogStore.AddAllKeepsNewest` | src/main/kotlin/com/example/kotlinbackend/metrics/RequestLogService.kt:17-23 | any run of adds leaves the newest 300 of all entries (added and previous), newest first; eviction depends on position only |
| `LogStore.FromEmptyKeepsLast` | src/main/kotlin/com/example/kotlinbackend/metrics/RequestLogService.kt:19-22 | from empty, 300 or more adds leave exactly the last 300 entries added, newest first |
| `LogStore.StoredIffRecent` | src/main/kotlin/com/example/kotlinbackend/metrics/RequestLogService.kt:13-22 | for distinct entries, an entry is still stored iff it is among the last 300 added (with 301 adds, the first is gone) |
| `LogStore.Reverse` | src/main/kotlin/com/example/kotlinbackend/metrics/RequestLogService.kt:19 | the reversed sequence holds the same elements in opposite order, which is why adding at the front makes the store newest-first |
| `LogStore.ToResponseInjective` | src/main/kotlin/com/example/kotlinbackend/metrics/RequestLogService.kt:42-53 | the response copies every field and loses nothing beyond what the timestamp rendering loses |
| `LogStore.Ids` | src/main/kotlin/com/example/kotlinbackend/metrics/RequestLogService.kt:29 | `n` successive `nextId` calls give `n` ids |
| `LogStore.IdsConsecutive` | src/main/kotlin/com/example/kotlinbackend/metrics/RequestLogService.kt:29 | below `Long.MAX_VALUE`, the `i`-th id drawn from counter `c` is `c + i`, so ids are strictly increasing and never reused, whatever was evicted |
| `LogStore.FreshIds` | src/main/kotlin/com/example/kotlinbackend/metrics/RequestLogService.kt:12 | from a fresh service the ids are 1, 2, …, n, pairwise distinct |
| `LogStore.RequestLogService.constructor` | src/main/kotlin/com/example/kotlinbackend/metrics/RequestLogService.kt:8-15 | a fresh store is empty and its counter is 1 |
| `LogStore.RequestLogService.NextId` | src/main/kotlin/com/example/kotlinbackend/metrics/RequestLogService.kt:29 | returns the counter and advances it by one as a `Long`; the store is untouched |
| `LogStore.RequestLogService.Add` | src/main/kotlin/com/example/kotlinbackend/metrics/RequestLogService.kt:17-27 | the store becomes the entry followed by what fits of the old store, it never exceeds 300, and the counter is untouched. Then exactly one broadcast of the serialised entry: each subscriber is kept or dropped, served, and otherwise left as it was |
| `LogStore.RequestLogService.List` | src/main/kotlin/com/example/kotlinbackend/metrics/RequestLogService.kt:31-36 | no limit gives the whole store; limit `k >= 0` gives a prefix of length `min(k, size)`; a negative limit throws; the store is not changed |
| `LogStore.RequestLogService.ListResponses` | src/main/kotlin/com/example/kotlinbackend/metrics/RequestLogService.kt:38-40 | fails exactly when `list` fails; otherwise it has `list`'s length and order, element by element the response of `list`'s entry |
| `Jwt.CreateToken` | src/main/kotlin/com/example/kotlinbackend/security/JwtUtil.kt:60-71 | token creation fails exactly when the key is refused |
| `Jwt.GenerateToken` | src/main/kotlin/com/example/kotlinbackend/security/JwtUtil.kt:52-55 | token generation fails exactly when the key is refused |
| `Jwt.ValidateToken` | src/main/kotlin/com/example/kotlinbackend/security/JwtUtil.kt:117-120 | true iff the token parses, its subject equals the account's username, and `now <= expiry`; throws exactly when parsing throws |
| `Jwt.GeneratedClaims` | src/main/kotlin/com/example/kotlinbackend/security/JwtUtil.kt:52-71 | a generated token parses back, at issue time, to the username as subject, no custom claims, issue time `now`, and expiry `expiration` ms later |
| `Jwt.SignedClaimsRoundTrip` | src/main/kotlin/com/example/kotlinbackend/security/JwtUtil.kt:98-104 | `extractAllClaims` of any token signed with the key gives back exactly its claims; the only other outcome is a throw, and only once the token has expired |
| `Jwt.GeneratedUsername` | src/main/kotlin/com/example/kotlinbackend/security/JwtUtil.kt:76-78 | `extractUsername(generateToken(u)) == u.username` (the subject claim is the username) |
| `Jwt.GeneratedExpiration` | src/main/kotlin/com/example/kotlinbackend/security/JwtUtil.kt:83-85 | `extractExpiration` of a generated token is issue time plus the horizon, and it can be read at least until that instant |
| `Jwt.GeneratedExpiredIff` | src/main/kotlin/com/example/kotlinbackend/security/JwtUtil.kt:109-111 | `isTokenExpired` of a generated token answers `false` exactly while `now <= expiry`; the expiry instant itself is not expired, and afterwards it answers `true` or throws |
| `Jwt.GeneratedValidUntilExpiry` | src/main/kotlin/com/example/kotlinbackend/security/JwtUtil.kt:117-120 | a generated token validates for its account at every instant up to and including its expiry |
| `Jwt.GeneratedInvalidAfterExpiry` | src/main/kotlin/com/example/kotlinbackend/security/JwtUtil.kt:117-120 | past its expiry a generated token never validates, whether or not the library refuses it |
| `Jwt.GeneratedForOtherUserInvalid` | src/main/kotlin/com/example/kotlinbackend/security/JwtUtil.kt:118-119 | a token generated for one account never validates for an account with another username |
| `Jwt.WeakSecretRefusesAll` | src/main/kotlin/com/example/kotlinbackend/security/JwtUtil.kt:42-44 | with a secret under 32 UTF-8 bytes (256 bits) the signing key is refused, so generation and validation both throw |
| `TokenCheck.Check` | src/main/kotlin/com/example/kotlinbackend/security/JwtAuthenticationFilter.kt:46-52 | the extract, load and validate sequence throws iff parsing fails or the subject is unknown; it accepts iff the token parses, its subject is a known account filed under its own username, and it has not expired; it then accepts that account |
| `TokenCheck.AdmitsIff` | src/main/kotlin/com/example/kotlinbackend/metrics/RequestLogWebSocketHandler.kt:24-34 | against a directory filed by username, a token is admitted iff it parses, names a known account and has not expired |
| `TokenCheck.IssuedTokenAdmitted` | src/main/kotlin/com/example/kotlinbackend/security/JwtUtil.kt:109-120 | a token issued to a known account is admitted at every instant up to its expiry, and at none after |
| `JwtFilter.ExtractJwtFromRequest` | src/main/kotlin/com/example/kotlinbackend/security/JwtAuthenticationFilter.kt:79-87 | a token comes out iff the header starts with exactly `Bearer ` (case and space included), and then the header is `Bearer ` followed by that token |
| `JwtFilter.BearerRoundTrip` | src/main/kotlin/com/example/kotlinbackend/security/JwtAuthenticationFilter.kt:82-84 | putting any token behind `Bearer ` and extracting gives it back |
| `JwtFilter.OtherSchemesIgnored` | src/main/kotlin/com/example/kotlinbackend/security/JwtAuthenticationFilter.kt:80-86 | a missing header, lower-case `bearer`, or `Bearer` without the space gives null; `Bearer ` alone gives the empty token, not null |
| `JwtFilter.Decide` | src/main/kotlin/com/example/kotlinbackend/security/JwtAuthenticationFilter.kt:39-69 | an existing authentication is never overwritten; the authentication changes iff there was none, a bearer token is present and the check accepts it, and it then becomes the accepted account's; a throwing check changes nothing |
| `JwtFilter.LiveTokenAuthenticates` | src/main/kotlin/com/example/kotlinbackend/security/JwtAuthenticationFilter.kt:41-64 | a token issued to a known account, sent before its expiry as `Bearer <token>` to an unauthenticated request, authenticates the request as that account, with its username as name and its authorities |
| `JwtFilter.SecurityContext.constructor` | src/main/kotlin/com/example/kotlinbackend/security/JwtAuthenticationFilter.kt:44 | the context holds the authentication it was given |
| `JwtFilter.FilterChain.DoFilter` | src/main/kotlin/com/example/kotlinbackend/security/JwtAuthenticationFilter.kt:72 | continuing the chain is counted once per call |
| `JwtFilter.JwtAuthenticationFilter.DoFilterInternal` | src/main/kotlin/com/example/kotlinbackend/security/JwtAuthenticationFilter.kt:34-73 | the context's authentication becomes `Decide` of the old one, and the chain is continued exactly once on every path |
| `WebSocketGate.TokenPairIff` | src/main/kotlin/com/example/kotlinbackend/metrics/RequestLogWebSocketHandler.kt:47-48 | a pair names the token iff it starts with `token=`, and its value is everything after that; pairs without `=` never match |
| `WebSocketGate.FirstTokenSpec` | src/main/kotlin/com/example/kotlinbackend/metrics/RequestLogWebSocketHandler.kt:45-52 | the result is null iff no pair names the token; otherwise it is the value of the leftmost pair that does |
| `WebSocketGate.ExtractToken` | src/main/kotlin/com/example/kotlinbackend/metrics/RequestLogWebSocketHandler.kt:43-53 | the loop with early return yields exactly that first value, and null without a URI or a query |
| `WebSocketGate.ValueKeepsLaterEquals` | src/main/kotlin/com/example/kotlinbackend/metrics/RequestLogWebSocketHandler.kt:47-49 | the query `token=a=b` yields `a=b` |
| `WebSocketGate.BlankTokensRefused` | src/main/kotlin/com/example/kotlinbackend/metrics/RequestLogWebSocketHandler.kt:18-22 | a missing token, `token=` and whitespace-only tokens are never admitted; no URI or no query gives no token |
| `WebSocketGate.RequestLogWebSocketHandler.constructor` | src/main/kotlin/com/example/kotlinbackend/metrics/RequestLogWebSocketHandler.kt:11-15 | the handler holds its token settings and broadcaster |
| `WebSocketGate.RequestLogWebSocketHandler.AfterConnectionEstablished` | src/main/kotlin/com/example/kotlinbackend/metrics/RequestLogWebSocketHandler.kt:17-37 | an admitted session is registered exactly once and left open; any other (no token, blank token, refused or throwing check) is closed with POLICY_VIOLATION and not registered; nothing is broadcast |
| `WebSocketGate.RequestLogWebSocketHandler.AfterConnectionClosed` | src/main/kotlin/com/example/kotlinbackend/metrics/RequestLogWebSocketHandler.kt:39-41 | closing always unregisters the session, whatever the close status |
| `CaptureFilter.ExclusionPrefixClosed` | src/main/kotlin/com/example/kotlinbackend/metrics/RequestLogFilter.kt:42-47 | the exclusion is a prefix test: every extension of an excluded path is excluded as well |
| `CaptureFilter.ExclusionExamples` | src/main/kotlin/com/example/kotlinbackend/metrics/RequestLogFilter.kt:44-46 | `/errors` and `/api/metrics/requests/extra` are excluded; `/api/todos`, `/api/metrics` and `/ws/requests` are captured |
| `CaptureFilter.CaptureEntryFields` | src/main/kotlin/com/example/kotlinbackend/metrics/RequestLogFilter.kt:28-37 | the entry has the drawn id, the method, the path, the status and `durationMs == end - start`; its user is `anonymous` exactly when there is no authentication (or it is named so), and its ip is `unknown` exactly when there is no remote address (or it is that) |
| `CaptureFilter.AuthenticatedEntryNamesAccount` | src/main/kotlin/com/example/kotlinbackend/metrics/RequestLogFilter.kt:25-26 | after the bearer filter authenticates an account, the entry names that account's username, not `anonymous` |
| `CaptureFilter.RequestLogFilter.DoFilterInternal` | src/main/kotlin/com/example/kotlinbackend/metrics/RequestLogFilter.kt:16-40 | when the chain returns, exactly one id is drawn; exactly one entry with that id is stored in front and broadcast once, with each subscriber kept or dropped as one broadcast does. When the chain throws, the exception passes through, and the counter, the store, the broadcasts and every subscriber are untouched |
| `CaptureFilter.RequestLogFilter.DoFilter` | src/main/kotlin/com/example/kotlinbackend/metrics/RequestLogFilter.kt:42-47 | an excluded path, or a chain that throws, leaves the counter, the store, the broadcasts and every subscriber untouched; a captured path whose chain returns gets exactly the capture `DoFilterInternal` states |

## Left out

- JWS signing and parsing (HMAC, Base64url, the claim encoding) are library code, shown here only as the `sign`/`parse` functions of a `JwsCodec`. The library stores `iat` and `exp` in whole seconds, and `RoundTrips` idealises this to the exact milliseconds. Whether the library refuses expired tokens itself is left open. Resistance to forged tokens is not stated.
- `Jwt.ExtractAllClaims`: the library parses against its own clock, and `isTokenExpired` reads `Date()` again. The model reads one `now` per check.
- `CustomUserDetailsService.loadUserByUsername` is a map lookup (`TokenCheck.LoadUserByUsername`), stated only through `TokenCheck.Check` and `TokenCheck.AdmitsIff`.
- `JwtUtil.extractClaim` is generic over a claims resolver. Only its two uses are modelled: `ExtractUsername` and `ExtractExpiration`.
- `LogStore.RequestLogService.Add`, `Broadcasting.RequestLogBroadcaster.Broadcast`: an `add` is one atomic step here, store update and broadcast together. In the source the broadcast runs outside the lock (`RequestLogService.kt:25-26`). Two concurrent adds can therefore broadcast in an order other than the store's, and their `sendMessage` calls can reach one session at the same time. The model does not capture either.
- Concurrency: each `synchronized` block, the `AtomicLong` step and each concurrent-set operation is one sequential step. The weakly consistent iterator is not modelled, so neither are broadcasts interleaved with registrations.
- Jackson serialisation and `Instant.toString()` are function parameters. `writeValueAsString` is taken never to throw.
- WebSocket transport: a send either delivers the whole frame or throws, as the oracle says. There are no timeouts or partial writes. `close` does not itself trigger `afterConnectionClosed`: the container makes that call, and the model does not.
- `java.net.URI.getQuery` percent-decodes the query. The model receives the decoded query.
- The security context read by the capture filter is a parameter. Which filter runs first and when Spring clears the context are framework configuration.
- Error logging (`logger.error`) and the request details attached to an authentication (`WebAuthenticationDetailsSource`) are not modelled.
- `RequestLogController` only maps `list` to responses again, which `ListResponses` already states. Spring configuration, the CRUD layer and the frontends are outside this model.
- Kotlin `Int` values (`limit`, `status`) are unbounded integers. The core does no arithmetic on them.
