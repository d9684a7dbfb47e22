# DPoP proof-of-possession, modelled in Dafny

This project models the DPoP logic (RFC 9449) of an agentic-auth demo. An
orchestrator obtains an OAuth access token and sends it to an internal API
together with a DPoP proof. The proof is a JWT signed with a per-session P-256
key. It binds the request's method (`htm`), URL (`htu`), time (`iat`), a random
identifier (`jti`) and a hash of the access token (`ath`). The API checks the
proof, rejects a `jti` it has seen recently, and serves the resource.

Four pieces are modelled as pure functions over immutable values:

- `DpopVerify` is the server's proof validator, `verify_dpop_proof`. It runs a
  fixed chain of checks, and the first one that fails picks the error message.
  The result is the source's `(valid, error, jti)` triple.
- `JtiCache` is the replay cache, `JTICache`. It is a map from `jti` to the time
  it was recorded, cleaned by age on each lookup. Each operation returns the new
  cache. Its `KeyOf` gives Python dict-key identity: two `jti` values share an
  entry exactly when they are `==`, and lists and dicts cannot be keys.
- `Api` is the request handler, `protected_resource`. It is an ordered gate that
  returns a status of 401, 403, 500 or 200, together with the cache it leaves
  behind.
- `Orchestrator` is the client. It covers proof construction
  (`generate_dpop_proof`) and the token-cache rule and error handling of
  `run_request`.

The other modules are support for these four:

- `Json` holds decoded JSON values and the parts of Python's object model the
  code relies on: truthiness, `dict.get`, type names in exception messages, and
  `==` (under which `True == 1`).
- `Uri` is the `htu` normalisation.
- `Base64Url` is `secrets.token_urlsafe`.
- `Clock` is `int(time.time())`.
- `Jose` gathers the cryptographic operations. They are supplied as function
  parameters, and the predicate `Sound` states the library guarantees that the
  round-trip results assume.
- `RoundTrip` relates client and server. A generated proof passes the validator
  exactly for its own request. The handler serves it once. With a retention of
  at least 122 s (the default is 300 s), a proof served with 200 is never served
  with 200 again, in any request that carries it, because its `jti` outlives
  every moment at which its `iat` could still pass. This holds while the server
  clock does not step backwards: the second request, and every request handled
  in between, is handled no earlier than the first.

Outside inputs are parameters:

- the clock (`now`, a real number of seconds);
- randomness (the signing key, the 16 bytes behind each `jti`, and the ECDSA
  nonce of each signature);
- the network (token acquisition, and the API call seen from the client);
- `verify_access_token`, modelled as a function from token to decoded claims or
  error.

Points where the code departs from the recommendations of RFC 9449, or does
something easy to miss:

- `htu` is the URL exactly as given. Section 4.2 of RFC 9449 says `htu` has no
  query or fragment, but the generator does not strip them; only the validator
  normalises, on both sides.
- The replay check (section 11.1 of RFC 9449) is two separate steps:
  `is_replayed`, then `add`. It is not one atomic check-and-insert. The model is sequential and claims no atomicity.
- Errors are strings, not reason codes. A library exception becomes its own
  message.
- A `jti` can be any truthy JSON value. If it is a list or an object, the
  lookup `jti in self.cache` raises `TypeError` after the cleanup has already
  run. Flask then answers 500.
- `if error:` tests whether the message string is truthy. So a token error
  whose message is empty does not reject the request. The `jti` is then
  recorded, and `decoded_token.get('sub')` raises, which gives a 500.
- `True` and `1` are the same dict key, so they are the same `jti`.

## Model

| member | source | states |
|---|---|---|
| Clock.Trunc | internal-api/dpop_verify.py:62 | the server's `int(time.time())` truncates toward zero: it lies within one second of the clock, on the clock's side of zero |
| Uri.BeforeFirst | internal-api/dpop_verify.py:55-56 | `s.split(c)[0]` is a prefix of `s` with no `c` in it, followed in `s` by `c` or by nothing |
| Uri.Normalize | internal-api/dpop_verify.py:55-56 | the normal form is a prefix of the URL with no `?` and no `#`, and where it stops short the URL continues with `?` or `#` |
| Uri.NormalizeIsPrefixBeforeDelimiter | internal-api/dpop_verify.py:55-56 | the two successive splits keep exactly the prefix before the first `?` or `#`, whichever comes first |
| Uri.NormalizeHasNoDelimiter | internal-api/dpop_verify.py:55-56 | a normalised URL contains neither `?` nor `#` |
| Uri.NormalizeIdempotent | internal-api/dpop_verify.py:55-56 | normalising twice gives the same result as once |
| Uri.NormalizeIgnoresQuery | internal-api/dpop_verify.py:55-59 | appending `?` and any query leaves the normal form unchanged, for every URL |
| Uri.NormalizeIgnoresFragment | internal-api/dpop_verify.py:55-59 | appending `#` and any fragment leaves the normal form unchanged, for every URL |
| Uri.SameResourceDiffersOnlyAfterDelimiter | internal-api/dpop_verify.py:55-59 | a base with no delimiter, followed by anything that starts with a delimiter, normalises to the base |
| Base64Url.Encode | orchestrator/orchestrator.py:85 | base64url without padding uses only the URL-safe alphabet A-Z a-z 0-9 - _ |
| Base64Url.EncodeLength | orchestrator/orchestrator.py:85 | the unpadded encoding of n bytes has ceil(4n/3) characters |
| Base64Url.DecodeEncode | orchestrator/orchestrator.py:85 | decoding an encoding gives back the bytes, so different random bytes give different `jti`s |
| Base64Url.TokenUrlsafe | orchestrator/orchestrator.py:85 | `token_urlsafe(16)` is 22 URL-safe characters that decode back to the 16 random bytes |
| DpopVerify.AllPresentIff | internal-api/dpop_verify.py:47 | `all([jti, htm, htu, iat, ath])` holds exactly when each of the five claims is truthy |
| DpopVerify.CheckClaims | internal-api/dpop_verify.py:41-71 | the ordered claim checks succeed exactly when the claims meet the order-free acceptability conditions, and success returns the truthy `jti` claim |
| DpopVerify.Message | internal-api/dpop_verify.py:24-74 | only a caught exception can give an empty error message |
| DpopVerify.MessageIdentifiesReason | internal-api/dpop_verify.py:24-69 | two rejections with the same message, neither a caught exception, have the same reason, except that two "htm mismatch" messages may come from different claim values |
| DpopVerify.CheckProof | internal-api/dpop_verify.py:11-71 | the check chain succeeds exactly when the proof parses and its header, object `jwk`, signature and claims are all acceptable, and success returns the proof's truthy `jti` claim |
| DpopVerify.VerifyDpopProof | internal-api/dpop_verify.py:6-74 | valid exactly when the proof parses, its header, signature and claims are all acceptable; valid iff error is None iff jti is present; a valid result carries the proof's own truthy `jti` |
| DpopVerify.HeaderChecksInOrder | internal-api/dpop_verify.py:24-31 | a bad `typ` gives "Invalid typ"; else a bad `alg` gives "Invalid alg"; else an absent `jwk` gives "Missing jwk"; each is `(False, msg, None)` |
| DpopVerify.NonObjectJwkRejected | internal-api/dpop_verify.py:34 | a `jwk` that is not a JSON object cannot be `**`-unpacked: the proof is rejected with the `TypeError` message "jwcrypto.jwk.JWK() argument after ** must be a mapping, not T", T the value's type name, whatever the library would say |
| DpopVerify.StrJwkMessage | internal-api/dpop_verify.py:34 | a string `jwk` gives exactly "jwcrypto.jwk.JWK() argument after ** must be a mapping, not str" |
| DpopVerify.BadSignatureRejected | internal-api/dpop_verify.py:34-38 | an object `jwk` that does not import, or a signature that does not verify under it, is a rejection carrying the library's message |
| DpopVerify.MalformedProofRejected | internal-api/dpop_verify.py:13-21 | a proof that does not deserialise is rejected with the parser's message and no `jti` |
| DpopVerify.ClaimsDecide | internal-api/dpop_verify.py:40-71 | once header and signature pass, the verdict is that of the claim checks |
| DpopVerify.MissingClaimRejected | internal-api/dpop_verify.py:41-48 | any of the five claims absent or falsy gives "Missing required claims", before the other claim checks |
| DpopVerify.EmptyOrZeroIsMissing | internal-api/dpop_verify.py:47-48 | an empty-string `jti` or `iat == 0` counts as missing |
| DpopVerify.HtmMustMatchExactly | internal-api/dpop_verify.py:51-52 | with all claims present, an `htm` other than the exact request method is an "htm mismatch" |
| DpopVerify.HtmIsCaseSensitive | internal-api/dpop_verify.py:51-52 | `htm` "get" against method "GET" gives "htm mismatch: get != GET" |
| DpopVerify.VerdictIgnoresQueryAndFragment | internal-api/dpop_verify.py:54-59 | request URLs with the same normal form get the same verdict |
| DpopVerify.HtuMustMatchAfterNormalisation | internal-api/dpop_verify.py:54-59 | with all claims present and `htm` matching, a string `htu` whose part before any `?` or `#` differs from the request URL's gives "htu mismatch" |
| DpopVerify.HtuNotStringRaises | internal-api/dpop_verify.py:56 | a truthy non-string `htu` raises `AttributeError`, caught and returned as "'T' object has no attribute 'split'" with T the value's type name |
| DpopVerify.HtuIntMessage | internal-api/dpop_verify.py:56 | an integer `htu` gives exactly "'int' object has no attribute 'split'" |
| DpopVerify.IatNotNumberRaises | internal-api/dpop_verify.py:62-63 | a truthy `iat` that is not an int or bool raises `TypeError` in `current_time - iat`, returned as "unsupported operand type(s) for -: 'int' and 'T'" with T the value's type name |
| DpopVerify.IatStrMessage | internal-api/dpop_verify.py:62-63 | a string `iat` gives exactly "unsupported operand type(s) for -: 'int' and 'str'" |
| DpopVerify.IatWindowExact | internal-api/dpop_verify.py:62-64 | with earlier checks passing, an integer `iat` is accepted exactly when it lies within 60 s before or after the server clock; otherwise the error is "iat too old or future" |
| DpopVerify.AthMustBindToken | internal-api/dpop_verify.py:67-69 | a fresh proof whose `ath` is not the hex SHA-256 of the presented token gives "ath mismatch" |
| JtiCache.KeyOf | internal-api/jti_cache.py:16 | a `jti` can be looked up exactly when it is not a list or a dict; otherwise `jti in self.cache` raises "unhashable type" |
| JtiCache.KeyIsPyEquality | internal-api/jti_cache.py:16-21 | two hashable `jti` values share a cache entry exactly when Python's `==` holds between them |
| JtiCache.KeyIdentityExamples | internal-api/jti_cache.py:16-21 | `True` and `1` are one key, as are `False` and `0`; `"1"` differs from `1`; `None` is its own key; a list is no key |
| JtiCache.Init | internal-api/jti_cache.py:7-9 | a new cache is empty with the given retention |
| JtiCache.Cleanup | internal-api/jti_cache.py:23-31 | drops exactly the entries with `now - ts > max_age`, keeps the others with their timestamps, and never adds a key |
| JtiCache.IsReplayed | internal-api/jti_cache.py:12-16 | reports whether the `jti` has a live entry, and leaves the cleaned cache |
| JtiCache.Add | internal-api/jti_cache.py:18-21 | the `jti` now maps to `now`, overwriting any earlier time; no other entry changes |
| JtiCache.CleanupIdempotent | internal-api/jti_cache.py:23-31 | cleaning twice at the same instant equals cleaning once |
| JtiCache.IsReplayedNeverInserts | internal-api/jti_cache.py:12-16 | looking up an absent `jti` reports false and does not insert it |
| JtiCache.AddedIsReplayedWithinMaxAge | internal-api/jti_cache.py:18-28 | after `add` at `t`, a lookup at any `now` with `now - t <= max_age` reports replayed |
| JtiCache.AddedExpiresAfterMaxAge | internal-api/jti_cache.py:23-31 | after `add` at `t`, a lookup with `now - t > max_age` reports not replayed and the entry is gone |
| JtiCache.CleanupEvolves | internal-api/jti_cache.py:12-16 | leaving the cache alone and a cleanup both keep every live entry and the retention; every entry a cleanup keeps was already in the cache with the same timestamp |
| JtiCache.RecordEvolves | internal-api/jti_cache.py:12-31 | a cleanup followed by an `add(jti)` at the same instant keeps every live entry; `jti` is present and stamped `now`; every other key is present exactly when the cleanup kept it, with the timestamp the cleanup left |
| Api.AccessToken | internal-api/api.py:66 | the access token is what follows "Bearer " in the Authorization header |
| Api.BearerToken | internal-api/api.py:61-66 | a request has a bearer token exactly when its Authorization header (empty when absent) starts with "Bearer ", and then the header is "Bearer " followed by the token |
| Api.ProofMissingIsFalsy | internal-api/api.py:67-69 | the proof counts as missing exactly when the DPoP header value is falsy in Python: absent (`None`) or the empty string |
| Api.ProtectedResource | internal-api/api.py:56-118 | the status is 200, 401, 403 or 500; 401 exactly when the Bearer prefix or the DPoP header is missing, and then the cache is untouched; the cache changes only for a request whose proof verified, and never drops a live entry; 200 means the proof verified and its `jti` was not live before and is now recorded at `now` |
| Api.NoBearerRejected | internal-api/api.py:61-64 | no "Bearer " prefix gives 401 "Missing authorization" whatever the verifiers would say, and the cache is untouched |
| Api.MissingProofRejected | internal-api/api.py:67-71 | an absent or empty DPoP header gives 401 "Missing DPoP proof" whatever the verifiers would say, and the cache is untouched |
| Api.TokenErrorRejected | internal-api/api.py:75-80 | an access-token error with a non-empty message gives 403 "Invalid token: " and the message, independent of the proof machinery, and the cache is untouched (`if error:` lets an empty message through) |
| Api.InvalidProofRejected | internal-api/api.py:84-94 | a rejected proof gives 403 "Invalid DPoP: " with the validator's message, and the cache is untouched |
| Api.ReplayRejected | internal-api/api.py:98-100 | a verified proof whose `jti` is live gives 403 "DPoP replay detected"; the only change to the cache is the lookup's cleanup |
| Api.FreshProofAccepted | internal-api/api.py:102-118 | a verified unseen proof with a decoded token gives 200 with `sub` and `act`; the cache is cleaned, then records the `jti` at `now` |
| Api.SecondPresentationRejected | internal-api/api.py:98-102 | a request served with 200 and presented again within `max_age` gets 403 |
| Orchestrator.NewSession | orchestrator/orchestrator.py:17-22 | a session starts with its one generated key and no cached token |
| Orchestrator.DpopHeader | orchestrator/orchestrator.py:78-82 | the header has exactly `typ`, `alg` and `jwk`, passes the validator's header checks, and carries the session's public JWK |
| Orchestrator.DpopClaims | orchestrator/orchestrator.py:84-90 | the claims are exactly the five: a 22-character URL-safe `jti`, the method and URL verbatim, an integer `iat` that is the clock truncated toward zero (so within a second of it), and `ath` equal to the digest the validator recomputes |
| Orchestrator.GenerateDpopProof | orchestrator/orchestrator.py:70-100 | with a sound library the proof, whatever the signature's random nonce, deserialises to exactly the built header and claims, and verifies under the session's public JWK |
| Orchestrator.Refresh | orchestrator/orchestrator.py:141-143 | a newly obtained token is cached with expiry at the acquisition time plus 240 s, and the key is kept |
| Orchestrator.OutgoingRequest | orchestrator/orchestrator.py:102-112 | the API call is a GET to the resource URL whose bearer token is the token and whose DPoP header is the proof |
| Orchestrator.CallWithToken | orchestrator/orchestrator.py:145-166 | the session is unchanged; the status is 500 when the call raises or a 200 body is not a JSON object, and otherwise the server's status |
| Orchestrator.RunStatus | orchestrator/orchestrator.py:131-166 | a failed acquisition reports 500; otherwise the run reports 500 exactly when the server said 500 or handling the reply raised, and else the server's status, for the request signed with the token the run chose |
| Orchestrator.RunRequest | orchestrator/orchestrator.py:118-169 | the key never changes; reuse leaves the session as it was; a failed acquisition gives status 500 with the session unchanged; a new token is cached with expiry plus 240 s |
| Orchestrator.CachedTokenSkipsAcquisition | orchestrator/orchestrator.py:133-135 | on reuse, token acquisition is not consulted and the cached token is presented |
| Orchestrator.UseCachedToken | orchestrator/orchestrator.py:133-134 | the cached token is reused only when one is cached and truthy, so a reused token is never empty |
| Orchestrator.ReuseWindow | orchestrator/orchestrator.py:133-143 | a token cached at `t` is reused exactly when the cache is asked for, the token is non-empty, and `now < t + 240` |
| Orchestrator.SessionKeyReused | orchestrator/orchestrator.py:17-18 | a run never changes the session key: a proof made after any run carries the session's original public JWK and verifies under it |
| Orchestrator.FailedCallIs500 | orchestrator/orchestrator.py:154-166 | when the one request the run sends raises, the status is 500 and the metrics are still returned with the session as it was |
| RoundTrip.GeneratedProofAcceptedIff | orchestrator/orchestrator.py:70-100 | a generated proof is valid for a request exactly when method, URL normal form and token digest match, the clocks are within 60 s, and `m`, `u`, `iat` are truthy; then its `jti` is returned |
| RoundTrip.ClientRequestServed | internal-api/api.py:84-118 | the orchestrator's request, with a valid token, agreeing clocks and an unseen `jti`, is served with 200, and the `jti` is recorded |
| RoundTrip.EntrySurvives | internal-api/jti_cache.py:23-31 | an entry stamped at or after `t1` survives any sequence of requests handled within `max_age` of `t1` |
| RoundTrip.ValidTwiceWithinWindow | internal-api/dpop_verify.py:62-64 | two server times at which one proof passes are less than 122 s apart |
| RoundTrip.SingleUse | internal-api/api.py:98-102 | with `max_age >= 122`, a proof served with 200 at `t1` is never served with 200 at a time `t2 >= t1` in any request carrying it (another URL query or fragment, method or token included), whatever requests were handled in between at times in `[t1, t2]` and whatever the access-token check answered for each |
| RoundTrip.DefaultRetentionSuffices | internal-api/jti_cache.py:7 | a server whose cache was created with the default 300 s, after any earlier requests, never serves the same proof with 200 twice, whichever request carries it, as long as the clock does not step backwards between the two |

## Left out

- Cryptography and JOSE encoding are not modelled: ES256 signing and
  verification, P-256 key generation, JWK import and export, SHA-256, and
  compact JWS and JSON (de)serialisation. They are fields of `Jose.Crypto`.
  `Jose.Sound` states the guarantees the round-trip results assume. Results
  that do not require `Sound` hold for any behaviour of these operations that
  depends only on their arguments.
- jwcrypto's `JWT(jwt=..., key=...)` also checks `exp` and `nbf` against the
  clock, with 60 s of leeway. `checkSignature` receives no clock, so a proof
  carrying `exp` or `nbf` is judged by a time-independent function.
  `Jose.Sound` promises verification only for claim sets without `exp` or
  `nbf`; generated proofs have neither.
- JSON numbers are integers. A float `iat`, including the `NaN` that
  `json.loads` accepts, is not modelled.
- Json.PyStr: `str()` of a list or dict `htm` in the "htm mismatch" message is
  abbreviated to `[...]` or `{...}`. Strings, integers, booleans and `None`
  render as Python does.
- The messages of library exceptions are opaque strings, supplied by the
  `Crypto` fields. Python's own `TypeError` and `AttributeError` messages are
  modelled verbatim.
- DpopVerify.NotAMapping: the `**` message follows CPython 3.10 and later.
  Earlier versions word it differently.
- Clock reads are simplified. The handler reads the clock three times; the
  model uses one instant `now` per request for the validator and both cache
  steps. Float rounding of `time.time()` is not modelled; times are exact reals.
- RoundTrip.SingleUse: assumes `time.time()` never steps backwards between the
  first and the second request (`t1 <= t2`, with every request in between at a
  time in `[t1, t2]`). The code does not guard against a clock that is set
  back, and the single-use result is not claimed for one.
- Concurrency is not modelled. `JTICache`'s lock and concurrent requests are
  left out. All results are about requests handled one at a time. No atomic
  check-and-insert is claimed, since the code has none.
- `verify_access_token` is not modelled beyond its two return shapes. This
  covers `get_jwks` and the PyJWT RS256 and `exp` checks behind it. It is the
  parameter `verifyAccessToken`.
- The Flask layer is not modelled: routing (GET and HEAD reach the handler, since Werkzeug adds HEAD to a GET rule; `httpMethod` is whichever arrived),
  `/health`, and app start-up. The timing fields and `"data": "Success"` of the
  success body are also left out, as are `print` logging and all millisecond
  metrics except `status`.
- `get_user_token`, `exchange_token` and `call_api` are HTTP calls. Their
  outcomes are the fields of `Orchestrator.Environment`.
- Orchestrator.GenerateDpopProof: a `make_signed_token` failure is not
  modelled; signing is total.
- The measurement scripts are not modelled: `orchestrator/experiments.py`,
  `results/analysis.py` and `results/analyze_for_paper.py`. They do CSV I/O,
  float statistics and table printing, and hold no protocol logic.
