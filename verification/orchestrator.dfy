/** The client side (`Orchestrator`): DPoP proof construction with the session's
    key, and the cached-token rule of one request run. Network calls, the clock
    and randomness are inputs. */
module Orchestrator {
  import opened Wrappers
  import opened Json
  import opened Jose
  import opened Clock
  import opened Base64Url
  import DpopVerify
  import Api

  /** How long an obtained token is reused: a 5-minute token less a 1-minute margin. */
  const TokenReuseSeconds: real := 240.0

  /** The path the orchestrator calls on the internal API. */
  const ResourcePath := "/api/resource"

  /** The session state of one orchestrator: its DPoP key pair and its token cache. */
  datatype Session = Session(dpopKey: SigningKey, cachedToken: Option<string>, tokenExpiry: real)

  /** `Orchestrator()`: the key pair generated once for the session (supplied,
      since key generation draws randomness), no cached token, expiry 0. */
  function NewSession(key: SigningKey): (s: Session)
    ensures s.dpopKey == key
    ensures !HasCachedToken(s)
  {
    Session(key, None, 0.0)
  }

  /** `self.cached_token` is truthy. */
  predicate HasCachedToken(s: Session) {
    s.cachedToken.Some? && s.cachedToken.value != ""
  }

  /** The proof header: the DPoP type, ES256, and the session's public JWK. */
  function DpopHeader(o: Crypto, key: SigningKey): (h: map<string, Json>)
    ensures h.Keys == {"typ", "alg", "jwk"}
    ensures DpopVerify.HeaderAcceptable(h)
    ensures h["jwk"] == o.exportPublic(key)
  {
    map["typ" := JStr(DpopVerify.DpopTyp), "alg" := JStr(DpopVerify.DpopAlg), "jwk" := o.exportPublic(key)]
  }

  /** The proof claims for a request at client time `now`, with `entropy` the
      16 random bytes behind `secrets.token_urlsafe(16)`. */
  function DpopClaims(o: Crypto, httpMethod: string, url: string, token: string,
                      entropy: seq<byte>, now: real): (c: map<string, Json>)
    requires |entropy| == JtiEntropyBytes
    ensures c.Keys == {"jti", "htm", "htu", "iat", "ath"}
    ensures c["jti"].JStr? && |c["jti"].s| == 22 && AllUrlSafe(c["jti"].s)
    ensures c["htm"] == JStr(httpMethod) && c["htu"] == JStr(url)
    ensures c["iat"] == JInt(Trunc(now)) && now - 1.0 < c["iat"].i as real < now + 1.0
    ensures c["ath"] == JStr(o.sha256Hex(token))
  {
    TruncClose(now);
    ClaimNamesDistinct();
    map["jti" := JStr(TokenUrlsafe(entropy)),
        "htm" := JStr(httpMethod),
        "htu" := JStr(url),
        "iat" := JInt(Trunc(now)),
        "ath" := JStr(o.sha256Hex(token))]
  }

  lemma ClaimNamesDistinct()
    ensures "jti" != "htm" && "jti" != "htu" && "jti" != "iat" && "jti" != "ath"
    ensures "htm" != "htu" && "htm" != "iat" && "htm" != "ath"
    ensures "htu" != "iat" && "htu" != "ath" && "iat" != "ath"
  {
    assert "htm"[2] != "htu"[2];
  }

  /** `generate_dpop_proof(method, url, access_token)`: the claims signed with the
      session key. A library meeting `Sound` decodes exactly that header and
      those claims from it, and its signature verifies under the session's JWK. */
  function GenerateDpopProof(o: Crypto, s: Session, httpMethod: string, url: string, token: string,
                             entropy: seq<byte>, nonce: nat, now: real): (proof: string)
    requires |entropy| == JtiEntropyBytes
    ensures Sound(o) ==>
              o.deserialize(proof) == Ok(Jws(DpopHeader(o, s.dpopKey),
                                             JObject(DpopClaims(o, httpMethod, url, token, entropy, now))))
    ensures Sound(o) ==> o.checkSignature(proof, o.exportPublic(s.dpopKey)) == None
  {
    NoTimeClaims(DpopClaims(o, httpMethod, url, token, entropy, now));
    o.sign(DpopHeader(o, s.dpopKey), DpopClaims(o, httpMethod, url, token, entropy, now), s.dpopKey, nonce)
  }

  /** The five DPoP claims include neither `exp` nor `nbf`. */
  lemma NoTimeClaims(c: map<string, Json>)
    requires c.Keys == {"jti", "htm", "htu", "iat", "ath"}
    ensures "exp" !in c && "nbf" !in c
  {
    assert forall k | k in c :: k[0] != 'e' && k[0] != 'n';
  }

  /** The reuse test of `run_request`: the cache is asked for, a truthy token is
      cached, and `now` is strictly before its expiry. */
  predicate UseCachedToken(s: Session, useCache: bool, now: real)
    ensures UseCachedToken(s, useCache, now) ==> s.cachedToken.Some? && s.cachedToken.value != ""
  {
    useCache && HasCachedToken(s) && now < s.tokenExpiry
  }

  /** The session after a newly obtained token is cached at `at`. */
  function Refresh(s: Session, token: string, at: real): (s': Session)
    ensures s'.dpopKey == s.dpopKey
    ensures s'.cachedToken == Some(token)
    ensures s'.tokenExpiry == at + TokenReuseSeconds
  {
    s.(cachedToken := Some(token), tokenExpiry := at + TokenReuseSeconds)
  }

  /** What `call_api` produced: a response (whose body may or may not decode to
      a JSON object) or a raised exception. */
  datatype ApiReply = Replied(status: int, bodyIsObject: bool) | CallFailed(message: string)

  /** Everything `run_request` takes from outside: the token acquisition
      (`get_user_token` then `exchange_token`; `Err` when either raises), the
      clock reads after acquisition and at proof generation, the random bytes
      behind the proof's `jti`, the signature's random ECDSA nonce, and the API
      call as a function of the request sent. */
  datatype Environment = Environment(
    acquire: Result<string, string>,
    acquiredAt: real,
    entropy: seq<byte>,
    nonce: nat,
    signedAt: real,
    call: Api.Request -> ApiReply)

  /** The request `call_api` sends: GET with the bearer token and the proof. */
  function OutgoingRequest(apiUrl: string, token: string, proof: string): (req: Api.Request)
    ensures req.httpMethod == "GET" && req.url == apiUrl + ResourcePath
    ensures Api.BearerToken(req) == Some(token)
    ensures req.dpop == Some(proof)
  {
    var auth := Api.BearerPrefix + token;
    assert auth[..7] == Api.BearerPrefix;
    Api.Request("GET", apiUrl + ResourcePath, Some(auth), Some(proof))
  }

  /** The `status` metric and the session after one request run. */
  datatype RunOutcome = RunOutcome(status: int, session: Session)

  /** The request a run sends with `token`: a proof for GET on the resource URL,
      signed with the session key at `env.signedAt`. */
  function SentRequest(o: Crypto, s: Session, token: string, apiUrl: string, env: Environment): Api.Request
    requires |env.entropy| == JtiEntropyBytes
  {
    var proof := GenerateDpopProof(o, s, "GET", apiUrl + ResourcePath, token, env.entropy, env.nonce, env.signedAt);
    OutgoingRequest(apiUrl, token, proof)
  }

  /** Whether handling `reply` raises inside the `try` of `run_request`: the call
      itself raised, or a 200 body is not a JSON object (`response.json()` or
      `data.get` raises). */
  predicate ReplyRaises(reply: ApiReply) {
    reply.CallFailed? || (reply.status == 200 && !reply.bodyIsObject)
  }

  /** The part of `run_request` after a token is chosen: proof, call, status.
      The status is the server's, except that anything raising reports 500. */
  function CallWithToken(o: Crypto, s: Session, token: string, apiUrl: string, env: Environment): (r: RunOutcome)
    requires |env.entropy| == JtiEntropyBytes
    ensures r.session == s
    ensures var reply := env.call(SentRequest(o, s, token, apiUrl, env));
            && (reply.CallFailed? ==> r.status == 500)
            && (reply.Replied? && reply.status == 200 && !reply.bodyIsObject ==> r.status == 500)
            && (!ReplyRaises(reply) ==> r.status == reply.status)
  {
    var proof := GenerateDpopProof(o, s, "GET", apiUrl + ResourcePath, token, env.entropy, env.nonce, env.signedAt);
    match env.call(OutgoingRequest(apiUrl, token, proof))
    case CallFailed(_) => RunOutcome(500, s)
    case Replied(status, bodyIsObject) =>
      // a 200 whose body does not decode raises in `response.json()` / `data.get`
      RunOutcome(if status == 200 && !bodyIsObject then 500 else status, s)
  }

  /** `run_request(use_cache)` at `now`: reuse the cached token or obtain and
      cache a new one, then sign a proof and call the API. Any exception on the
      way turns the status into 500; a failed acquisition leaves the session as it was. */
  function RunRequest(o: Crypto, s: Session, useCache: bool, now: real, apiUrl: string,
                      env: Environment): (r: RunOutcome)
    requires |env.entropy| == JtiEntropyBytes
    ensures r.session.dpopKey == s.dpopKey
    ensures UseCachedToken(s, useCache, now) ==> r.session == s
    ensures !UseCachedToken(s, useCache, now) && env.acquire.Err? ==> r == RunOutcome(500, s)
    ensures !UseCachedToken(s, useCache, now) && env.acquire.Ok? ==>
              r.session.cachedToken == Some(env.acquire.value)
              && r.session.tokenExpiry == env.acquiredAt + TokenReuseSeconds
  {
    if UseCachedToken(s, useCache, now) then
      CallWithToken(o, s, s.cachedToken.value, apiUrl, env)
    else
      match env.acquire
      case Err(_) => RunOutcome(500, s)
      case Ok(token) => CallWithToken(o, Refresh(s, token, env.acquiredAt), token, apiUrl, env)
  }

  /** When the cached token is reused, token acquisition is not consulted at all:
      the run is the same whatever acquisition would have returned, and the
      request presents the cached token. */
  lemma CachedTokenSkipsAcquisition(o: Crypto, s: Session, useCache: bool, now: real, apiUrl: string,
                                    env: Environment, other: Result<string, string>, otherAt: real)
    requires |env.entropy| == JtiEntropyBytes
    requires UseCachedToken(s, useCache, now)
    ensures RunRequest(o, s, useCache, now, apiUrl, env) ==
            RunRequest(o, s, useCache, now, apiUrl, env.(acquire := other, acquiredAt := otherAt))
    ensures RunRequest(o, s, useCache, now, apiUrl, env) == CallWithToken(o, s, s.cachedToken.value, apiUrl, env)
  {
  }

  /** A token cached at `at` is reused exactly until `at + 240`, exclusive, and
      only when the caller asks for the cache and the token is non-empty. */
  lemma ReuseWindow(s: Session, token: string, at: real, useCache: bool, now: real)
    ensures UseCachedToken(Refresh(s, token, at), useCache, now) <==>
              useCache && token != "" && now < at + TokenReuseSeconds
  {
  }

  /** Every proof of a session is signed with the one key generated at session
      start: runs never change the key, so a proof made after a run carries the
      session's original public JWK and verifies under it. */
  lemma SessionKeyReused(o: Crypto, s: Session, useCache: bool, now: real, apiUrl: string, env: Environment,
                         m: string, u: string, tok: string, entropy: seq<byte>, n: nat, t: real)
    requires Sound(o)
    requires |env.entropy| == JtiEntropyBytes && |entropy| == JtiEntropyBytes
    ensures RunRequest(o, s, useCache, now, apiUrl, env).session.dpopKey == s.dpopKey
    ensures var next := RunRequest(o, s, useCache, now, apiUrl, env).session;
            var proof := GenerateDpopProof(o, next, m, u, tok, entropy, n, t);
            && o.deserialize(proof).value.header["jwk"] == o.exportPublic(s.dpopKey)
            && o.checkSignature(proof, o.exportPublic(s.dpopKey)) == None
  {
  }

  /** The status `run_request` reports: 500 when token acquisition fails, else
      500 exactly when the server said 500 or handling the reply raised, and
      otherwise the server's status. The request is the one signed with the
      token the run chose. */
  lemma RunStatus(o: Crypto, s: Session, useCache: bool, now: real, apiUrl: string, env: Environment)
    requires |env.entropy| == JtiEntropyBytes
    ensures var r := RunRequest(o, s, useCache, now, apiUrl, env);
            && (!UseCachedToken(s, useCache, now) && env.acquire.Err? ==> r.status == 500)
            && (UseCachedToken(s, useCache, now) || env.acquire.Ok? ==>
                  var token := if UseCachedToken(s, useCache, now) then s.cachedToken.value else env.acquire.value;
                  var reply := env.call(SentRequest(o, s, token, apiUrl, env));
                  && (r.status == 500 <==> ReplyRaises(reply) || reply.status == 500)
                  && (!ReplyRaises(reply) ==> r.status == reply.status))
  {
    if !UseCachedToken(s, useCache, now) && env.acquire.Ok? {
      var s' := Refresh(s, env.acquire.value, env.acquiredAt);
      assert SentRequest(o, s', env.acquire.value, apiUrl, env) == SentRequest(o, s, env.acquire.value, apiUrl, env);
    }
  }

  /** An API call that raises is reported as status 500, and the metrics are
      still returned with the session as it was. */
  lemma FailedCallIs500(o: Crypto, s: Session, token: string, apiUrl: string, env: Environment)
    requires |env.entropy| == JtiEntropyBytes
    requires env.call(SentRequest(o, s, token, apiUrl, env)).CallFailed?
    ensures CallWithToken(o, s, token, apiUrl, env) == RunOutcome(500, s)
  {
  }
}
