/** Results that connect the client and the server: a proof built by the
    orchestrator passes the validator exactly for the request it was built for,
    the handler serves it once, and the replay cache keeps its `jti` for as long
    as the freshness window could still accept it. */
module RoundTrip {
  import opened Wrappers
  import opened Json
  import opened Jose
  import opened Clock
  import opened Base64Url
  import opened JtiCache
  import Uri
  import DpopVerify
  import Api
  import Orchestrator

  /** A proof made by `GenerateDpopProof` at client time `tc` for method `m`,
      URL `u` and token `tok` is accepted at server time `ts`, with its own
      `jti`, exactly when the request has the same method, a URL with the same
      part before any query or fragment, a token with the same digest, the two
      clocks are within 60 s, and none of `m`, `u`, `iat` is falsy. */
  lemma {:induction false} GeneratedProofAcceptedIff(
    o: Crypto, s: Orchestrator.Session, m: string, u: string, tok: string, entropy: seq<byte>, n: nat, tc: real,
    m': string, u': string, tok': string, ts: real)
    requires Sound(o)
    requires |entropy| == JtiEntropyBytes
    ensures var proof := Orchestrator.GenerateDpopProof(o, s, m, u, tok, entropy, n, tc);
            var v := DpopVerify.VerifyDpopProof(o, proof, m', u', tok', ts);
            && (v.valid <==>
                  && m' == m && m != ""
                  && u != "" && Uri.Normalize(u') == Uri.Normalize(u)
                  && o.sha256Hex(tok') == o.sha256Hex(tok)
                  && Trunc(tc) != 0
                  && Abs(Trunc(ts) - Trunc(tc)) <= DpopVerify.IatWindow)
            && (v.valid ==> v.jti == Some(JStr(TokenUrlsafe(entropy))))
  {
    var proof := Orchestrator.GenerateDpopProof(o, s, m, u, tok, entropy, n, tc);
    var h := Orchestrator.DpopHeader(o, s.dpopKey);
    var c := Orchestrator.DpopClaims(o, m, u, tok, entropy, tc);
    assert o.deserialize(proof) == Ok(Jws(h, JObject(c)));
    assert o.checkSignature(proof, h["jwk"]) == None;
    assert DpopVerify.HeaderAndSignaturePass(o, proof);
    DpopVerify.ClaimsDecide(o, proof, m', u', tok', ts);
    DpopVerify.AllPresentIff(c);
    assert LowerHexDigest(o.sha256Hex(tok));
    assert Truthy(c["ath"]);
    assert Truthy(c["jti"]);
  }

  /** A request the orchestrator sends, seen by the server with the URL it
      resolved (same part before any query or fragment), is served with 200
      when the token verifies, the clocks agree within 60 s and the `jti` is
      not live; the cache then maps that `jti` to the server time. */
  lemma ClientRequestServed(
    o: Crypto, vat: string -> Api.TokenCheck, cache: Cache, s: Orchestrator.Session,
    apiUrl: string, serverUrl: string, tok: string, entropy: seq<byte>, n: nat, tc: real, ts: real)
    requires Sound(o)
    requires |entropy| == JtiEntropyBytes
    requires Uri.Normalize(serverUrl) == Uri.Normalize(apiUrl + Orchestrator.ResourcePath)
    requires Trunc(tc) != 0 && Abs(Trunc(ts) - Trunc(tc)) <= DpopVerify.IatWindow
    requires vat(tok).Decoded?
    requires var k := StrKey(TokenUrlsafe(entropy)); !(k in cache.entries && !Expired(cache, cache.entries[k], ts))
    ensures var proof := Orchestrator.GenerateDpopProof(o, s, "GET", apiUrl + Orchestrator.ResourcePath, tok, entropy, n, tc);
            var req := Orchestrator.OutgoingRequest(apiUrl, tok, proof).(url := serverUrl);
            var out := Api.ProtectedResource(o, vat, cache, req, ts);
            && out.response.status == 200
            && out.cache == Add(Cleanup(cache, ts), StrKey(TokenUrlsafe(entropy)), ts)
  {
    var url := apiUrl + Orchestrator.ResourcePath;
    var proof := Orchestrator.GenerateDpopProof(o, s, "GET", url, tok, entropy, n, tc);
    var req := Orchestrator.OutgoingRequest(apiUrl, tok, proof).(url := serverUrl);
    assert Api.BearerToken(req) == Some(tok) by {
      assert Api.Authorization(req) == Api.Authorization(Orchestrator.OutgoingRequest(apiUrl, tok, proof));
    }
    assert url != "" by {
      assert |url| >= |Orchestrator.ResourcePath|;
    }
    GeneratedProofAcceptedIff(o, s, "GET", url, tok, entropy, n, tc, "GET", serverUrl, tok, ts);
    assert Api.ProofVerifies(o, req, ts);
    assert DpopVerify.ClaimOf(o, proof, "jti") == JStr(TokenUrlsafe(entropy));
    Api.FreshProofAccepted(o, vat, cache, req, ts);
  }

  /** One request as the server handles it: the request, the server time, and
      the access-token check as it answers at that time (keys rotate and tokens
      expire, so it may differ from request to request). */
  datatype Arrival = Arrival(req: Api.Request, at: real, vat: string -> Api.TokenCheck)

  /** The replay cache after serving `reqs` in order, each at its own server time. */
  function ServeAll(o: Crypto, cache: Cache, reqs: seq<Arrival>): (c: Cache)
    ensures c.maxAge == cache.maxAge
    decreases |reqs|
  {
    if reqs == [] then cache
    else ServeAll(o, Api.ProtectedResource(o, reqs[0].vat, cache, reqs[0].req, reqs[0].at).cache, reqs[1..])
  }

  /** All requests are handled at times in `[lo, hi]`. */
  predicate TimesWithin(reqs: seq<Arrival>, lo: real, hi: real) {
    forall i :: 0 <= i < |reqs| ==> lo <= reqs[i].at <= hi
  }

  /** An entry stamped at or after `t1` survives any sequence of requests handled
      no later than `maxAge` after `t1`, and stays stamped at or after `t1`. */
  lemma {:induction false} EntrySurvives(o: Crypto, cache: Cache, reqs: seq<Arrival>, k: JtiKey, t1: real)
    requires k in cache.entries && cache.entries[k] >= t1
    requires TimesWithin(reqs, t1, t1 + cache.maxAge)
    ensures k in ServeAll(o, cache, reqs).entries
    ensures ServeAll(o, cache, reqs).entries[k] >= t1
    decreases |reqs|
  {
    if reqs != [] {
      var t := reqs[0].at;
      assert t1 <= t <= t1 + cache.maxAge;
      var next := Api.ProtectedResource(o, reqs[0].vat, cache, reqs[0].req, t).cache;
      assert !Expired(cache, cache.entries[k], t);
      assert k in next.entries && next.entries[k] >= t1;
      assert TimesWithin(reqs[1..], t1, t1 + next.maxAge) by {
        forall i | 0 <= i < |reqs[1..]|
          ensures t1 <= reqs[1..][i].at <= t1 + next.maxAge
        {
          assert reqs[1..][i] == reqs[i + 1];
        }
      }
      EntrySurvives(o, next, reqs[1..], k, t1);
    }
  }

  /** Two server times at which the same proof passes the validator are less
      than 2 * 60 + 2 seconds apart (60 s either side of `iat`, plus a second of
      truncation on each clock read). */
  lemma ValidTwiceWithinWindow(o: Crypto, proof: string, m1: string, u1: string, tok1: string, t1: real,
                               m2: string, u2: string, tok2: string, t2: real)
    requires DpopVerify.VerifyDpopProof(o, proof, m1, u1, tok1, t1).valid
    requires DpopVerify.VerifyDpopProof(o, proof, m2, u2, tok2, t2).valid
    ensures t2 - t1 < (2 * DpopVerify.IatWindow + 2) as real
  {
    var iat := AsNumber(Get(o.deserialize(proof).value.claims.fields, "iat")).value;
    assert Trunc(t2) <= iat + DpopVerify.IatWindow;
    assert iat - DpopVerify.IatWindow <= Trunc(t1);
    TruncClose(t1);
    TruncClose(t2);
  }

  /** The retention the replay cache needs for the freshness window: 122 s.
      `JTICache()`'s default of 300 s meets it. */
  const RetentionNeeded: real := (2 * DpopVerify.IatWindow + 2) as real

  /** Single use: with a retention of at least `RetentionNeeded`, a proof that
      was served with 200 at `t1` is never served with 200 again at a later `t2`,
      in any request that carries it (another query string, fragment, method or
      token included), whatever other requests the server handled in between (at
      times in `[t1, t2]`) and however the access-token check answers meanwhile.
      Either the proof no longer passes the freshness check, or its `jti` is
      still in the cache. Requests are handled one at a time, and the server
      clock does not step backwards (`t1 <= t2`, with the requests in between
      inside `[t1, t2]`). */
  lemma {:induction false} SingleUse(o: Crypto, cache: Cache, first: Arrival, rest: seq<Arrival>, second: Arrival)
    requires cache.maxAge >= RetentionNeeded
    requires Api.ProtectedResource(o, first.vat, cache, first.req, first.at).response.status == 200
    requires first.at <= second.at && TimesWithin(rest, first.at, second.at)
    requires second.req.dpop == first.req.dpop
    ensures var later := ServeAll(o, Api.ProtectedResource(o, first.vat, cache, first.req, first.at).cache, rest);
            Api.ProtectedResource(o, second.vat, later, second.req, second.at).response.status != 200
  {
    var req, t1, req2, t2 := first.req, first.at, second.req, second.at;
    var served := Api.ProtectedResource(o, first.vat, cache, req, t1);
    var later := ServeAll(o, served.cache, rest);
    var k := Api.ProofKey(o, req).value;
    if Api.ProtectedResource(o, second.vat, later, req2, t2).response.status == 200 {
      assert Api.ProofKey(o, req2) == Api.ProofKey(o, req);
      ValidTwiceWithinWindow(o, req.dpop.value, req.httpMethod, req.url, Api.BearerToken(req).value, t1,
                             req2.httpMethod, req2.url, Api.BearerToken(req2).value, t2);
      assert TimesWithin(rest, t1, t1 + served.cache.maxAge);
      EntrySurvives(o, served.cache, rest, k, t1);
      assert false;
    }
  }

  /** Single use for the server as deployed: a cache created by `JTICache()`
      (300 s) and then fed any earlier requests `before` never serves the same
      proof with 200 twice, whichever request carries it the second time. */
  lemma DefaultRetentionSuffices(o: Crypto, before: seq<Arrival>, first: Arrival, rest: seq<Arrival>,
                                 second: Arrival)
    requires var cache := ServeAll(o, Init(DefaultMaxAge), before);
             Api.ProtectedResource(o, first.vat, cache, first.req, first.at).response.status == 200
    requires first.at <= second.at && TimesWithin(rest, first.at, second.at)
    requires second.req.dpop == first.req.dpop
    ensures var cache := ServeAll(o, Init(DefaultMaxAge), before);
            var later := ServeAll(o, Api.ProtectedResource(o, first.vat, cache, first.req, first.at).cache, rest);
            Api.ProtectedResource(o, second.vat, later, second.req, second.at).response.status != 200
  {
    var cache := ServeAll(o, Init(DefaultMaxAge), before);
    SingleUse(o, cache, first, rest, second);
  }
}
