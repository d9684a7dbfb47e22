/** The protected endpoint (`protected_resource`): an ordered gate over the
    request's `Authorization` and `DPoP` headers, the access-token check, the
    proof check and the replay check, mapping each outcome to an HTTP status
    and the replay cache it leaves behind. */
module Api {
  import opened Wrappers
  import opened Json
  import opened Jose
  import opened JtiCache
  import DpopVerify

  const BearerPrefix := "Bearer "

  /** The parts of an incoming request the handler reads: Flask's
      `request.method`, `request.url` (with its query string) and the two headers. */
  datatype Request = Request(httpMethod: string, url: string, authorization: Option<string>, dpop: Option<string>)

  /** `verify_access_token(token)`: `(decoded, None)` or `(None, error)`. The
      JWKS fetch and RS256 check behind it are not modelled. */
  datatype TokenCheck = Decoded(claims: map<string, Json>) | TokenError(message: string)

  datatype Body =
    | ErrorBody(error: string)
    | ResourceBody(subject: Json, actor: Json)
      /** Flask's reply to an exception escaping the handler. */
    | InternalError

  datatype Response = Response(status: int, body: Body)

  /** The response together with the replay cache after the request. */
  datatype Handled = Handled(response: Response, cache: Cache)

  predicate StartsWith(s: string, prefix: string) {
    |prefix| <= |s| && s[..|prefix|] == prefix
  }

  /** `request.headers.get('Authorization', '')`. */
  function Authorization(req: Request): string {
    req.authorization.GetOr("")
  }

  /** `auth_header[7:]` on a header that starts with "Bearer ": the token is
      what follows the prefix. */
  function AccessToken(auth: string): (token: string)
    requires StartsWith(auth, BearerPrefix)
    ensures BearerPrefix + token == auth
    ensures |token| == |auth| - 7
  {
    assert auth == auth[..7] + auth[7..];
    auth[7..]
  }

  /** The bearer token of a request, when its Authorization header has the prefix. */
  function BearerToken(req: Request): (r: Option<string>)
    ensures r.Some? <==> StartsWith(Authorization(req), BearerPrefix)
    ensures r.Some? ==> BearerPrefix + r.value == Authorization(req)
  {
    var auth := Authorization(req);
    if StartsWith(auth, BearerPrefix) then Some(AccessToken(auth)) else None
  }

  /** `if not dpop_proof`: the DPoP header is absent or empty. */
  predicate ProofMissing(req: Request) {
    req.dpop.None? || req.dpop.value == ""
  }

  /** A missing proof is exactly a falsy `request.headers.get('DPoP')`: `None`
      or the empty string. */
  lemma ProofMissingIsFalsy(req: Request)
    ensures ProofMissing(req) <==> !Truthy(if req.dpop.None? then JNull else JStr(req.dpop.value))
  {
  }

  /** The request gets as far as the proof check and its proof verifies. */
  predicate ProofVerifies(o: Crypto, req: Request, now: real) {
    && BearerToken(req).Some?
    && !ProofMissing(req)
    && DpopVerify.VerifyDpopProof(o, req.dpop.value, req.httpMethod, req.url, BearerToken(req).value, now).valid
  }

  /** The replay-cache key of the request's proof. */
  function ProofKey(o: Crypto, req: Request): Option<JtiKey> {
    KeyOf(DpopVerify.ClaimOf(o, req.dpop.GetOr(""), "jti"))
  }

  /** One request handled at server time `now`. */
  function ProtectedResource(o: Crypto, verifyAccessToken: string -> TokenCheck, cache: Cache,
                             req: Request, now: real): (out: Handled)
    ensures out.response.status in {200, 401, 403, 500}
    ensures out.response.status == 401 <==> BearerToken(req).None? || ProofMissing(req)
    ensures out.response.status == 401 ==> out.cache == cache
    ensures out.cache != cache ==> ProofVerifies(o, req, now)
    ensures Evolves(cache, out.cache, now)
    ensures out.response.status == 200 ==>
              && ProofVerifies(o, req, now)
              && ProofKey(o, req).Some?
              && var k := ProofKey(o, req).value;
              && !(k in cache.entries && !Expired(cache, cache.entries[k], now))
              && k in out.cache.entries && out.cache.entries[k] == now
  {
    var auth := Authorization(req);
    if !StartsWith(auth, BearerPrefix) then
      Handled(Response(401, ErrorBody("Missing authorization")), cache)
    else
      var token := AccessToken(auth);
      if ProofMissing(req) then
        Handled(Response(401, ErrorBody("Missing DPoP proof")), cache)
      else
        var checked := verifyAccessToken(token);
        // `if error:` tests the message's truthiness, so an empty message does not reject
        if checked.TokenError? && checked.message != "" then
          Handled(Response(403, ErrorBody("Invalid token: " + checked.message)), cache)
        else
          var v := DpopVerify.VerifyDpopProof(o, req.dpop.value, req.httpMethod, req.url, token, now);
          if !v.valid then
            Handled(Response(403, ErrorBody("Invalid DPoP: " + v.error.value)), cache)
          else
            CleanupEvolves(cache, now);
            match KeyOf(v.jti.value)
            case None =>
              // `jti in self.cache` raises after the cleanup has already run
              Handled(Response(500, InternalError), Cleanup(cache, now))
            case Some(k) =>
              var (replayed, cleaned) := IsReplayed(cache, k, now);
              if replayed then
                Handled(Response(403, ErrorBody("DPoP replay detected")), cleaned)
              else
                RecordEvolves(cache, k, now);
                var recorded := Add(cleaned, k, now);
                match checked
                case Decoded(claims) =>
                  Handled(Response(200, ResourceBody(Get(claims, "sub"), Get(claims, "act"))), recorded)
                case TokenError(_) =>
                  // `decoded_token` is None, so `decoded_token.get('sub')` raises
                  Handled(Response(500, InternalError), recorded)
  }

  /** Without the "Bearer " prefix the request is refused with 401 before any
      verification: the outcome depends on neither oracle and the cache is untouched. */
  lemma NoBearerRejected(o1: Crypto, o2: Crypto, v1: string -> TokenCheck, v2: string -> TokenCheck,
                         cache: Cache, req: Request, now: real)
    requires !StartsWith(Authorization(req), BearerPrefix)
    ensures ProtectedResource(o1, v1, cache, req, now) == ProtectedResource(o2, v2, cache, req, now)
    ensures ProtectedResource(o1, v1, cache, req, now) == Handled(Response(401, ErrorBody("Missing authorization")), cache)
  {
  }

  /** A missing or empty DPoP header is refused with 401, again before any verification. */
  lemma MissingProofRejected(o1: Crypto, o2: Crypto, v1: string -> TokenCheck, v2: string -> TokenCheck,
                             cache: Cache, req: Request, now: real)
    requires StartsWith(Authorization(req), BearerPrefix)
    requires ProofMissing(req)
    ensures ProtectedResource(o1, v1, cache, req, now) == ProtectedResource(o2, v2, cache, req, now)
    ensures ProtectedResource(o1, v1, cache, req, now) == Handled(Response(401, ErrorBody("Missing DPoP proof")), cache)
  {
  }

  /** An access-token error is a 403 decided before the proof is looked at: the
      outcome does not depend on the proof machinery and the cache is untouched. */
  lemma TokenErrorRejected(o1: Crypto, o2: Crypto, vat: string -> TokenCheck, cache: Cache, req: Request, now: real)
    requires BearerToken(req).Some? && !ProofMissing(req)
    requires vat(BearerToken(req).value).TokenError?
    requires vat(BearerToken(req).value).message != ""
    ensures ProtectedResource(o1, vat, cache, req, now) == ProtectedResource(o2, vat, cache, req, now)
    ensures ProtectedResource(o1, vat, cache, req, now) ==
              Handled(Response(403, ErrorBody("Invalid token: " + vat(BearerToken(req).value).message)), cache)
  {
  }

  /** Whether the access-token check lets the request through to the proof check. */
  predicate TokenPasses(vat: string -> TokenCheck, token: string) {
    !(vat(token).TokenError? && vat(token).message != "")
  }

  /** A rejected proof is a 403 that leaves the cache untouched: an invalid proof
      never consumes a `jti`. */
  lemma InvalidProofRejected(o: Crypto, vat: string -> TokenCheck, cache: Cache, req: Request, now: real)
    requires BearerToken(req).Some? && !ProofMissing(req)
    requires TokenPasses(vat, BearerToken(req).value)
    requires !ProofVerifies(o, req, now)
    ensures var v := DpopVerify.VerifyDpopProof(o, req.dpop.value, req.httpMethod, req.url, BearerToken(req).value, now);
            ProtectedResource(o, vat, cache, req, now) ==
            Handled(Response(403, ErrorBody("Invalid DPoP: " + v.error.value)), cache)
  {
  }

  /** A verified proof whose `jti` is live in the cache is a replay: 403, and the
      only change to the cache is the cleanup the lookup performed. */
  lemma ReplayRejected(o: Crypto, vat: string -> TokenCheck, cache: Cache, req: Request, now: real)
    requires ProofVerifies(o, req, now)
    requires TokenPasses(vat, BearerToken(req).value)
    requires ProofKey(o, req).Some?
    requires var k := ProofKey(o, req).value; k in cache.entries && !Expired(cache, cache.entries[k], now)
    ensures ProtectedResource(o, vat, cache, req, now) ==
            Handled(Response(403, ErrorBody("DPoP replay detected")), Cleanup(cache, now))
  {
  }

  /** A verified, unseen proof with a valid token is served with 200; the cache
      is cleaned and then maps the proof's `jti` to `now`. */
  lemma FreshProofAccepted(o: Crypto, vat: string -> TokenCheck, cache: Cache, req: Request, now: real)
    requires ProofVerifies(o, req, now)
    requires vat(BearerToken(req).value).Decoded?
    requires ProofKey(o, req).Some?
    requires var k := ProofKey(o, req).value; !(k in cache.entries && !Expired(cache, cache.entries[k], now))
    ensures var claims := vat(BearerToken(req).value).claims;
            ProtectedResource(o, vat, cache, req, now) ==
            Handled(Response(200, ResourceBody(Get(claims, "sub"), Get(claims, "act"))),
                    Add(Cleanup(cache, now), ProofKey(o, req).value, now))
  {
  }

  /** The same request presented again no more than `maxAge` after it was
      served is refused with 403, whether or not its proof still verifies. */
  lemma SecondPresentationRejected(o: Crypto, vat: string -> TokenCheck, cache: Cache, req: Request,
                                   t1: real, t2: real)
    requires ProtectedResource(o, vat, cache, req, t1).response.status == 200
    requires t2 - t1 <= cache.maxAge
    ensures var after := ProtectedResource(o, vat, cache, req, t1).cache;
            ProtectedResource(o, vat, after, req, t2).response.status == 403
  {
  }
}
