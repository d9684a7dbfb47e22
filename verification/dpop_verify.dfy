/** The server-side DPoP proof validator (`verify_dpop_proof`): a fixed chain of
    checks over the proof's header and claims against the live request, where
    the first failing check decides the error message. It has no state and
    never consults the replay cache. */
module DpopVerify {
  import opened Wrappers
  import opened Json
  import opened Jose
  import opened Clock
  import Uri

  const DpopTyp := "dpop+jwt"
  const DpopAlg := "ES256"

  /** Largest accepted distance, in seconds, between the server clock and `iat`. */
  const IatWindow := 60

  /** The claims that must be present and truthy, in the order the source lists them. */
  const RequiredClaims := ["jti", "htm", "htu", "iat", "ath"]

  /** Why a proof was rejected. `Raised` stands for an exception caught by the
      validator's `except Exception as e`, carrying `str(e)`. */
  datatype Reason =
    | Raised(message: string)
    | InvalidTyp
    | InvalidAlg
    | MissingJwk
    | MissingClaims
    | HtmMismatch(htm: Json, httpMethod: string)
    | HtuMismatch
    | IatOutOfWindow
    | AthMismatch

  /** The error string the validator returns for each reason. */
  function Message(r: Reason): (m: string)
    ensures m == "" ==> r.Raised?
  {
    match r
    case Raised(m) => m
    case InvalidTyp => "Invalid typ"
    case InvalidAlg => "Invalid alg"
    case MissingJwk => "Missing jwk"
    case MissingClaims => "Missing required claims"
    case HtmMismatch(htm, httpMethod) => "htm mismatch: " + PyStr(htm) + " != " + httpMethod
    case HtuMismatch => "htu mismatch"
    case IatOutOfWindow => "iat too old or future"
    case AthMismatch => "ath mismatch"
  }

  /** Apart from a caught exception, the message names its reason: two
      rejections with the same message have the same reason, except that an `htm`
      mismatch is only told apart from the fixed-text reasons. */
  lemma MessageIdentifiesReason(r1: Reason, r2: Reason)
    requires !r1.Raised? && !r2.Raised?
    requires Message(r1) == Message(r2)
    ensures r1.HtmMismatch? <==> r2.HtmMismatch?
    ensures !r1.HtmMismatch? ==> r1 == r2
  {
    MessageHead(r1);
    MessageHead(r2);
  }

  /** The first three letters of a message tell an `htm` mismatch apart. */
  lemma MessageHead(r: Reason)
    requires !r.Raised?
    ensures |Message(r)| >= 11
    ensures r.HtmMismatch? <==> Message(r)[..3] == "htm"
  {
    var m := Message(r);
    if r.HtmMismatch? {
      assert m == "htm mismatch: " + (PyStr(r.htm) + " != " + r.httpMethod);
    } else {
      assert m[0] != 'h' || m[2] != 'm';
    }
  }

  /** The `TypeError` message of `int - iat` for a non-numeric `iat` (one whose
      `AsNumber` is `None`). */
  function UnsupportedMinus(iat: Json): string {
    "unsupported operand type(s) for -: 'int' and '" + TypeName(iat) + "'"
  }

  /** The `TypeError` message of `jwk.JWK(**j)` for a `jwk` that is not an
      object, as CPython 3.10 and later word it. */
  function NotAMapping(j: Json): string {
    "jwcrypto.jwk.JWK() argument after ** must be a mapping, not " + TypeName(j)
  }

  predicate AllPresent(claims: map<string, Json>) {
    forall i :: 0 <= i < |RequiredClaims| ==> Truthy(Get(claims, RequiredClaims[i]))
  }

  /** `all([jti, htm, htu, iat, ath])`, spelt out claim by claim. */
  lemma AllPresentIff(claims: map<string, Json>)
    ensures AllPresent(claims) <==>
      Truthy(Get(claims, "jti")) && Truthy(Get(claims, "htm")) && Truthy(Get(claims, "htu"))
      && Truthy(Get(claims, "iat")) && Truthy(Get(claims, "ath"))
  {
    if Truthy(Get(claims, "jti")) && Truthy(Get(claims, "htm")) && Truthy(Get(claims, "htu"))
       && Truthy(Get(claims, "iat")) && Truthy(Get(claims, "ath"))
    {
      forall i | 0 <= i < |RequiredClaims|
        ensures Truthy(Get(claims, RequiredClaims[i]))
      {
        assert RequiredClaims[i] in {"jti", "htm", "htu", "iat", "ath"};
      }
    } else {
      assert !Truthy(Get(claims, RequiredClaims[0])) || !Truthy(Get(claims, RequiredClaims[1]))
        || !Truthy(Get(claims, RequiredClaims[2])) || !Truthy(Get(claims, RequiredClaims[3]))
        || !Truthy(Get(claims, RequiredClaims[4]));
    }
  }

  /** Order-free statement of what an acceptable claim set is. */
  predicate ClaimsAcceptable(claims: map<string, Json>, httpMethod: string, uri: string,
                             expectedAth: string, currentTime: int)
  {
    && AllPresent(claims)
    && Get(claims, "htm") == JStr(httpMethod)
    && Get(claims, "htu").JStr?
    && Uri.Normalize(Get(claims, "htu").s) == Uri.Normalize(uri)
    && AsNumber(Get(claims, "iat")).Some?
    && currentTime - IatWindow <= AsNumber(Get(claims, "iat")).value <= currentTime + IatWindow
    && Get(claims, "ath") == JStr(expectedAth)
  }

  /** The claim checks of the validator, in source order: completeness, `htm`,
      `htu` after normalisation, the `iat` window, then the `ath` binding.
      `currentTime` is the server's `int(time.time())`. */
  function CheckClaims(claims: map<string, Json>, httpMethod: string, uri: string,
                       expectedAth: string, currentTime: int): (r: Result<Json, Reason>)
    ensures r.Ok? <==> ClaimsAcceptable(claims, httpMethod, uri, expectedAth, currentTime)
    ensures r.Ok? ==> r.value == Get(claims, "jti") && Truthy(r.value)
  {
    AllPresentIff(claims);
    var jti, htm, htu, iat, ath :=
      Get(claims, "jti"), Get(claims, "htm"), Get(claims, "htu"), Get(claims, "iat"), Get(claims, "ath");
    if !(Truthy(jti) && Truthy(htm) && Truthy(htu) && Truthy(iat) && Truthy(ath)) then
      Err(MissingClaims)
    else if htm != JStr(httpMethod) then
      Err(HtmMismatch(htm, httpMethod))
    else if !htu.JStr? then
      Err(Raised(NoAttribute(htu, "split")))
    else if Uri.Normalize(htu.s) != Uri.Normalize(uri) then
      Err(HtuMismatch)
    else if AsNumber(iat).None? then
      Err(Raised(UnsupportedMinus(iat)))
    else if Abs(currentTime - AsNumber(iat).value) > IatWindow then
      Err(IatOutOfWindow)
    else if ath != JStr(expectedAth) then
      Err(AthMismatch)
    else
      Ok(jti)
  }

  /** The header checks `typ`, `alg` and presence of `jwk`, without their order. */
  predicate HeaderAcceptable(h: map<string, Json>) {
    Get(h, "typ") == JStr(DpopTyp) && Get(h, "alg") == JStr(DpopAlg) && "jwk" in h
  }

  /** Order-free statement of what an acceptable proof is. */
  predicate Acceptable(o: Crypto, proof: string, httpMethod: string, uri: string, token: string, now: real) {
    && o.deserialize(proof).Ok?
    && HeaderAcceptable(o.deserialize(proof).value.header)
    && o.deserialize(proof).value.header["jwk"].JObject?
    && o.checkSignature(proof, o.deserialize(proof).value.header["jwk"]).None?
    && o.deserialize(proof).value.claims.JObject?
    && ClaimsAcceptable(o.deserialize(proof).value.claims.fields, httpMethod, uri,
                        o.sha256Hex(token), Trunc(now))
  }

  /** The full check chain: parse, header, signature under the embedded key,
      then the claims. */
  function CheckProof(o: Crypto, proof: string, httpMethod: string, uri: string, token: string,
                      now: real): (r: Result<Json, Reason>)
    ensures r.Ok? <==> Acceptable(o, proof, httpMethod, uri, token, now)
    ensures r.Ok? ==> r.value == ClaimOf(o, proof, "jti") && Truthy(r.value)
  {
    match o.deserialize(proof)
    case Err(e) => Err(Raised(e))
    case Ok(jws) =>
      var h := jws.header;
      if Get(h, "typ") != JStr(DpopTyp) then Err(InvalidTyp)
      else if Get(h, "alg") != JStr(DpopAlg) then Err(InvalidAlg)
      else if "jwk" !in h then Err(MissingJwk)
      else if !h["jwk"].JObject? then Err(Raised(NotAMapping(h["jwk"])))
      else if o.checkSignature(proof, h["jwk"]).Some? then
        Err(Raised(o.checkSignature(proof, h["jwk"]).value))
      else if !jws.claims.JObject? then
        Err(Raised(NoAttribute(jws.claims, "get")))
      else
        CheckClaims(jws.claims.fields, httpMethod, uri, o.sha256Hex(token), Trunc(now))
  }

  /** The validator's `(is_valid, error_message, jti)` triple. */
  datatype Verdict = Verdict(valid: bool, error: Option<string>, jti: Option<Json>)

  /** The claim `name` of a proof that parses to a claim object (`None` otherwise). */
  function ClaimOf(o: Crypto, proof: string, name: string): Json {
    match o.deserialize(proof)
    case Ok(Jws(_, JObject(c))) => Get(c, name)
    case _ => JNull
  }

  /** `verify_dpop_proof(dpop_proof, http_method, http_uri, access_token)` at
      server time `now`. */
  function VerifyDpopProof(o: Crypto, proof: string, httpMethod: string, uri: string,
                           token: string, now: real): (v: Verdict)
    ensures v.valid <==> Acceptable(o, proof, httpMethod, uri, token, now)
    ensures v.valid <==> v.error.None?
    ensures v.valid <==> v.jti.Some?
    ensures v.valid ==> v.jti == Some(ClaimOf(o, proof, "jti")) && Truthy(v.jti.value)
  {
    match CheckProof(o, proof, httpMethod, uri, token, now)
    case Ok(jti) => Verdict(true, None, Some(jti))
    case Err(r) => Verdict(false, Some(Message(r)), None)
  }

  /** A proof whose header and signature pass is decided by its claims alone. */
  predicate HeaderAndSignaturePass(o: Crypto, proof: string) {
    && o.deserialize(proof).Ok?
    && HeaderAcceptable(o.deserialize(proof).value.header)
    && o.deserialize(proof).value.header["jwk"].JObject?
    && o.checkSignature(proof, o.deserialize(proof).value.header["jwk"]).None?
    && o.deserialize(proof).value.claims.JObject?
  }

  function Render(r: Result<Json, Reason>): Verdict {
    match r
    case Ok(jti) => Verdict(true, None, Some(jti))
    case Err(e) => Verdict(false, Some(Message(e)), None)
  }

  /** The three header checks run in order, each rejecting with its own message
      and no `jti`. */
  lemma HeaderChecksInOrder(o: Crypto, proof: string, httpMethod: string, uri: string,
                            token: string, now: real)
    requires o.deserialize(proof).Ok?
    ensures var h := o.deserialize(proof).value.header;
            var v := VerifyDpopProof(o, proof, httpMethod, uri, token, now);
            && (Get(h, "typ") != JStr(DpopTyp) ==> v == Verdict(false, Some("Invalid typ"), None))
            && (Get(h, "typ") == JStr(DpopTyp) && Get(h, "alg") != JStr(DpopAlg) ==>
                  v == Verdict(false, Some("Invalid alg"), None))
            && (Get(h, "typ") == JStr(DpopTyp) && Get(h, "alg") == JStr(DpopAlg) && "jwk" !in h ==>
                  v == Verdict(false, Some("Missing jwk"), None))
  {
  }

  /** A `jwk` that is not a JSON object (`null`, a string, a number, a list)
      cannot be `**`-unpacked: Python raises `TypeError` before the library
      sees it, so the proof is rejected whatever the library would say. */
  lemma NonObjectJwkRejected(o: Crypto, proof: string, httpMethod: string, uri: string,
                             token: string, now: real)
    requires o.deserialize(proof).Ok?
    requires HeaderAcceptable(o.deserialize(proof).value.header)
    requires !o.deserialize(proof).value.header["jwk"].JObject?
    ensures VerifyDpopProof(o, proof, httpMethod, uri, token, now) ==
      Verdict(false, Some(NotAMapping(o.deserialize(proof).value.header["jwk"])), None)
  {
  }

  /** A string `jwk` gives exactly
      "jwcrypto.jwk.JWK() argument after ** must be a mapping, not str". */
  lemma StrJwkMessage(j: Json)
    requires j.JStr?
    ensures NotAMapping(j) == "jwcrypto.jwk.JWK() argument after ** must be a mapping, not str"
  {
    StrJwkLiteral();
  }

  lemma StrJwkLiteral()
    ensures "jwcrypto.jwk.JWK() argument after ** must be a mapping, not " + "str" ==
            "jwcrypto.jwk.JWK() argument after ** must be a mapping, not str"
  {
  }

  /** An object `jwk` that does not import, or a signature that does not verify
      under it, is a rejection carrying the library's message, never an
      escaping error. */
  lemma BadSignatureRejected(o: Crypto, proof: string, httpMethod: string, uri: string,
                             token: string, now: real)
    requires o.deserialize(proof).Ok?
    requires HeaderAcceptable(o.deserialize(proof).value.header)
    requires o.deserialize(proof).value.header["jwk"].JObject?
    requires o.checkSignature(proof, o.deserialize(proof).value.header["jwk"]).Some?
    ensures VerifyDpopProof(o, proof, httpMethod, uri, token, now) ==
      Verdict(false, Some(o.checkSignature(proof, o.deserialize(proof).value.header["jwk"]).value), None)
  {
  }

  /** An unparsable proof is rejected with the parser's message. */
  lemma MalformedProofRejected(o: Crypto, proof: string, httpMethod: string, uri: string,
                               token: string, now: real)
    requires o.deserialize(proof).Err?
    ensures VerifyDpopProof(o, proof, httpMethod, uri, token, now) ==
      Verdict(false, Some(o.deserialize(proof).error), None)
  {
  }

  /** Once header and signature pass, the verdict is that of the claim checks. */
  lemma ClaimsDecide(o: Crypto, proof: string, httpMethod: string, uri: string, token: string, now: real)
    requires HeaderAndSignaturePass(o, proof)
    ensures VerifyDpopProof(o, proof, httpMethod, uri, token, now) ==
      Render(CheckClaims(o.deserialize(proof).value.claims.fields, httpMethod, uri, o.sha256Hex(token), Trunc(now)))
  {
  }

  /** Any required claim that is absent or falsy (`""`, `0`, `False`, `null`,
      `[]`, `{}`) gives "Missing required claims", before any other claim check. */
  lemma MissingClaimRejected(claims: map<string, Json>, httpMethod: string, uri: string,
                             expectedAth: string, currentTime: int, name: string)
    requires name in RequiredClaims
    requires !Truthy(Get(claims, name))
    ensures CheckClaims(claims, httpMethod, uri, expectedAth, currentTime) == Err(MissingClaims)
  {
  }

  /** The empty string and `iat == 0` count as missing. */
  lemma EmptyOrZeroIsMissing(claims: map<string, Json>, httpMethod: string, uri: string,
                             expectedAth: string, currentTime: int)
    requires Get(claims, "jti") == JStr("") || Get(claims, "iat") == JInt(0)
    ensures Message(CheckClaims(claims, httpMethod, uri, expectedAth, currentTime).error) == "Missing required claims"
  {
    if Get(claims, "jti") == JStr("") {
      MissingClaimRejected(claims, httpMethod, uri, expectedAth, currentTime, "jti");
    } else {
      MissingClaimRejected(claims, httpMethod, uri, expectedAth, currentTime, "iat");
    }
  }

  /** With all claims present, `htm` must be the request method exactly:
      no case folding, no trimming. */
  lemma HtmMustMatchExactly(claims: map<string, Json>, httpMethod: string, uri: string,
                            expectedAth: string, currentTime: int)
    requires AllPresent(claims)
    requires Get(claims, "htm") != JStr(httpMethod)
    ensures CheckClaims(claims, httpMethod, uri, expectedAth, currentTime) ==
      Err(HtmMismatch(Get(claims, "htm"), httpMethod))
  {
    AllPresentIff(claims);
  }

  /** A lowercase `htm` does not match an uppercase request method. */
  lemma HtmIsCaseSensitive(claims: map<string, Json>, uri: string, expectedAth: string, currentTime: int)
    requires AllPresent(claims)
    requires Get(claims, "htm") == JStr("get")
    ensures Message(CheckClaims(claims, "GET", uri, expectedAth, currentTime).error) == "htm mismatch: get != GET"
  {
    HtmMustMatchExactly(claims, "GET", uri, expectedAth, currentTime);
  }

  /** The verdict sees the request URL only through its normal form: URLs that
      differ only in query string or fragment get the same verdict. */
  lemma VerdictIgnoresQueryAndFragment(o: Crypto, proof: string, httpMethod: string, u1: string, u2: string,
                                       token: string, now: real)
    requires Uri.Normalize(u1) == Uri.Normalize(u2)
    ensures VerifyDpopProof(o, proof, httpMethod, u1, token, now) == VerifyDpopProof(o, proof, httpMethod, u2, token, now)
  {
  }

  /** With all claims present and `htm` matching, a string `htu` whose part
      before any `?` or `#` differs from the request URL's is an "htu mismatch". */
  lemma HtuMustMatchAfterNormalisation(claims: map<string, Json>, httpMethod: string, uri: string,
                                       expectedAth: string, currentTime: int)
    requires AllPresent(claims)
    requires Get(claims, "htm") == JStr(httpMethod)
    requires Get(claims, "htu").JStr? && Uri.Normalize(Get(claims, "htu").s) != Uri.Normalize(uri)
    ensures CheckClaims(claims, httpMethod, uri, expectedAth, currentTime) == Err(HtuMismatch)
    ensures Message(CheckClaims(claims, httpMethod, uri, expectedAth, currentTime).error) == "htu mismatch"
  {
    AllPresentIff(claims);
  }

  /** A truthy `htu` that is not a string has no `split` method: the
      `AttributeError` is caught and its message returned, naming the type. */
  lemma HtuNotStringRaises(claims: map<string, Json>, httpMethod: string, uri: string,
                           expectedAth: string, currentTime: int)
    requires AllPresent(claims)
    requires Get(claims, "htm") == JStr(httpMethod)
    requires !Get(claims, "htu").JStr?
    ensures Message(CheckClaims(claims, httpMethod, uri, expectedAth, currentTime).error) ==
      "'" + TypeName(Get(claims, "htu")) + "' object has no attribute 'split'"
  {
    AllPresentIff(claims);
    assert CheckClaims(claims, httpMethod, uri, expectedAth, currentTime) ==
      Err(Raised(NoAttribute(Get(claims, "htu"), "split")));
    NoSplit(Get(claims, "htu"));
  }

  lemma NoSplit(j: Json)
    ensures NoAttribute(j, "split") == "'" + TypeName(j) + "' object has no attribute 'split'"
  {
    var t := "'" + TypeName(j);
    assert NoAttribute(j, "split") == t + "' object has no attribute '" + "split" + "'";
    assert "' object has no attribute '" + "split" + "'" == "' object has no attribute 'split'";
    assert t + "' object has no attribute '" + "split" + "'" == t + ("' object has no attribute '" + "split" + "'");
  }

  /** An integer `htu` gives exactly "'int' object has no attribute 'split'". */
  lemma HtuIntMessage(claims: map<string, Json>, httpMethod: string, uri: string,
                      expectedAth: string, currentTime: int)
    requires AllPresent(claims)
    requires Get(claims, "htm") == JStr(httpMethod)
    requires Get(claims, "htu").JInt?
    ensures Message(CheckClaims(claims, httpMethod, uri, expectedAth, currentTime).error) ==
      "'int' object has no attribute 'split'"
  {
    HtuNotStringRaises(claims, httpMethod, uri, expectedAth, currentTime);
    IntNoSplitLiteral();
  }

  lemma IntNoSplitLiteral()
    ensures "'" + "int" + "' object has no attribute 'split'" == "'int' object has no attribute 'split'"
  {
  }

  /** A truthy `iat` that is neither an int nor a bool (a string, list or dict)
      makes `current_time - iat` raise; the `TypeError` message is returned. */
  lemma IatNotNumberRaises(claims: map<string, Json>, httpMethod: string, uri: string,
                           expectedAth: string, currentTime: int)
    requires AllPresent(claims)
    requires Get(claims, "htm") == JStr(httpMethod)
    requires Get(claims, "htu").JStr? && Uri.Normalize(Get(claims, "htu").s) == Uri.Normalize(uri)
    requires AsNumber(Get(claims, "iat")).None?
    ensures Message(CheckClaims(claims, httpMethod, uri, expectedAth, currentTime).error) ==
      "unsupported operand type(s) for -: 'int' and '" + TypeName(Get(claims, "iat")) + "'"
  {
    AllPresentIff(claims);
  }

  /** A string `iat` gives exactly "unsupported operand type(s) for -: 'int' and 'str'". */
  lemma IatStrMessage(claims: map<string, Json>, httpMethod: string, uri: string,
                      expectedAth: string, currentTime: int)
    requires AllPresent(claims)
    requires Get(claims, "htm") == JStr(httpMethod)
    requires Get(claims, "htu").JStr? && Uri.Normalize(Get(claims, "htu").s) == Uri.Normalize(uri)
    requires Get(claims, "iat").JStr?
    ensures Message(CheckClaims(claims, httpMethod, uri, expectedAth, currentTime).error) ==
      "unsupported operand type(s) for -: 'int' and 'str'"
  {
    IatNotNumberRaises(claims, httpMethod, uri, expectedAth, currentTime);
    IntMinusStrLiteral();
  }

  lemma IntMinusStrLiteral()
    ensures "unsupported operand type(s) for -: 'int' and '" + "str" + "'" ==
            "unsupported operand type(s) for -: 'int' and 'str'"
  {
  }

  /** The freshness check: once everything before it passes, a numeric `iat` is
      rejected exactly when it is more than 60 s before or after the server
      clock; 60 s either way is still accepted. */
  lemma IatWindowExact(claims: map<string, Json>, httpMethod: string, uri: string,
                       expectedAth: string, currentTime: int)
    requires AllPresent(claims)
    requires Get(claims, "htm") == JStr(httpMethod)
    requires Get(claims, "htu").JStr? && Uri.Normalize(Get(claims, "htu").s) == Uri.Normalize(uri)
    requires Get(claims, "iat").JInt?
    requires Get(claims, "ath") == JStr(expectedAth)
    ensures var iat := Get(claims, "iat").i;
            var r := CheckClaims(claims, httpMethod, uri, expectedAth, currentTime);
            && (r.Ok? <==> currentTime - 60 <= iat <= currentTime + 60)
            && (r.Err? ==> r.error == IatOutOfWindow)
  {
    AllPresentIff(claims);
  }

  /** The token binding is the last check: a fresh proof whose `ath` is not the
      hex SHA-256 of the presented token is rejected with "ath mismatch". */
  lemma AthMustBindToken(claims: map<string, Json>, httpMethod: string, uri: string,
                         expectedAth: string, currentTime: int)
    requires AllPresent(claims)
    requires Get(claims, "htm") == JStr(httpMethod)
    requires Get(claims, "htu").JStr? && Uri.Normalize(Get(claims, "htu").s) == Uri.Normalize(uri)
    requires AsNumber(Get(claims, "iat")).Some?
    requires Abs(currentTime - AsNumber(Get(claims, "iat")).value) <= IatWindow
    requires Get(claims, "ath") != JStr(expectedAth)
    ensures Message(CheckClaims(claims, httpMethod, uri, expectedAth, currentTime).error) == "ath mismatch"
  {
    AllPresentIff(claims);
  }
}
