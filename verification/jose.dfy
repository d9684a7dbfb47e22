/** The cryptographic and JOSE machinery the DPoP code calls into (jwcrypto,
    hashlib). None of it is modelled: each operation is a parameter, gathered
    in one `Crypto` record, and `Sound` states the correctness properties the
    round-trip results rely on. */
module Jose {
  import opened Wrappers
  import opened Json

  /** An opaque handle for a P-256 key pair; the private half never leaves it. */
  datatype SigningKey = SigningKey(handle: nat)

  /** A deserialised compact JWS: its JOSE header (always an object) and its
      decoded payload (any JSON value). */
  datatype Jws = Jws(header: map<string, Json>, claims: Json)

  datatype Crypto = Crypto(
    /** `jwt.JWT().deserialize(s)` followed by the JSON decoding of header and
        payload; `Err` carries the message of the exception it raised. */
    deserialize: string -> Result<Jws, string>,
    /** `jwt.JWT(jwt=s, key=jwk.JWK(**j))`: `None` when the JWK imports, the
        signature of `s` verifies under it and the library's own claim checks
        pass, otherwise the exception's message. Those checks include `exp` and
        `nbf` against the clock, which this parameter does not receive. */
    checkSignature: (string, Json) -> Option<string>,
    /** `make_signed_token` followed by `serialize()`: ES256 over header and
        claims, with the random per-signature ECDSA nonce as the last argument. */
    sign: (map<string, Json>, map<string, Json>, SigningKey, nat) -> string,
    /** `json.loads(key.export_public())`: the public JWK of a key pair. */
    exportPublic: SigningKey -> Json,
    /** `hashlib.sha256(t.encode('utf-8')).hexdigest()`. */
    sha256Hex: string -> string)

  /** A SHA-256 digest in `hexdigest()` form: 64 lowercase hex characters. */
  predicate LowerHexDigest(s: string) {
    |s| == 64 && forall i :: 0 <= i < |s| ==> s[i] in "0123456789abcdef"
  }

  /** What the library promises: a signed token is a non-empty compact string
      that deserialises to what was signed, its signature verifies under the
      signer's public JWK when the claims carry no time-dependent `exp` or
      `nbf`, digests are hex, and an exported public JWK is a JSON object. */
  ghost predicate Sound(o: Crypto) {
    && (forall h, c, k, n :: o.sign(h, c, k, n) != "")
    && (forall h, c, k, n :: o.deserialize(o.sign(h, c, k, n)) == Ok(Jws(h, JObject(c))))
    && (forall h, c, k, n :: "exp" !in c && "nbf" !in c ==>
          o.checkSignature(o.sign(h, c, k, n), o.exportPublic(k)) == None)
    && (forall t :: LowerHexDigest(o.sha256Hex(t)))
    && (forall k :: o.exportPublic(k).JObject?)
  }
}
