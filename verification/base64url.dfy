/** URL-safe base64 without padding, as `secrets.token_urlsafe(n)` produces it:
    `base64.urlsafe_b64encode(os.urandom(n)).rstrip(b'=')`. Every 3 bytes become
    4 characters of the alphabet A-Z a-z 0-9 - _; a trailing 1 or 2 bytes become
    2 or 3 characters. */
module Base64Url {

  type byte = x: int | 0 <= x < 256

  type sextet = x: int | 0 <= x < 64

  /** The number of random bytes the orchestrator draws for a `jti`. */
  const JtiEntropyBytes := 16

  predicate UrlSafe(c: char) {
    ('A' <= c <= 'Z') || ('a' <= c <= 'z') || ('0' <= c <= '9') || c == '-' || c == '_'
  }

  /** The character of the URL-safe alphabet at position `i`. */
  function Char(i: sextet): (c: char)
    ensures UrlSafe(c)
  {
    if i < 26 then ('A' as int + i) as char
    else if i < 52 then ('a' as int + (i - 26)) as char
    else if i < 62 then ('0' as int + (i - 52)) as char
    else if i == 62 then '-'
    else '_'
  }

  /** The position of a URL-safe character in the alphabet. */
  function Index(c: char): (i: sextet)
    requires UrlSafe(c)
  {
    if 'A' <= c <= 'Z' then c as int - 'A' as int
    else if 'a' <= c <= 'z' then c as int - 'a' as int + 26
    else if '0' <= c <= '9' then c as int - '0' as int + 52
    else if c == '-' then 62
    else 63
  }

  lemma IndexOfChar(i: sextet)
    ensures Index(Char(i)) == i
  {
  }

  predicate AllUrlSafe(s: string) {
    forall i :: 0 <= i < |s| ==> UrlSafe(s[i])
  }

  /** The encoding of `b`: characters from the URL-safe alphabet, four for each
      whole group of three bytes. */
  function Encode(b: seq<byte>): (s: string)
    ensures AllUrlSafe(s)
    decreases |b|
  {
    if |b| == 0 then ""
    else if |b| == 1 then
      [Char(b[0] / 4), Char((b[0] % 4) * 16)]
    else if |b| == 2 then
      [Char(b[0] / 4), Char((b[0] % 4) * 16 + b[1] / 16), Char((b[1] % 16) * 4)]
    else
      Group(b[0], b[1], b[2]) + Encode(b[3..])
  }

  /** The four characters that carry three bytes. */
  function Group(b0: byte, b1: byte, b2: byte): (s: string)
    ensures |s| == 4 && AllUrlSafe(s)
  {
    Quad(b0 / 4, (b0 % 4) * 16 + b1 / 16, (b1 % 16) * 4 + b2 / 64, b2 % 64)
  }

  /** The four characters that carry four sextets. */
  function Quad(x0: sextet, x1: sextet, x2: sextet, x3: sextet): (s: string)
    ensures |s| == 4 && AllUrlSafe(s)
  {
    [Char(x0), Char(x1), Char(x2), Char(x3)]
  }

  /** The inverse of `Encode` on well-formed input (length not 1 modulo 4). */
  function Decode(s: string): seq<byte>
    requires AllUrlSafe(s)
    requires |s| % 4 != 1
    decreases |s|
  {
    if |s| < 2 then []
    else if |s| == 2 then
      [Index(s[0]) * 4 + Index(s[1]) / 16]
    else if |s| == 3 then
      [Index(s[0]) * 4 + Index(s[1]) / 16, (Index(s[1]) % 16) * 16 + Index(s[2]) / 4]
    else
      Triple(Index(s[0]), Index(s[1]), Index(s[2]), Index(s[3])) + Decode(s[4..])
  }

  /** The three bytes that four sextets carry. */
  function Triple(x0: sextet, x1: sextet, x2: sextet, x3: sextet): seq<byte> {
    [x0 * 4 + x1 / 16, (x1 % 16) * 16 + x2 / 4, (x2 % 4) * 64 + x3]
  }

  /** One group of three bytes survives its four characters. */
  lemma GroupRoundTrip(b0: byte, b1: byte, b2: byte)
    ensures b0 == (b0 / 4) * 4 + ((b0 % 4) * 16 + b1 / 16) / 16
    ensures b1 == (((b0 % 4) * 16 + b1 / 16) % 16) * 16 + ((b1 % 16) * 4 + b2 / 64) / 4
    ensures b2 == (((b1 % 16) * 4 + b2 / 64) % 4) * 64 + b2 % 64
  {
  }

  /** Encodings of one or two trailing bytes decode back. */
  lemma DecodeEncodeTail(b: seq<byte>)
    requires 1 <= |b| <= 2
    ensures |Encode(b)| % 4 != 1
    ensures Decode(Encode(b)) == b
  {
    var s := Encode(b);
    if |b| == 1 {
      IndexOfChar(b[0] / 4);
      IndexOfChar((b[0] % 4) * 16);
      assert Index(s[0]) == b[0] / 4 && Index(s[1]) == (b[0] % 4) * 16;
    } else {
      GroupIndices(b[0], b[1], 0);
      assert Index(s[0]) == b[0] / 4;
      assert Index(s[1]) == (b[0] % 4) * 16 + b[1] / 16;
      assert Index(s[2]) == (b[1] % 16) * 4;
      GroupRoundTrip(b[0], b[1], 0);
    }
  }

  /** Decoding an encoding gives back the bytes. */
  lemma {:induction false} DecodeEncode(b: seq<byte>)
    ensures |Encode(b)| % 4 != 1
    ensures Decode(Encode(b)) == b
    decreases |b|
  {
    if |b| == 0 {
    } else if |b| <= 2 {
      DecodeEncodeTail(b);
    } else {
      DecodeEncode(b[3..]);
      DecodeEncodeStep(b);
    }
  }

  /** The inductive step of `DecodeEncode`: one leading group of three bytes. */
  lemma DecodeEncodeStep(b: seq<byte>)
    requires |b| >= 3
    requires |Encode(b[3..])| % 4 != 1
    requires Decode(Encode(b[3..])) == b[3..]
    ensures |Encode(b)| % 4 != 1
    ensures Decode(Encode(b)) == b
  {
    var rest := Encode(b[3..]);
    assert Encode(b) == Group(b[0], b[1], b[2]) + rest;
    DecodeGroup(b[0], b[1], b[2], rest);
    assert b == [b[0], b[1], b[2]] + b[3..];
  }

  /** A group of three bytes in front of a well-formed string decodes to those
      bytes in front of its decoding. */
  lemma DecodeGroup(b0: byte, b1: byte, b2: byte, r: string)
    requires AllUrlSafe(r) && |r| % 4 != 1
    ensures AllUrlSafe(Group(b0, b1, b2) + r)
    ensures |Group(b0, b1, b2) + r| % 4 != 1
    ensures Decode(Group(b0, b1, b2) + r) == [b0, b1, b2] + Decode(r)
  {
    DecodeQuad(b0 / 4, (b0 % 4) * 16 + b1 / 16, (b1 % 16) * 4 + b2 / 64, b2 % 64, r);
    GroupTriple(b0, b1, b2);
  }

  /** The sextets of a group of three bytes carry those bytes. */
  lemma GroupTriple(b0: byte, b1: byte, b2: byte)
    ensures Triple(b0 / 4, (b0 % 4) * 16 + b1 / 16, (b1 % 16) * 4 + b2 / 64, b2 % 64) == [b0, b1, b2]
  {
    GroupRoundTrip(b0, b1, b2);
  }

  /** Four characters in front of a well-formed string decode to three bytes
      in front of its decoding. */
  lemma DecodeQuad(x0: sextet, x1: sextet, x2: sextet, x3: sextet, r: string)
    requires AllUrlSafe(r) && |r| % 4 != 1
    ensures AllUrlSafe(Quad(x0, x1, x2, x3) + r)
    ensures |Quad(x0, x1, x2, x3) + r| % 4 != 1
    ensures Decode(Quad(x0, x1, x2, x3) + r) == Triple(x0, x1, x2, x3) + Decode(r)
  {
    var q := Quad(x0, x1, x2, x3);
    var s := q + r;
    assert AllUrlSafe(s) by {
      forall i | 0 <= i < |s|
        ensures UrlSafe(s[i])
      {
        if 4 <= i {
          assert s[i] == r[i - 4];
        }
      }
    }
    assert (|r| + 4) % 4 == |r| % 4;
    assert s[4..] == r;
    IndexOfChar(x0);
    IndexOfChar(x1);
    IndexOfChar(x2);
    IndexOfChar(x3);
  }

  lemma GroupIndices(b0: byte, b1: byte, b2: byte)
    ensures Index(Char(b0 / 4)) == b0 / 4
    ensures Index(Char((b0 % 4) * 16 + b1 / 16)) == (b0 % 4) * 16 + b1 / 16
    ensures Index(Char((b1 % 16) * 4 + b2 / 64)) == (b1 % 16) * 4 + b2 / 64
    ensures Index(Char(b2 % 64)) == b2 % 64
  {
    IndexOfChar(b0 / 4);
    IndexOfChar((b0 % 4) * 16 + b1 / 16);
    IndexOfChar((b1 % 16) * 4 + b2 / 64);
    IndexOfChar(b2 % 64);
  }

  /** `secrets.token_urlsafe(16)` on the given 16 random bytes: 22 URL-safe characters. */
  /** An encoding has ceil(4|b|/3) characters. */
  lemma {:induction false} EncodeLength(b: seq<byte>)
    ensures |Encode(b)| == (4 * |b| + 2) / 3
    decreases |b|
  {
    if |b| >= 3 {
      EncodeLength(b[3..]);
    }
  }

  function TokenUrlsafe(entropy: seq<byte>): (s: string)
    requires |entropy| == JtiEntropyBytes
    ensures |s| == 22
    ensures AllUrlSafe(s)
    ensures Decode(s) == entropy
  {
    DecodeEncode(entropy);
    EncodeLength(entropy);
    Encode(entropy)
  }
}
