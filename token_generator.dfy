/**
 * Session-token generation: 32 random bytes encoded with the URL- and filename-safe
 * base64 alphabet of section 5 of RFC 4648, without the padding of section 3.2.
 * The random bytes are an input; the encoding is modelled exactly.
 */
module TokenGenerator {
  import opened Wrappers
  import opened Text

  type Byte = b: int | 0 <= b < 256
  type Sextet = v: int | 0 <= v < 64

  /** Size of the buffer the generator fills from the operating system's RNG. */
  const TokenByteLength := 32

  /** The 64 characters of the base64url alphabet. */
  predicate IsUrlSafeChar(c: char) { IsAsciiAlphanumeric(c) || c == '-' || c == '_' }

  /** Value `v` of the base64url alphabet (Table 2 of RFC 4648). */
  function AlphabetChar(v: Sextet): (c: char)
    ensures IsUrlSafeChar(c)
  {
    if v < 26 then ('A' as int + v) as char
    else if v < 52 then ('a' as int + (v - 26)) as char
    else if v < 62 then ('0' as int + (v - 52)) as char
    else if v == 62 then '-'
    else '_'
  }

  /** The value a base64url character stands for; `None` outside the alphabet. */
  function AlphabetValue(c: char): (r: Option<Sextet>)
    ensures r.Some? <==> IsUrlSafeChar(c)
    ensures r.Some? ==> AlphabetChar(r.value) == c
  {
    if 'A' <= c <= 'Z' then Some(c as int - 'A' as int)
    else if 'a' <= c <= 'z' then Some(c as int - 'a' as int + 26)
    else if '0' <= c <= '9' then Some(c as int - '0' as int + 52)
    else if c == '-' then Some(62)
    else if c == '_' then Some(63)
    else None
  }

  lemma AlphabetRoundTrip(v: Sextet)
    ensures AlphabetValue(AlphabetChar(v)) == Some(v)
  {
  }

  /** Length of the unpadded encoding of `n` bytes: four characters per full group, two or three for a tail. */
  function EncodedLength(n: nat): nat {
    (n / 3) * 4 + (if n % 3 == 0 then 0 else n % 3 + 1)
  }

  /** Three bytes become four characters (section 4 of RFC 4648). */
  function EncodeGroup(b0: Byte, b1: Byte, b2: Byte): string {
    [AlphabetChar(b0 / 4), AlphabetChar((b0 % 4) * 16 + b1 / 16),
     AlphabetChar((b1 % 16) * 4 + b2 / 64), AlphabetChar(b2 % 64)]
  }

  /** The final one or two bytes become two or three characters; the missing bits are zero and no `=` is added. */
  function EncodeTail(tail: seq<Byte>): string
    requires 1 <= |tail| <= 2
  {
    if |tail| == 1 then [AlphabetChar(tail[0] / 4), AlphabetChar((tail[0] % 4) * 16)]
    else [AlphabetChar(tail[0] / 4), AlphabetChar((tail[0] % 4) * 16 + tail[1] / 16),
          AlphabetChar((tail[1] % 16) * 4)]
  }

  /** `URL_SAFE_NO_PAD.encode(bytes)`. */
  function Encode(bytes: seq<Byte>): (s: string)
    ensures |s| == EncodedLength(|bytes|)
    ensures forall i :: 0 <= i < |s| ==> IsUrlSafeChar(s[i])
  {
    if |bytes| == 0 then []
    else if |bytes| <= 2 then EncodeTail(bytes)
    else EncodeGroup(bytes[0], bytes[1], bytes[2]) + Encode(bytes[3..])
  }

  /** Four characters back to three bytes. */
  function DecodeGroup(s0: Sextet, s1: Sextet, s2: Sextet, s3: Sextet): seq<Byte> {
    [s0 * 4 + s1 / 16, (s1 % 16) * 16 + s2 / 4, (s2 % 4) * 64 + s3]
  }

  /**
   * Strict unpadded base64url decoding: a tail of one character, a character outside the
   * alphabet, or non-zero padding bits in the last character are rejected.
   */
  function Decode(s: string): Option<seq<Byte>> {
    if |s| == 0 then Some([])
    else if |s| == 1 then None
    else
      var v0, v1 := AlphabetValue(s[0]), AlphabetValue(s[1]);
      if v0.None? || v1.None? then None
      else if |s| == 2 then
        if v1.value % 16 != 0 then None else Some([v0.value * 4 + v1.value / 16])
      else
        var v2 := AlphabetValue(s[2]);
        if v2.None? then None
        else if |s| == 3 then
          if v2.value % 4 != 0 then None
          else Some([v0.value * 4 + v1.value / 16, (v1.value % 16) * 16 + v2.value / 4])
        else
          var v3 := AlphabetValue(s[3]);
          if v3.None? then None
          else match Decode(s[4..])
            case None => None
            case Some(rest) => Some(DecodeGroup(v0.value, v1.value, v2.value, v3.value) + rest)
  }

  lemma GroupRoundTrip(b0: Byte, b1: Byte, b2: Byte)
    ensures DecodeGroup(b0 / 4, (b0 % 4) * 16 + b1 / 16, (b1 % 16) * 4 + b2 / 64, b2 % 64) == [b0, b1, b2]
  {
    var s1 := (b0 % 4) * 16 + b1 / 16;
    var s2 := (b1 % 16) * 4 + b2 / 64;
    assert s1 / 16 == b0 % 4 && s1 % 16 == b1 / 16;
    assert s2 / 4 == b1 % 16 && s2 % 4 == b2 / 64;
  }

  lemma DecodeOneByteTail(b0: Byte)
    ensures Decode(EncodeTail([b0])) == Some([b0])
  {
    var t1: Sextet := (b0 % 4) * 16;
    AlphabetRoundTrip(b0 / 4);
    AlphabetRoundTrip(t1);
    assert t1 / 16 == b0 % 4 && t1 % 16 == 0;
  }

  lemma DecodeTwoByteTail(b0: Byte, b1: Byte)
    ensures Decode(EncodeTail([b0, b1])) == Some([b0, b1])
  {
    var t1: Sextet := (b0 % 4) * 16 + b1 / 16;
    var t2: Sextet := (b1 % 16) * 4;
    AlphabetRoundTrip(b0 / 4);
    AlphabetRoundTrip(t1);
    AlphabetRoundTrip(t2);
    assert t1 / 16 == b0 % 4 && t1 % 16 == b1 / 16;
    assert t2 / 4 == b1 % 16 && t2 % 4 == 0;
  }

  lemma DecodeGroupPrefix(b0: Byte, b1: Byte, b2: Byte, rest: string, tail: seq<Byte>)
    requires Decode(rest) == Some(tail)
    ensures Decode(EncodeGroup(b0, b1, b2) + rest) == Some([b0, b1, b2] + tail)
  {
    var s := EncodeGroup(b0, b1, b2) + rest;
    AlphabetRoundTrip(b0 / 4);
    AlphabetRoundTrip((b0 % 4) * 16 + b1 / 16);
    AlphabetRoundTrip((b1 % 16) * 4 + b2 / 64);
    AlphabetRoundTrip(b2 % 64);
    GroupRoundTrip(b0, b1, b2);
    assert s[4..] == rest;
  }

  /** Decoding inverts encoding, for every byte string. */
  lemma {:induction false} DecodeEncode(bytes: seq<Byte>)
    ensures Decode(Encode(bytes)) == Some(bytes)
  {
    if |bytes| == 1 {
      assert bytes == [bytes[0]];
      DecodeOneByteTail(bytes[0]);
    } else if |bytes| == 2 {
      assert bytes == [bytes[0], bytes[1]];
      DecodeTwoByteTail(bytes[0], bytes[1]);
    } else if |bytes| > 2 {
      DecodeEncode(bytes[3..]);
      DecodeGroupPrefix(bytes[0], bytes[1], bytes[2], Encode(bytes[3..]), bytes[3..]);
      assert [bytes[0], bytes[1], bytes[2]] + bytes[3..] == bytes;
    }
  }

  /** Distinct byte strings have distinct encodings. */
  lemma EncodeInjective(a: seq<Byte>, b: seq<Byte>)
    requires Encode(a) == Encode(b)
    ensures a == b
  {
    DecodeEncode(a);
    DecodeEncode(b);
  }

  /**
   * `generate_token`: the RNG's 32 bytes, encoded. The token is 43 characters long,
   * drawn from the base64url alphabet (so never `=`).
   */
  function GenerateToken(random: seq<Byte>): (token: string)
    requires |random| == TokenByteLength
    ensures |token| == 43
    ensures forall i :: 0 <= i < |token| ==> IsUrlSafeChar(token[i])
    ensures '=' !in token
    ensures Decode(token) == Some(random)
  {
    DecodeEncode(random);
    Encode(random)
  }

  /** Two generator runs give the same token only if the RNG gave the same 32 bytes. */
  lemma GenerateTokenInjective(r1: seq<Byte>, r2: seq<Byte>)
    requires |r1| == TokenByteLength && |r2| == TokenByteLength
    requires r1 != r2
    ensures GenerateToken(r1) != GenerateToken(r2)
  {
    if GenerateToken(r1) == GenerateToken(r2) {
      EncodeInjective(r1, r2);
    }
  }
}
