/** The URL-safe, unpadded base64 encoding that `process_sign` applies to a
    signature (section 5 of RFC 4648, without the `=` padding of section
    3.2): every 3 bytes become 4 characters, a final 1 or 2 bytes become 2 or
    3 characters. Decode is the reference inverse used to show that the
    encoding loses nothing. */
module Base64Url {
  import opened Common

  /** The alphabet of section 5 of RFC 4648. */
  predicate IsUrlSafeChar(c: char) {
    ('A' <= c <= 'Z') || ('a' <= c <= 'z') || ('0' <= c <= '9') || c == '-' || c == '_'
  }

  predicate IsUrlSafe(s: string) {
    forall i :: 0 <= i < |s| ==> IsUrlSafeChar(s[i])
  }

  /** Table 2 of RFC 4648: the character for a 6-bit value. */
  function Symbol(v: int): (c: char)
    requires 0 <= v < 64
    ensures IsUrlSafeChar(c)
  {
    if v < 26 then ('A' as int + v) as char
    else if v < 52 then ('a' as int + (v - 26)) as char
    else if v < 62 then ('0' as int + (v - 52)) as char
    else if v == 62 then '-'
    else '_'
  }

  /** The 6-bit value of an alphabet character. */
  function Value(c: char): (v: int)
    requires IsUrlSafeChar(c)
    ensures 0 <= v < 64 && Symbol(v) == c
  {
    if 'A' <= c <= 'Z' then c as int - 'A' as int
    else if 'a' <= c <= 'z' then c as int - 'a' as int + 26
    else if '0' <= c <= '9' then c as int - '0' as int + 52
    else if c == '-' then 62
    else 63
  }

  lemma ValueOfSymbol(v: int)
    requires 0 <= v < 64
    ensures Value(Symbol(v)) == v
  {
  }

  /** Four characters for three bytes (24 bits, high bits first). */
  function Group(x: byte, y: byte, z: byte): string {
    [Symbol(x / 4), Symbol(x % 4 * 16 + y / 16), Symbol(y % 16 * 4 + z / 64), Symbol(z % 64)]
  }

  /** Two characters for a final byte, three for a final two bytes; the
      unused low bits are zero. */
  function Tail(b: seq<byte>): string
    requires |b| == 1 || |b| == 2
  {
    if |b| == 1 then [Symbol(b[0] / 4), Symbol(b[0] % 4 * 16)]
    else [Symbol(b[0] / 4), Symbol(b[0] % 4 * 16 + b[1] / 16), Symbol(b[1] % 16 * 4)]
  }

  /** Unpadded encoding: ceil(4n/3) characters, all from the alphabet. */
  function Encode(b: seq<byte>): (r: string)
    ensures |r| == (4 * |b| + 2) / 3
    ensures IsUrlSafe(r)
    decreases |b|
  {
    if |b| == 0 then ""
    else if |b| < 3 then Tail(b)
    else Group(b[0], b[1], b[2]) + Encode(b[3..])
  }

  predicate Decodable(s: string) {
    |s| % 4 != 1 && IsUrlSafe(s)
  }

  /** Unpadded decoding of a string of alphabet characters whose length is
      not 1 more than a multiple of 4. */
  function Decode(s: string): (b: seq<byte>)
    requires Decodable(s)
    decreases |s|
  {
    if |s| == 0 then []
    else if |s| == 2 then
      [Value(s[0]) * 4 + Value(s[1]) / 16]
    else if |s| == 3 then
      [Value(s[0]) * 4 + Value(s[1]) / 16, Value(s[1]) % 16 * 16 + Value(s[2]) / 4]
    else
      [Value(s[0]) * 4 + Value(s[1]) / 16, Value(s[1]) % 16 * 16 + Value(s[2]) / 4, Value(s[2]) % 4 * 64 + Value(s[3])]
      + Decode(s[4..])
  }

  /** The bit arithmetic of one group: the sextets of three bytes give the
      bytes back. */
  lemma SextetsOfBytes(x: byte, y: byte, z: byte)
    ensures (x / 4) * 4 + (x % 4 * 16 + y / 16) / 16 == x
    ensures (x % 4 * 16 + y / 16) % 16 * 16 + (y % 16 * 4 + z / 64) / 4 == y
    ensures (y % 16 * 4 + z / 64) % 4 * 64 + z % 64 == z
  {
  }

  /** Decoding a leading group of four characters. */
  lemma DecodeGroup(x: byte, y: byte, z: byte, rest: string)
    requires Decodable(rest)
    ensures Decodable(Group(x, y, z) + rest)
    ensures Decode(Group(x, y, z) + rest) == [x, y, z] + Decode(rest)
  {
    var v0, v1, v2, v3 := x / 4, x % 4 * 16 + y / 16, y % 16 * 4 + z / 64, z % 64;
    ValueOfSymbol(v0);
    ValueOfSymbol(v1);
    ValueOfSymbol(v2);
    ValueOfSymbol(v3);
    SextetsOfBytes(x, y, z);
    var s := Group(x, y, z) + rest;
    assert s[4..] == rest;
  }

  /** Decoding the final 2 or 3 characters. */
  lemma DecodeTail(b: seq<byte>)
    requires |b| == 1 || |b| == 2
    ensures Decodable(Tail(b)) && Decode(Tail(b)) == b
  {
    ValueOfSymbol(b[0] / 4);
    if |b| == 1 {
      ValueOfSymbol(b[0] % 4 * 16);
      SextetsOfBytes(b[0], 0, 0);
    } else {
      ValueOfSymbol(b[0] % 4 * 16 + b[1] / 16);
      ValueOfSymbol(b[1] % 16 * 4);
      SextetsOfBytes(b[0], b[1], 0);
    }
  }

  lemma SplitAfterThree(b: seq<byte>)
    requires |b| >= 3
    ensures b == [b[0], b[1], b[2]] + b[3..]
  {
  }

  /** Decoding the encoding gives back the bytes. */
  lemma {:induction false} DecodeEncode(b: seq<byte>)
    ensures Decodable(Encode(b)) && Decode(Encode(b)) == b
    decreases |b|
  {
    if |b| == 0 {
    } else if |b| < 3 {
      DecodeTail(b);
    } else {
      DecodeEncode(b[3..]);
      DecodeGroup(b[0], b[1], b[2], Encode(b[3..]));
      SplitAfterThree(b);
    }
  }

  /** Distinct byte strings have distinct encodings. */
  lemma EncodeInjective(b: seq<byte>, c: seq<byte>)
    requires Encode(b) == Encode(c)
    ensures b == c
  {
    DecodeEncode(b);
    DecodeEncode(c);
  }
}
