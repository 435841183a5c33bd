/** Text helpers from Rust's standard library that the tag parsers and the
    command line rely on: `str::to_lowercase` (on its ASCII part) and
    `str::as_bytes` (UTF-8 encoding). */
module Ascii {
  import opened Common

  predicate IsAscii(s: string) {
    forall i :: 0 <= i < |s| ==> s[i] as int < 128
  }

  function LowerChar(c: char): char {
    if 'A' <= c <= 'Z' then (c as int + 32) as char else c
  }

  /** `to_lowercase`, restricted to ASCII letters. */
  function ToLower(s: string): (r: string)
    ensures |r| == |s|
    ensures forall i :: 0 <= i < |s| ==> r[i] == LowerChar(s[i])
  {
    if s == [] then [] else [LowerChar(s[0])] + ToLower(s[1..])
  }

  /** `s` and `t` spell the same word, ignoring the case of ASCII letters. */
  predicate EqualIgnoringCase(s: string, t: string) {
    |s| == |t| && forall i :: 0 <= i < |s| ==> LowerChar(s[i]) == LowerChar(t[i])
  }

  /** Matching the lower-cased input against an all-lower-case tag is
      exactly "the input is the tag in any letter case". */
  lemma LowerMatchesAnyCase(s: string, tag: string)
    requires ToLower(tag) == tag
    ensures ToLower(s) == tag <==> EqualIgnoringCase(s, tag)
  {
    if EqualIgnoringCase(s, tag) {
      forall i | 0 <= i < |s| ensures ToLower(s)[i] == tag[i] {
        assert LowerChar(tag[i]) == ToLower(tag)[i];
      }
    }
    if ToLower(s) == tag {
      forall i | 0 <= i < |s| ensures LowerChar(s[i]) == LowerChar(tag[i]) {
        assert LowerChar(tag[i]) == ToLower(tag)[i];
      }
    }
  }

  /** The UTF-8 encoding of one character (section 3 of RFC 3629). */
  function Utf8Char(c: char): (r: seq<byte>)
    ensures 1 <= |r| <= 4
    ensures c as int < 128 <==> |r| == 1
    ensures c as int < 128 ==> r[0] == c as int
  {
    var n := c as int;
    if n < 0x80 then [n]
    else if n < 0x800 then [0xC0 + n / 0x40, 0x80 + n % 0x40]
    else if n < 0x1_0000 then [0xE0 + n / 0x1000, 0x80 + (n / 0x40) % 0x40, 0x80 + n % 0x40]
    else [0xF0 + n / 0x4_0000, 0x80 + (n / 0x1000) % 0x40, 0x80 + (n / 0x40) % 0x40, 0x80 + n % 0x40]
  }

  /** `str::as_bytes`: the UTF-8 bytes of a string. An ASCII string
      encodes to one byte per character, its code. */
  function Utf8(s: string): (r: seq<byte>)
    ensures |r| >= |s|
    ensures IsAscii(s) ==> |r| == |s| && forall i :: 0 <= i < |s| ==> r[i] == s[i] as int
  {
    if s == [] then [] else Utf8Char(s[0]) + Utf8(s[1..])
  }
}
