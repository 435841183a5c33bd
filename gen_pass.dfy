/** The password generator (src/process/gen_pass.rs), which Blake3 key
    generation reuses. The random generator is modelled by nondeterministic
    choice: every contract below holds for every choice it could make. */
module GenPass {
  import opened Common

  /** The `n` consecutive ASCII codes from `first` on. */
  function Span(first: nat, n: nat): (r: seq<byte>)
    requires first + n <= 128
    ensures |r| == n && forall i :: 0 <= i < n ==> r[i] == first + i
    decreases n
  {
    if n == 0 then [] else [first] + Span(first + 1, n - 1)
  }

  /** A byte below 128. */
  type AsciiByte = b: byte | b < 128

  const UPPER: seq<byte> := Span('A' as int, 26)   // A to Z
  const LOWER: seq<byte> := Span('a' as int, 26)   // a to z
  const NUMBER: seq<byte> := Span('0' as int, 10)  // 0 to 9
  /** The bytes of  `~!@#$%^&*()-_=+[{]}\|;:'",<.>/?  in that order. */
  const SYMBOL: seq<AsciiByte> := [
    96, 126, 33, 64, 35, 36, 37, 94, 38, 42, 40, 41, 45, 95, 61, 43,
    91, 123, 93, 125, 92, 124, 59, 58, 39, 34, 44, 60, 46, 62, 47, 63]

  /** How many character classes are switched on. */
  function EnabledCount(upper: bool, lower: bool, number: bool, symbol: bool): nat {
    (if upper then 1 else 0) + (if lower then 1 else 0) + (if number then 1 else 0) + (if symbol then 1 else 0)
  }

  /** `chars.extend_from_slice(kind)` when the class is enabled. */
  function Extend(chars: seq<byte>, enabled: bool, kind: seq<byte>): seq<byte> {
    if enabled then chars + kind else chars
  }

  /** The pool `chars` that the fill loop draws from. */
  function Charset(upper: bool, lower: bool, number: bool, symbol: bool): seq<byte> {
    Extend(Extend(Extend(Extend([], upper, UPPER), lower, LOWER), number, NUMBER), symbol, SYMBOL)
  }

  /** Some byte of the password comes from the class `kind`. */
  predicate HasOneOf(password: seq<byte>, kind: seq<byte>) {
    exists i :: 0 <= i < |password| && password[i] in kind
  }

  predicate IsAsciiBytes(s: seq<byte>) {
    forall i :: 0 <= i < |s| ==> s[i] < 128
  }

  lemma ClassSizes()
    ensures |UPPER| == 26 && |LOWER| == 26 && |NUMBER| == 10 && |SYMBOL| == 32
  {
  }

  /** A sequence of ASCII bytes holds only ASCII bytes. */
  lemma AsciiMembers(s: seq<byte>)
    requires IsAsciiBytes(s)
    ensures forall b :: b in s ==> b < 128
  {
    forall b | b in s ensures b < 128 {
      var i :| 0 <= i < |s| && s[i] == b;
    }
  }

  lemma ClassesAreAscii()
    ensures forall b :: b in UPPER ==> b < 128
    ensures forall b :: b in LOWER ==> b < 128
    ensures forall b :: b in NUMBER ==> b < 128
    ensures forall b :: b in SYMBOL ==> b < 128
  {
    AsciiMembers(UPPER);
    AsciiMembers(LOWER);
    AsciiMembers(NUMBER);
  }

  lemma CharsetIsAscii(upper: bool, lower: bool, number: bool, symbol: bool)
    ensures forall b :: b in Charset(upper, lower, number, symbol) ==> b < 128
    ensures |Charset(upper, lower, number, symbol)| == 0 <==> EnabledCount(upper, lower, number, symbol) == 0
  {
    ClassesAreAscii();
  }

  lemma HasOneOfGrows(s: seq<byte>, t: seq<byte>, kind: seq<byte>)
    requires HasOneOf(s, kind)
    ensures HasOneOf(s + t, kind)
  {
    var i :| 0 <= i < |s| && s[i] in kind;
    assert (s + t)[i] == s[i];
  }

  /** Reordering keeps both "some byte from the class" and "every byte
      from the pool". */
  lemma PermutationKeeps(s: seq<byte>, t: seq<byte>, kind: seq<byte>, pool: seq<byte>)
    requires multiset(s) == multiset(t)
    ensures HasOneOf(s, kind) ==> HasOneOf(t, kind)
    ensures (forall i :: 0 <= i < |s| ==> s[i] in pool) ==> (forall j :: 0 <= j < |t| ==> t[j] in pool)
  {
    if HasOneOf(s, kind) {
      var i :| 0 <= i < |s| && s[i] in kind;
      assert s[i] in multiset(t);
      var j :| 0 <= j < |t| && t[j] == s[i];
    }
    if forall i :: 0 <= i < |s| ==> s[i] in pool {
      forall j | 0 <= j < |t| ensures t[j] in pool {
        assert t[j] in multiset(s);
        var i :| 0 <= i < |s| && s[i] == t[j];
      }
    }
  }

  /** `SliceRandom::shuffle`: from the last index down to 1, swap with any
      index not above it. */
  method Shuffle(a: array<byte>)
    modifies a
    ensures multiset(a[..]) == multiset(old(a[..]))
  {
    var i := a.Length;
    while i > 1
      invariant 0 <= i <= a.Length
      invariant multiset(a[..]) == multiset(old(a[..]))
    {
      i := i - 1;
      var j :| 0 <= j <= i;
      a[i], a[j] := a[j], a[i];
    }
  }

  /** One class block of `process_genpass`: extend the pool with the class
      and push one byte chosen from it. */
  method AddClass(password: seq<byte>, chars: seq<byte>, kind: seq<byte>)
    returns (password': seq<byte>, chars': seq<byte>)
    requires |kind| > 0
    ensures chars' == chars + kind
    ensures |password'| == |password| + 1 && password'[..|password|] == password
    ensures password'[|password|] in kind
    ensures (forall i :: 0 <= i < |password| ==> password[i] in chars) ==>
              forall i :: 0 <= i < |password'| ==> password'[i] in chars'
  {
    chars' := chars + kind;
    var k :| 0 <= k < |kind|;
    password' := password + [kind[k]];
  }

  /** What the class blocks leave behind: one byte from each enabled class,
      all drawn from the pool. */
  predicate PicksCover(password: seq<byte>, chars: seq<byte>, upper: bool, lower: bool, number: bool, symbol: bool) {
    && (upper ==> HasOneOf(password, UPPER))
    && (lower ==> HasOneOf(password, LOWER))
    && (number ==> HasOneOf(password, NUMBER))
    && (symbol ==> HasOneOf(password, SYMBOL))
    && forall i :: 0 <= i < |password| ==> password[i] in chars
  }

  /** A byte appended after the class blocks keeps what they established. */
  lemma PicksCoverGrows(s: seq<byte>, t: seq<byte>, chars: seq<byte>, upper: bool, lower: bool, number: bool, symbol: bool)
    requires PicksCover(s, chars, upper, lower, number, symbol)
    requires forall i :: 0 <= i < |t| ==> t[i] in chars
    ensures PicksCover(s + t, chars, upper, lower, number, symbol)
  {
    if upper { HasOneOfGrows(s, t, UPPER); }
    if lower { HasOneOfGrows(s, t, LOWER); }
    if number { HasOneOfGrows(s, t, NUMBER); }
    if symbol { HasOneOfGrows(s, t, SYMBOL); }
  }

  /** The four class blocks of `process_genpass`: for each enabled class,
      in the order upper, lower, number, symbol, extend the pool with it and
      push one byte chosen from it. */
  method MandatoryPicks(upper: bool, lower: bool, number: bool, symbol: bool)
    returns (buf: seq<byte>, chars: seq<byte>)
    ensures chars == Charset(upper, lower, number, symbol)
    ensures |buf| == EnabledCount(upper, lower, number, symbol)
    ensures PicksCover(buf, chars, upper, lower, number, symbol)
  {
    ClassSizes();
    buf, chars := [], [];
    if upper {
      buf, chars := AddClass(buf, chars, UPPER);
    }
    ghost var afterUpper := buf;
    if lower {
      buf, chars := AddClass(buf, chars, LOWER);
      if upper { HasOneOfGrows(afterUpper, [buf[|buf| - 1]], UPPER); }
    }
    ghost var afterLower := buf;
    if number {
      buf, chars := AddClass(buf, chars, NUMBER);
      if upper { HasOneOfGrows(afterLower, [buf[|buf| - 1]], UPPER); }
      if lower { HasOneOfGrows(afterLower, [buf[|buf| - 1]], LOWER); }
    }
    ghost var afterNumber := buf;
    if symbol {
      buf, chars := AddClass(buf, chars, SYMBOL);
      if upper { HasOneOfGrows(afterNumber, [buf[|buf| - 1]], UPPER); }
      if lower { HasOneOfGrows(afterNumber, [buf[|buf| - 1]], LOWER); }
      if number { HasOneOfGrows(afterNumber, [buf[|buf| - 1]], NUMBER); }
    }
  }

  /** `process_genpass`. It panics in three cases, so the model requires
      the opposite of each: when `length - password.len()` underflows as a
      `u8` (fewer places than enabled classes), when the pool is empty but a
      byte must be drawn from it (`gen_range(0..0)`), and when the password
      is blank, which the strength estimate rejects and `.unwrap()` turns
      into a panic. Together they leave `1 <= EnabledCount <= length`. */
  method ProcessGenpass(length: byte, upper: bool, lower: bool, number: bool, symbol: bool)
    returns (password: seq<byte>)
    requires EnabledCount(upper, lower, number, symbol) <= length
    requires EnabledCount(upper, lower, number, symbol) == 0 ==> length == 0
    requires length > 0
    ensures |password| == length
    ensures upper ==> HasOneOf(password, UPPER)
    ensures lower ==> HasOneOf(password, LOWER)
    ensures number ==> HasOneOf(password, NUMBER)
    ensures symbol ==> HasOneOf(password, SYMBOL)
    ensures forall i :: 0 <= i < |password| ==> password[i] in Charset(upper, lower, number, symbol)
    ensures IsAsciiBytes(password)
  {
    var buf, chars := MandatoryPicks(upper, lower, number, symbol);
    CharsetIsAscii(upper, lower, number, symbol);
    ghost var picks, drawn := buf, [];
    var fill := length - |buf|;
    for n := 0 to fill
      invariant buf == picks + drawn && |drawn| == n
      invariant forall i :: 0 <= i < |drawn| ==> drawn[i] in chars
    {
      var k :| 0 <= k < |chars|;
      buf, drawn := buf + [chars[k]], drawn + [chars[k]];
    }
    PicksCoverGrows(picks, drawn, chars, upper, lower, number, symbol);

    var a := new byte[|buf|](i requires 0 <= i < |buf| => buf[i]);
    assert a[..] == buf;
    Shuffle(a);
    password := a[..];
    PermutationKeeps(buf, password, UPPER, chars);
    PermutationKeeps(buf, password, LOWER, chars);
    PermutationKeeps(buf, password, NUMBER, chars);
    PermutationKeeps(buf, password, SYMBOL, chars);
  }
}
