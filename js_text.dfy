// The JavaScript built-ins that the application's string handling relies on:
// white space and trim, ASCII case mapping, includes / startsWith / endsWith,
// `split(sep)[0]`, `String(n)`, `padStart(2, '0')` and `parseInt`.

module Options {
  datatype Option<+T> = None | Some(value: T) {
    function GetOr(default: T): T {
      if Some? then value else default
    }
  }
}

module JsText {
  import opened Options

  /** White space and line terminators as String.prototype.trim, parseInt and the regular
      expression class \s understand them. */
  predicate IsSpace(c: char) {
    c == ' ' || c == '\t' || c == '\n' || c == '\r' || c == '\U{000B}' || c == '\U{000C}'
    || c == '\U{00A0}' || c == '\U{FEFF}' || c == '\U{1680}' || ('\U{2000}' <= c <= '\U{200A}')
    || c == '\U{2028}' || c == '\U{2029}' || c == '\U{202F}' || c == '\U{205F}' || c == '\U{3000}'
  }

  predicate AllSpace(s: string) {
    forall i :: 0 <= i < |s| ==> IsSpace(s[i])
  }

  /** String.prototype.trimStart */
  function TrimStart(s: string): (r: string)
    ensures |r| <= |s| && r == s[|s| - |r|..]
    ensures AllSpace(s[..|s| - |r|])
    ensures r == [] || !IsSpace(r[0])
  {
    if s == [] || !IsSpace(s[0]) then s
    else
      var r := TrimStart(s[1..]);
      assert s[1..][..|s| - 1 - |r|] == s[1..|s| - |r|];
      r
  }

  /** The trailing-space half of String.prototype.trim */
  function TrimEnd(s: string): (r: string)
    ensures |r| <= |s| && r == s[..|r|]
    ensures AllSpace(s[|r|..])
    ensures r == [] || !IsSpace(r[|r| - 1])
  {
    if s == [] || !IsSpace(s[|s| - 1]) then s
    else
      var r := TrimEnd(s[..|s| - 1]);
      assert s[..|s| - 1][|r|..] == s[|r|..|s| - 1];
      r
  }

  /** String.prototype.trim */
  function Trim(s: string): string {
    TrimEnd(TrimStart(s))
  }

  /** `!s || s.trim().length === 0`: the text is empty or only white space. */
  predicate IsBlank(s: string) {
    |Trim(s)| == 0
  }

  lemma AllSpaceConcat(a: string, b: string)
    ensures AllSpace(a + b) <==> AllSpace(a) && AllSpace(b)
  {
    if AllSpace(a + b) {
      forall i | 0 <= i < |a| ensures IsSpace(a[i]) {
        assert a[i] == (a + b)[i];
      }
      forall i | 0 <= i < |b| ensures IsSpace(b[i]) {
        assert b[i] == (a + b)[|a| + i];
      }
    }
    if AllSpace(a) && AllSpace(b) {
      forall i | 0 <= i < |a + b| ensures IsSpace((a + b)[i]) {
        if i < |a| {
          assert (a + b)[i] == a[i];
        } else {
          assert (a + b)[i] == b[i - |a|];
        }
      }
    }
  }

  lemma {:induction false} TrimStartEmptyIff(s: string)
    ensures TrimStart(s) == [] <==> AllSpace(s)
  {
    if s != [] && IsSpace(s[0]) {
      TrimStartEmptyIff(s[1..]);
      assert s == [s[0]] + s[1..];
      AllSpaceConcat([s[0]], s[1..]);
    }
  }

  lemma {:induction false} TrimEndEmptyIff(s: string)
    ensures TrimEnd(s) == [] <==> AllSpace(s)
  {
    if s != [] && IsSpace(s[|s| - 1]) {
      TrimEndEmptyIff(s[..|s| - 1]);
      assert s == s[..|s| - 1] + [s[|s| - 1]];
      AllSpaceConcat(s[..|s| - 1], [s[|s| - 1]]);
    }
  }

  lemma BlankIffAllSpace(s: string)
    ensures IsBlank(s) <==> AllSpace(s)
  {
    var t := TrimStart(s);
    TrimEndEmptyIff(t);
    assert s == s[..|s| - |t|] + t;
    AllSpaceConcat(s[..|s| - |t|], t);
  }

  function LowerChar(c: char): char {
    if 'A' <= c <= 'Z' then (c as int + 32) as char else c
  }

  function UpperChar(c: char): char {
    if 'a' <= c <= 'z' then (c as int - 32) as char else c
  }

  /** String.prototype.toLowerCase, on the ASCII letters */
  function ToLower(s: string): (r: string)
    ensures |r| == |s|
  {
    seq(|s|, i requires 0 <= i < |s| => LowerChar(s[i]))
  }

  /** String.prototype.toUpperCase, on the ASCII letters */
  function ToUpper(s: string): (r: string)
    ensures |r| == |s|
  {
    seq(|s|, i requires 0 <= i < |s| => UpperChar(s[i]))
  }

  predicate OccursAt(s: string, sub: string, i: int) {
    0 <= i && i + |sub| <= |s| && s[i..i + |sub|] == sub
  }

  /** The first position at or after `from` where `sub` occurs, or -1. */
  function IndexOfFrom(s: string, sub: string, from: nat): (r: int)
    requires from <= |s| + 1
    ensures r == -1 || (from <= r && OccursAt(s, sub, r))
    ensures r == -1 ==> forall i :: from <= i ==> !OccursAt(s, sub, i)
    ensures r != -1 ==> forall i :: from <= i < r ==> !OccursAt(s, sub, i)
    decreases |s| + 1 - from
  {
    if from + |sub| > |s| then -1
    else if s[from..from + |sub|] == sub then from
    else IndexOfFrom(s, sub, from + 1)
  }

  /** String.prototype.indexOf */
  function IndexOf(s: string, sub: string): int {
    IndexOfFrom(s, sub, 0)
  }

  /** String.prototype.includes */
  predicate Includes(s: string, sub: string) {
    IndexOf(s, sub) >= 0
  }

  lemma IncludesIff(s: string, sub: string)
    ensures Includes(s, sub) <==> exists i :: OccursAt(s, sub, i)
  {
  }

  predicate StartsWith(s: string, prefix: string) {
    |prefix| <= |s| && s[..|prefix|] == prefix
  }

  predicate EndsWith(s: string, suffix: string) {
    |suffix| <= |s| && s[|s| - |suffix|..] == suffix
  }

  /** `s.split(sep)[0]`: the text before the first occurrence of `sep`, or all of `s`. */
  function BeforeFirst(s: string, sep: string): (r: string)
    requires sep != []
    ensures |r| <= |s| && r == s[..|r|]
    ensures !Includes(r, sep)
    ensures Includes(s, sep) <==> |r| < |s|
    ensures |r| < |s| ==> OccursAt(s, sep, |r|)
  {
    var k := IndexOf(s, sep);
    if k < 0 then
      s
    else
      var r := s[..k];
      forall i | 0 <= i ensures !OccursAt(r, sep, i) {
        if OccursAt(r, sep, i) {
          assert r[i..i + |sep|] == s[i..i + |sep|];
          assert OccursAt(s, sep, i) && i < k;
          assert false;
        }
      }
      r
  }

  predicate IsDigit(c: char) {
    '0' <= c <= '9'
  }

  predicate AllDigits(s: string) {
    forall i :: 0 <= i < |s| ==> IsDigit(s[i])
  }

  function DigitChar(d: nat): char
    requires d < 10
  {
    ('0' as int + d) as char
  }

  /** The value of a digit in bases up to 16, or 16 when `c` is no such digit. */
  function DigitValue(c: char): nat {
    if '0' <= c <= '9' then c as int - '0' as int
    else if 'a' <= c <= 'f' then c as int - 'a' as int + 10
    else if 'A' <= c <= 'F' then c as int - 'A' as int + 10
    else 16
  }

  predicate IsRadixDigit(c: char, radix: nat) {
    DigitValue(c) < radix
  }

  lemma DecimalDigitIsDigit(c: char)
    ensures IsRadixDigit(c, 10) <==> IsDigit(c)
  {
  }

  /** The number that the digits `ds` spell in base `radix`. */
  function DigitsValue(ds: string, radix: nat): nat
    requires forall i :: 0 <= i < |ds| ==> IsRadixDigit(ds[i], radix)
  {
    if ds == [] then 0
    else
      var high: nat := DigitsValue(ds[..|ds| - 1], radix);
      var shifted: nat := high * radix;
      shifted + DigitValue(ds[|ds| - 1])
  }

  /** `String(n)` for a non-negative integer */
  function NatToString(n: nat): (r: string)
    ensures |r| >= 1 && AllDigits(r)
    ensures r[0] == '0' ==> n == 0 && r == "0"
  {
    if n < 10 then [DigitChar(n)]
    else NatToString(n / 10) + [DigitChar(n % 10)]
  }

  /** The digits `String(n)` writes spell n. */
  lemma {:induction false} NatToStringValue(n: nat)
    ensures DigitsValue(NatToString(n), 10) == n
  {
    if n >= 10 {
      var r := NatToString(n);
      assert r[..|r| - 1] == NatToString(n / 10);
      NatToStringValue(n / 10);
    }
  }

  /** `String(i)` for an integer */
  function IntToString(i: int): string {
    if i < 0 then "-" + NatToString(-i) else NatToString(i)
  }

  /** `s.padStart(2, '0')` */
  function PadStart2(s: string): (r: string)
    ensures |r| == if |s| >= 2 then |s| else 2
    ensures EndsWith(r, s)
  {
    if |s| >= 2 then s else if |s| == 1 then "0" + s else "00"
  }

  /** `String(n).padStart(2, '0')` */
  function Pad2(n: int): string {
    PadStart2(IntToString(n))
  }

  /** Pad2 writes exactly two characters for the numbers below 100 and more for the others. */
  lemma Pad2Length(n: nat)
    ensures |Pad2(n)| == 2 <==> n < 100
  {
    if n >= 100 {
      assert NatToString(n) == NatToString(n / 10) + [DigitChar(n % 10)];
      assert NatToString(n / 10) == NatToString(n / 100) + [DigitChar(n / 10 % 10)];
    } else {
      Pad2Small(n);
    }
  }

  lemma Pad2Small(n: nat)
    requires n < 100
    ensures |Pad2(n)| == 2 && AllDigits(Pad2(n))
    ensures Pad2(n)[0] == DigitChar(n / 10) && Pad2(n)[1] == DigitChar(n % 10)
  {
    if n < 10 {
      assert IntToString(n) == [DigitChar(n)];
    } else {
      assert NatToString(n / 10) == [DigitChar(n / 10)];
      assert IntToString(n) == [DigitChar(n / 10), DigitChar(n % 10)];
    }
  }

  /** The length of the longest prefix of `s` made of base-`radix` digits. */
  function DigitRun(s: string, radix: nat): (k: nat)
    ensures k <= |s|
    ensures forall i :: 0 <= i < k ==> IsRadixDigit(s[i], radix)
    ensures k < |s| ==> !IsRadixDigit(s[k], radix)
  {
    if s == [] || !IsRadixDigit(s[0], radix) then 0
    else 1 + DigitRun(s[1..], radix)
  }

  /** The length of the longest prefix of `s` made of white space (what \s* consumes). */
  function SpaceRun(s: string): (k: nat)
    ensures k <= |s|
    ensures forall i :: 0 <= i < k ==> IsSpace(s[i])
    ensures k < |s| ==> !IsSpace(s[k])
  {
    if s == [] || !IsSpace(s[0]) then 0
    else 1 + SpaceRun(s[1..])
  }

  /** What \s* consumes is dropped. */
  function SkipSpaces(t: string): (r: string)
    ensures r == [] || !IsSpace(r[0])
  {
    t[SpaceRun(t)..]
  }

  /** A group \d{lo,hi} at the start of `t` that the pattern follows with a non-digit or the end:
      the digits and the text after them. */
  function DigitGroup(t: string, lo: nat, hi: nat): (o: Option<(string, string)>)
    ensures o.Some? ==> lo <= |o.value.0| <= hi && AllDigits(o.value.0) && t == o.value.0 + o.value.1
    ensures o.Some? ==> o.value.1 == [] || !IsDigit(o.value.1[0])
  {
    var k := DigitRun(t, 10);
    if lo <= k <= hi then
      assert forall i :: 0 <= i < k ==> IsDigit(t[i]);
      assert t == t[..k] + t[k..];
      Some((t[..k], t[k..]))
    else None
  }

  /** The group is found exactly where the digits were written. */
  lemma DigitGroupOf(d: string, rest: string, lo: nat, hi: nat)
    requires AllDigits(d) && lo <= |d| <= hi
    requires rest == [] || !IsDigit(rest[0])
    ensures DigitGroup(d + rest, lo, hi) == Some((d, rest))
  {
    DigitRunOfDigits(d, rest);
    assert (d + rest)[..|d|] == d;
    assert (d + rest)[|d|..] == rest;
  }

  lemma TwoDigitsValue(t: string)
    requires |t| == 2 && AllDigits(t)
    ensures DigitsValue(t, 10) == DigitValue(t[0]) * 10 + DigitValue(t[1])
  {
    var u := t[..1];
    assert u[..0] == [];
    assert DigitsValue(u[..0], 10) == 0;
    assert DigitsValue(u, 10) == DigitValue(t[0]);
    assert t[..|t| - 1] == u;
  }

  /** Two digits written by Pad2 read back as the number. */
  lemma Pad2Value(n: nat)
    requires n < 100
    ensures AllDigits(Pad2(n)) && |Pad2(n)| == 2 && DigitsValue(Pad2(n), 10) == n
  {
    Pad2Small(n);
    TwoDigitsValue(Pad2(n));
    assert DigitValue(DigitChar(n / 10)) == n / 10;
    assert DigitValue(DigitChar(n % 10)) == n % 10;
  }

  lemma LeadingDigitPositive(d: string)
    requires d != [] && AllDigits(d) && d[0] != '0'
    ensures DigitsValue(d, 10) > 0
    decreases |d|
  {
    if |d| > 1 {
      LeadingDigitPositive(d[..|d| - 1]);
    }
  }

  /** Digits without a leading zero are what String prints for their value. */
  lemma {:induction false} NatToStringOfDigits(d: string)
    requires d != [] && AllDigits(d) && (d[0] == '0' ==> |d| == 1)
    ensures NatToString(DigitsValue(d, 10)) == d
    decreases |d|
  {
    var n := DigitsValue(d, 10);
    if |d| == 1 {
      assert d[..|d| - 1] == [];
      assert DigitsValue([], 10) == 0;
      assert n == DigitValue(d[0]);
    } else {
      var init := d[..|d| - 1];
      assert init[0] == d[0];
      LeadingDigitPositive(init);
      NatToStringOfDigits(init);
      var v := DigitValue(d[|d| - 1]);
      assert n == DigitsValue(init, 10) * 10 + v;
      assert n / 10 == DigitsValue(init, 10) && n % 10 == v;
      assert DigitChar(v) == d[|d| - 1];
      assert d == init + [d[|d| - 1]];
    }
  }

  /** A text that neither starts nor ends with white space is its own trim. */
  lemma TrimOfTrimmed(s: string)
    requires s == [] || (!IsSpace(s[0]) && !IsSpace(s[|s| - 1]))
    ensures TrimStart(s) == s && Trim(s) == s
  {
  }

  /** `split(c)[0]` stops at the first separator. */
  lemma BeforeFirstChar(a: string, c: char, b: string)
    requires forall i :: 0 <= i < |a| ==> a[i] != c
    ensures BeforeFirst(a + [c] + b, [c]) == a
  {
    var s := a + [c] + b;
    forall i | 0 <= i < |a| ensures !OccursAt(s, [c], i) {
      assert s[i..i + 1] == [a[i]];
    }
    assert s[|a|..|a| + 1] == [c];
    var r := IndexOf(s, [c]);
    assert OccursAt(s, [c], |a|);
    assert r != -1;
    assert r <= |a|;
    assert !(r < |a|);
    assert s[..|a|] == a;
  }

  lemma ConcatAssoc(a: string, b: string, c: string)
    ensures a + b + c == a + (b + c)
  {
  }

  lemma ConcatEmpty(a: string)
    ensures a + "" == a && "" + a == a
  {
  }

  /** Steps 4 to 16 of parseInt, after the white space is gone: the sign, the optional "0x"
      prefix (only when the radix is left to parseInt) and the longest run of digits. */
  function ParseIntBody(s: string, autoRadix: bool): Option<int> {
    var neg := s != [] && s[0] == '-';
    var t := if s != [] && (s[0] == '-' || s[0] == '+') then s[1..] else s;
    match UnsignedValue(t, autoRadix)
    case None => None
    case Some(v) => Some(if neg then -v else v)
  }

  /** The radix prefix and the digits after the sign */
  function UnsignedValue(t: string, autoRadix: bool): Option<int> {
    var hex := autoRadix && |t| >= 2 && t[0] == '0' && (t[1] == 'x' || t[1] == 'X');
    var radix := if hex then 16 else 10;
    var u := if hex then t[2..] else t;
    var k := DigitRun(u, radix);
    if k == 0 then None
    else Some(DigitsValue(u[..k], radix) as int)
  }

  /** `parseInt(s)`: None stands for NaN. */
  function ParseInt(s: string): Option<int> {
    ParseIntBody(TrimStart(s), true)
  }

  /** `parseInt(s, 10)`: None stands for NaN. */
  function ParseInt10(s: string): Option<int> {
    ParseIntBody(TrimStart(s), false)
  }

  /** `Number(s)` on a text holding a whole number: the white space around it is ignored, the empty
      text is 0, a sign may lead the digits, and None stands for NaN. */
  function NumberOf(s: string): (r: Option<int>)
    ensures IsBlank(s) ==> r == Some(0)
  {
    var t := Trim(s);
    if t == [] then Some(0)
    else
      var u := if t[0] == '-' || t[0] == '+' then t[1..] else t;
      if u != [] && AllDigits(u) then
        var v: int := DigitsValue(u, 10);
        Some(if t[0] == '-' then -v else v)
      else None
  }

  /** A run of decimal digits reads as its value. */
  lemma NumberOfDigits(d: string)
    requires d != [] && AllDigits(d)
    ensures NumberOf(d) == Some(DigitsValue(d, 10))
  {
    TrimOfTrimmed(d);
  }

  /** A text without the separator is its own first field. */
  lemma BeforeFirstMissing(s: string, c: char)
    requires forall i :: 0 <= i < |s| ==> s[i] != c
    ensures BeforeFirst(s, [c]) == s
  {
    forall i | 0 <= i ensures !OccursAt(s, [c], i) {
      if i < |s| {
        assert s[i..i + 1] == [s[i]];
      }
    }
    IncludesIff(s, [c]);
  }

  lemma {:induction false} DigitRunOfDigits(s: string, rest: string)
    requires AllDigits(s)
    requires rest == [] || !IsDigit(rest[0])
    ensures DigitRun(s + rest, 10) == |s|
  {
    if s != [] {
      assert (s + rest)[1..] == s[1..] + rest;
      DigitRunOfDigits(s[1..], rest);
    }
  }

  /** A run of decimal digits followed by a non-digit: the run and its digits */
  lemma DecimalRun(d: string, rest: string)
    requires AllDigits(d) && (rest == [] || !IsDigit(rest[0]))
    ensures DigitRun(d + rest, 10) == |d| && (d + rest)[..|d|] == d
    ensures forall i :: 0 <= i < |d| ==> IsRadixDigit(d[i], 10)
  {
    DigitRunOfDigits(d, rest);
    assert (d + rest)[..|d|] == d;
  }

  /** parseInt's digits on unsigned decimal digits that cannot be read as a "0x" prefix */
  lemma UnsignedBody(d: string, rest: string, autoRadix: bool)
    requires d != [] && AllDigits(d) && (rest == [] || !IsDigit(rest[0]))
    requires autoRadix && d == "0" ==> rest == [] || (rest[0] != 'x' && rest[0] != 'X')
    ensures UnsignedValue(d + rest, autoRadix) == Some(DigitsValue(d, 10))
    ensures ParseIntBody(d + rest, autoRadix) == Some(DigitsValue(d, 10))
  {
    var t := d + rest;
    assert t[0] == d[0];
    if |d| >= 2 {
      assert t[1] == d[1];
    } else if rest != [] {
      assert t[1] == rest[0];
    }
    DecimalRun(d, rest);
  }

  /** Digits alone read as their value: a digit after a leading '0' is no radix prefix. */
  lemma UnsignedDigits(d: string, autoRadix: bool, v: int)
    requires d != [] && AllDigits(d)
    requires forall i :: 0 <= i < |d| ==> IsRadixDigit(d[i], 10)
    requires DigitsValue(d, 10) == v
    ensures UnsignedValue(d, autoRadix) == Some(v)
  {
    DigitRunAll(d);
    assert d[..|d|] == d;
  }

  lemma {:induction false} DigitRunAll(d: string)
    requires AllDigits(d)
    ensures DigitRun(d, 10) == |d|
    ensures forall i :: 0 <= i < |d| ==> IsRadixDigit(d[i], 10)
  {
    if d != [] {
      DigitRunAll(d[1..]);
    }
  }

  lemma TrimStartOfNonSpace(u: string)
    requires u != [] && !IsSpace(u[0])
    ensures TrimStart(u) == u
  {
  }

  /** Printing an integer with String and reading it back with parseInt gives the integer. */
  lemma NatToStringParses(n: nat, rest: string)
    requires rest == [] || !IsDigit(rest[0])
    ensures ParseInt10(NatToString(n) + rest) == Some(n)
    ensures rest == [] || (rest[0] != 'x' && rest[0] != 'X') ==> ParseInt(NatToString(n) + rest) == Some(n)
  {
    var s := NatToString(n);
    NatToStringValue(n);
    var u := s + rest;
    assert u[0] == s[0];
    TrimStartOfNonSpace(u);
    UnsignedBody(s, rest, false);
    if rest == [] || (rest[0] != 'x' && rest[0] != 'X') {
      UnsignedBody(s, rest, true);
    }
  }

  lemma IntToStringParses(i: int)
    ensures ParseInt10(IntToString(i)) == Some(i)
    ensures ParseInt(IntToString(i)) == Some(i)
  {
    if i < 0 {
      NegativeParses(i);
    } else {
      NatToStringParses(i, []);
      assert NatToString(i) + [] == NatToString(i);
    }
  }

  lemma NegativeParses(i: int)
    requires i < 0
    ensures ParseInt10("-" + NatToString(-i)) == Some(i)
    ensures ParseInt("-" + NatToString(-i)) == Some(i)
  {
    NatToStringValue(-i);
    NegativeDigitsParse(NatToString(-i), i);
  }

  /** A '-' followed by digits reads as the negated value of the digits. */
  lemma NegativeDigitsParse(s: string, i: int)
    requires s != [] && AllDigits(s)
    requires forall k :: 0 <= k < |s| ==> IsRadixDigit(s[k], 10)
    requires DigitsValue(s, 10) == -i
    ensures ParseInt10("-" + s) == Some(i)
    ensures ParseInt("-" + s) == Some(i)
  {
    UnsignedDigits(s, false, -i);
    UnsignedDigits(s, true, -i);
    SignedParse(s, -i, i);
  }

  /** Both readings of '-' and the digits negate the digits' value. */
  lemma SignedParse(t: string, v: int, i: int)
    requires UnsignedValue(t, false) == Some(v) && UnsignedValue(t, true) == Some(v)
    requires i == -v
    ensures ParseInt10("-" + t) == Some(i)
    ensures ParseInt("-" + t) == Some(i)
  {
    SignedBody(t, false, v);
    SignedBody(t, true, v);
  }

  /** A leading '-' negates what the digits after it read as. */
  lemma SignedBody(t: string, autoRadix: bool, v: int)
    requires UnsignedValue(t, autoRadix) == Some(v)
    ensures TrimStart("-" + t) == "-" + t
    ensures ParseIntBody("-" + t, autoRadix) == Some(-v)
  {
    var u := "-" + t;
    assert u[1..] == t;
  }

  /** `a < b` on strings: character by character, a proper prefix first */
  predicate StrLess(a: string, b: string) {
    if |a| == 0 then |b| > 0
    else if |b| == 0 then false
    else if a[0] != b[0] then a[0] < b[0]
    else StrLess(a[1..], b[1..])
  }

  lemma {:induction false} StrLessAsym(a: string, b: string)
    ensures StrLess(a, b) ==> !StrLess(b, a)
  {
    if |a| > 0 && |b| > 0 && a[0] == b[0] {
      StrLessAsym(a[1..], b[1..]);
    }
  }

  lemma {:induction false} StrLessTotal(a: string, b: string)
    ensures a == b || StrLess(a, b) || StrLess(b, a)
  {
    if |a| > 0 && |b| > 0 && a[0] == b[0] {
      StrLessTotal(a[1..], b[1..]);
      if a[1..] == b[1..] {
        assert a == [a[0]] + a[1..] && b == [b[0]] + b[1..];
      }
    }
  }

  lemma {:induction false} StrLessTrans(a: string, b: string, c: string)
    requires StrLess(a, b) && StrLess(b, c)
    ensures StrLess(a, c)
  {
    if |a| > 0 && a[0] == b[0] && b[0] == c[0] {
      StrLessTrans(a[1..], b[1..], c[1..]);
    }
  }
}
