// Colour handling: the `rgb(r, g, b)` pattern shared by src/services/excel/excel-styling.ts and
// src/components/ui/color-picker.tsx, the spreadsheet cell style, and `parseRgb`.

module RgbPattern {
  import opened Options
  import opened JsText

  datatype Rgb = Rgb(r: nat, g: nat, b: nat)

  const WHITE := Rgb(255, 255, 255)

  /** A `(\d+)` group at the start of `t` followed by the character `sep`: the decimal value
      of the digits and the text after `sep`. The digits are taken greedily, which is the only
      way the group can be followed by a non-digit. */
  function NumberThen(t: string, sep: char): (o: Option<(nat, string)>)
    ensures o.Some? ==> |o.value.1| < |t|
  {
    var k := DigitRun(t, 10);
    if k == 0 || k >= |t| || t[k] != sep then None
    else Some((DigitsValue(t[..k], 10), t[k + 1..]))
  }

  /** The regular expression rgb\((\d+),\s*(\d+),\s*(\d+)\) matched at the start of `t` */
  function RgbPrefix(t: string): (o: Option<Rgb>)
    ensures o.Some? ==> |t| >= 4 && t[..4] == "rgb("
  {
    if |t| < 4 || t[..4] != "rgb(" then None
    else match NumberThen(t[4..], ',')
      case None => None
      case Some((r, rest1)) =>
        match NumberThen(SkipSpaces(rest1), ',')
        case None => None
        case Some((g, rest2)) =>
          match NumberThen(SkipSpaces(rest2), ')')
          case None => None
          case Some((b, _)) => Some(Rgb(r, g, b))
  }

  /** The pattern matched at position `i` of `s` */
  function RgbMatchAt(s: string, i: nat): Option<Rgb> {
    if i <= |s| then RgbPrefix(s[i..]) else None
  }

  /** The leftmost match at or after `from` */
  function FirstRgbMatch(s: string, from: nat): (o: Option<Rgb>)
    ensures o.None? ==> forall i :: from <= i ==> RgbMatchAt(s, i).None?
    ensures o.Some? ==> exists i :: from <= i < |s| && RgbMatchAt(s, i) == o
    decreases |s| - from
  {
    if from >= |s| then None
    else if RgbMatchAt(s, from).Some? then RgbMatchAt(s, from)
    else FirstRgbMatch(s, from + 1)
  }

  /** `s.match(/rgb\((\d+),\s*(\d+),\s*(\d+)\)/)` with the three groups read by Number */
  function RgbMatch(s: string): Option<Rgb> {
    FirstRgbMatch(s, 0)
  }

  /** A text with no letter 'r' holds no rgb(...) pattern. */
  lemma NoRgbWithoutR(s: string)
    requires forall i :: 0 <= i < |s| ==> s[i] != 'r'
    ensures RgbMatch(s).None?
  {
    forall i | 0 <= i ensures RgbMatchAt(s, i).None? {
      if i + 4 <= |s| {
        assert s[i..][..4][0] == s[i];
      }
    }
  }

  /** The colour as the application writes it: "rgb(r, g, b)" */
  function RgbText(c: Rgb): string {
    "rgb(" + NatToString(c.r) + ", " + NatToString(c.g) + ", " + NatToString(c.b) + ")"
  }

  lemma {:induction false} NumberThenOfText(n: nat, sep: char, rest: string)
    requires !IsDigit(sep)
    ensures NumberThen(NatToString(n) + [sep] + rest, sep) == Some((n, rest))
  {
    var d := NatToString(n);
    NatToStringValue(n);
    var t := d + [sep] + rest;
    assert t == d + ([sep] + rest);
    DigitRunOfDigits(d, [sep] + rest);
    assert t[..|d|] == d;
    assert t[|d| + 1..] == rest;
  }

  lemma SkipOneSpace(n: nat, rest: string)
    ensures SkipSpaces(" " + NatToString(n) + rest) == NatToString(n) + rest
  {
    var t := " " + NatToString(n) + rest;
    assert t[1..] == NatToString(n) + rest;
    assert !IsSpace(t[1]);
  }

  /** The pattern at the start of a text is read group by group. */
  lemma RgbPrefixSteps(t: string, c: Rgb, rest1: string, rest2: string, rest3: string)
    requires |t| >= 4 && t[..4] == "rgb("
    requires NumberThen(t[4..], ',') == Some((c.r, rest1))
    requires NumberThen(SkipSpaces(rest1), ',') == Some((c.g, rest2))
    requires NumberThen(SkipSpaces(rest2), ')') == Some((c.b, rest3))
    ensures RgbPrefix(t) == Some(c)
  {
  }

  lemma RgbTextSplit(c: Rgb)
    ensures var s := RgbText(c);
      |s| >= 4 && s[..4] == "rgb(" &&
      s[4..] == NatToString(c.r) + [','] + (" " + NatToString(c.g) + (", " + NatToString(c.b) + ")"))
  {
    var tr, tg, tb := NatToString(c.r), NatToString(c.g), NatToString(c.b);
    var s := RgbText(c);
    var tail := tr + [','] + (" " + tg + (", " + NatToString(c.b) + ")"));
    assert s == "rgb(" + tail;
  }

  /** The pattern reads back the three numbers of RgbText. */
  lemma RgbTextMatches(c: Rgb)
    ensures RgbMatch(RgbText(c)) == Some(c)
  {
    var s := RgbText(c);
    var tb := NatToString(c.b);
    var rest1 := " " + NatToString(c.g) + (", " + tb + ")");
    RgbTextSplit(c);
    NumberThenOfText(c.r, ',', rest1);
    SecondGroup(c.g, tb);
    ThirdGroup(c.b);
    RgbPrefixSteps(s, c, rest1, " " + tb + ")", "");
    PrefixMatchFirst(s);
  }

  /** After the first comma: a space, the green number and a comma */
  lemma SecondGroup(g: nat, tb: string)
    ensures NumberThen(SkipSpaces(" " + NatToString(g) + (", " + tb + ")")), ',') == Some((g, " " + tb + ")"))
  {
    var tg := NatToString(g);
    var rest := " " + tb + ")";
    assert ", " + tb + ")" == [','] + rest;
    SkipOneSpace(g, [','] + rest);
    ConcatAssoc(tg, [','], rest);
    NumberThenOfText(g, ',', rest);
  }

  /** After the second comma: a space, the blue number and the closing parenthesis */
  lemma ThirdGroup(b: nat)
    ensures NumberThen(SkipSpaces(" " + NatToString(b) + ")"), ')') == Some((b, ""))
  {
    SkipOneSpace(b, ")");
    NumberThenOfText(b, ')', "");
    assert NatToString(b) + [')'] + "" == NatToString(b) + ")";
  }

  /** A pattern at the very start is the leftmost one. */
  lemma PrefixMatchFirst(s: string)
    requires RgbPrefix(s).Some?
    ensures RgbMatch(s) == RgbPrefix(s)
  {
    assert s[0..] == s;
  }
}

module ExcelStyling {
  import opened Options
  import opened JsText
  import opened RgbPattern

  function HexDigitChar(d: nat): (c: char)
    requires d < 16
    ensures DigitValue(c) == d && c != 'r' && c != '#'
  {
    if d < 10 then ('0' as int + d) as char else ('a' as int + d - 10) as char
  }

  /** `n.toString(16)` */
  function NatToHex(n: nat): (r: string)
    ensures |r| >= 1 && r[|r| - 1] == HexDigitChar(n % 16)
    ensures n >= 16 ==> |r| >= 2 && r[|r| - 2] == HexDigitChar(n / 16 % 16)
    ensures forall i :: 0 <= i < |r| ==> DigitValue(r[i]) < 16 && r[i] != 'r'
  {
    if n < 16 then [HexDigitChar(n)] else NatToHex(n / 16) + [HexDigitChar(n % 16)]
  }

  /** ``(c) => `0${c.toString(16)}`.slice(-2)`` */
  function ToHex(c: nat): string {
    var t := "0" + NatToHex(c);
    t[|t| - 2..]
  }

  lemma LowByteDigits(c: nat)
    ensures c / 16 % 16 == c % 256 / 16
  {
    var q, m := c / 256, c % 256;
    assert c == 256 * q + m;
    assert c / 16 == 16 * q + m / 16;
  }

  /** toHex keeps the low byte of the channel, as two lower-case hex digits. */
  lemma ToHexLowByte(c: nat)
    ensures ToHex(c) == [HexDigitChar(c % 256 / 16), HexDigitChar(c % 16)]
  {
    var r := NatToHex(c);
    var t := "0" + r;
    if c >= 16 {
      LowByteDigits(c);
      assert t[|t| - 2..] == [r[|r| - 2], r[|r| - 1]];
    } else {
      assert t == ['0', HexDigitChar(c)];
    }
  }

  /** The six hex digits of a colour's three low bytes */
  function HexOfBytes(c: Rgb): string {
    [HexDigitChar(c.r % 256 / 16), HexDigitChar(c.r % 16),
     HexDigitChar(c.g % 256 / 16), HexDigitChar(c.g % 16),
     HexDigitChar(c.b % 256 / 16), HexDigitChar(c.b % 16)]
  }

  function RgbToHex(rgb: string): string {
    match RgbMatch(rgb)
    case None => "FFFFFF"
    case Some(c) => ToHex(c.r) + ToHex(c.g) + ToHex(c.b)
  }

  /** rgbToHex writes 'FFFFFF' when there is no rgb(...) pattern, and otherwise the low byte of
      each channel as two lower-case hex digits. */
  lemma RgbToHexBytes(rgb: string)
    ensures RgbMatch(rgb).None? ==> RgbToHex(rgb) == "FFFFFF"
    ensures RgbMatch(rgb).Some? ==> RgbToHex(rgb) == HexOfBytes(RgbMatch(rgb).value)
  {
    if RgbMatch(rgb).Some? {
      var c := RgbMatch(rgb).value;
      HexOfBytesIsToHex(c);
    }
  }

  lemma HexOfBytesIsToHex(c: Rgb)
    ensures ToHex(c.r) + ToHex(c.g) + ToHex(c.b) == HexOfBytes(c)
  {
    ToHexLowByte(c.r);
    ToHexLowByte(c.g);
    ToHexLowByte(c.b);
  }

  datatype Theme = Light | Dark

  /** getTextColor. The luminance (0.299 r + 0.587 g + 0.114 b) / 255 < 0.5 is compared in exact
      arithmetic. */
  function GetTextColor(backgroundColor: string, theme: Theme): (color: string)
    ensures color == "FFFFFF" || color == "000000"
    ensures RgbMatch(backgroundColor).None? ==> (color == "FFFFFF" <==> theme == Dark)
  {
    match RgbMatch(backgroundColor)
    case None => if theme == Dark then "FFFFFF" else "000000"
    case Some(c) => if 299 * c.r + 587 * c.g + 114 * c.b < 127500 then "FFFFFF" else "000000"
  }

  datatype CellStyle = CellStyle(
    fill: string, fontColor: string, bold: bool, italic: bool,
    border: string, horizontal: string, vertical: string)

  function GetCellStyle(backgroundColor: string, theme: Theme, isHeader: bool, isSynthetic: bool): (style: CellStyle)
    ensures style.fill == RgbToHex(backgroundColor)
    ensures style.fontColor == GetTextColor(backgroundColor, theme)
    ensures style.bold == isHeader && style.italic == isSynthetic
    ensures style.border == "thin" && style.horizontal == "center" && style.vertical == "center"
  {
    CellStyle(RgbToHex(backgroundColor), GetTextColor(backgroundColor, theme), isHeader, isSynthetic,
              "thin", "center", "center")
  }
}

module ColorPicker {
  import opened Options
  import opened JsText
  import opened RgbPattern
  import ExcelStyling

  predicate IsHexChar(c: char) {
    DigitValue(c) < 16
  }

  /** `parseInt(pair, 16)` for two hex digits */
  function HexPairValue(a: char, b: char): nat
    requires IsHexChar(a) && IsHexChar(b)
  {
    DigitValue(a) * 16 + DigitValue(b)
  }

  /** The regular expression ^#?([a-f\d]{2})([a-f\d]{2})([a-f\d]{2})$ with the i flag */
  function HexMatch(s: string): Option<Rgb> {
    var t := if |s| > 0 && s[0] == '#' then s[1..] else s;
    if |t| == 6 && forall i :: 0 <= i < 6 ==> IsHexChar(t[i]) then
      Some(Rgb(HexPairValue(t[0], t[1]), HexPairValue(t[2], t[3]), HexPairValue(t[4], t[5])))
    else None
  }

  /** parseRgb; `None` is an undefined colour. */
  function ParseRgb(color: Option<string>): (c: Rgb)
    ensures color.None? || color.value == "" ==> c == WHITE
    ensures color.Some? && color.value != "" && RgbMatch(color.value).Some? ==> c == RgbMatch(color.value).value
    ensures color.Some? && RgbMatch(color.value).None? && HexMatch(color.value).None? ==> c == WHITE
  {
    if color.None? || color.value == "" then WHITE
    else match RgbMatch(color.value)
      case Some(c) => c
      case None => HexMatch(color.value).GetOr(WHITE)
  }

  /** Two hex digits written for a low byte read back as that byte. */
  lemma HexPairOfByte(x: nat)
    ensures IsHexChar(ExcelStyling.HexDigitChar(x % 256 / 16)) && IsHexChar(ExcelStyling.HexDigitChar(x % 16))
    ensures HexPairValue(ExcelStyling.HexDigitChar(x % 256 / 16), ExcelStyling.HexDigitChar(x % 16)) == x % 256
  {
    var m := x % 256;
    assert x % 16 == m % 16 by {
      assert x == 256 * (x / 256) + m;
      assert x == 16 * (16 * (x / 256) + m / 16) + m % 16;
    }
    assert m / 16 * 16 + m % 16 == m;
  }

  lemma HexMatchOfBytes(c: Rgb)
    ensures HexMatch(ExcelStyling.HexOfBytes(c)) == Some(Rgb(c.r % 256, c.g % 256, c.b % 256))
  {
    var t := ExcelStyling.HexOfBytes(c);
    HexPairOfByte(c.r);
    HexPairOfByte(c.g);
    HexPairOfByte(c.b);
    assert t[0] != '#';
    assert forall i :: 0 <= i < 6 ==> IsHexChar(t[i]);
  }

  lemma HexMatchOfWhite()
    ensures HexMatch("FFFFFF") == Some(WHITE)
  {
    var t := "FFFFFF";
    assert DigitValue('F') == 15;
    assert forall i :: 0 <= i < 6 ==> t[i] == 'F';
    assert HexPairValue('F', 'F') == 255;
  }

  /** A text without the letter 'r' is read by the hex pattern alone. */
  lemma ParseRgbOfHexText(hex: string)
    requires hex != [] && forall i :: 0 <= i < |hex| ==> hex[i] != 'r'
    ensures ParseRgb(Some(hex)) == HexMatch(hex).GetOr(WHITE)
  {
    NoRgbWithoutR(hex);
  }

  /** Whatever rgbToHex writes, parseRgb reads back as the low bytes of the colour it found,
      or as white when it found none. */
  lemma ParseRgbOfHex(s: string)
    ensures RgbMatch(s).None? ==> ParseRgb(Some(ExcelStyling.RgbToHex(s))) == WHITE
    ensures RgbMatch(s).Some? ==>
      var c := RgbMatch(s).value;
      ParseRgb(Some(ExcelStyling.RgbToHex(s))) == Rgb(c.r % 256, c.g % 256, c.b % 256)
  {
    ExcelStyling.RgbToHexBytes(s);
    if RgbMatch(s).Some? {
      ParseHexOfBytes(RgbMatch(s).value);
    } else {
      ParseWhiteHex();
    }
  }

  lemma ParseHexOfBytes(c: Rgb)
    ensures ParseRgb(Some(ExcelStyling.HexOfBytes(c))) == Rgb(c.r % 256, c.g % 256, c.b % 256)
  {
    var t := ExcelStyling.HexOfBytes(c);
    HexMatchOfBytes(c);
    assert forall i :: 0 <= i < |t| ==> t[i] != 'r';
    ParseRgbOfHexText(t);
  }

  lemma ParseWhiteHex()
    ensures ParseRgb(Some("FFFFFF")) == WHITE
  {
    HexMatchOfWhite();
    ParseRgbOfHexText("FFFFFF");
  }

  lemma ByteIsLowByte(x: nat)
    requires x <= 255
    ensures x % 256 == x
  {
  }

  /** Colours with channels up to 255 survive a trip through rgbToHex and parseRgb. */
  lemma {:induction false} RgbHexRoundTrip(c: Rgb)
    requires c.r <= 255 && c.g <= 255 && c.b <= 255
    ensures ParseRgb(Some(ExcelStyling.RgbToHex(RgbText(c)))) == c
    ensures ParseRgb(Some(RgbText(c))) == c
  {
    assert Rgb(c.r % 256, c.g % 256, c.b % 256) == c by {
      ByteIsLowByte(c.r);
      ByteIsLowByte(c.g);
      ByteIsLowByte(c.b);
    }
    var t := RgbText(c);
    RgbTextMatches(c);
    ParseRgbOfHex(t);
    assert t[0] == 'r';
  }
}
