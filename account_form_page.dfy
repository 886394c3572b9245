// The time picker of the account form (src/pages/accounts/AccountFormPage.tsx): `parseTime`
// reads the stored start time into the picker's hour, minute and AM/PM fields, and
// `handleTimeSelect` writes the picked time back as "HH:MM AM|PM".

module AccountFormPage {
  import opened Options
  import opened JsText
  import opened ClockPattern
  import ExcelDateTime

  /** The three picker fields */
  datatype PickerTime = PickerTime(hour: int, minute: int, ampm: string)

  predicate IsAmPm(ampm: string) {
    ampm == "AM" || ampm == "PM"
  }

  /** The pattern ^(\d{1,2}):(\d{2})(?::\d{2})?\s*(AM|PM)$ with the i flag: the hour group, the
      minute group and the marker as written. */
  function TwelveHourMatch(s: string): (o: Option<(string, string, string)>)
    ensures o.Some? ==> 1 <= |o.value.0| <= 2 && AllDigits(o.value.0) && TwoDigits(o.value.1)
                        && AllDigits(o.value.1) && IsMarker(o.value.2)
    ensures o.Some? ==> DigitsValue(o.value.0, 10) < 100 && DigitsValue(o.value.1, 10) < 100
  {
    match ClockScan(s)
    case None => None
    case Some(p) =>
      var t := SkipSpaces(p.rest);
      if IsMarker(t) then
        HourBelow100(p.hour);
        TwoDigitsBelow100(p.minute);
        Some((p.hour, p.minute, t))
      else None
  }

  /** `const [h, m] = s.split(':')`: the first field and, when there is a ':', the second. */
  function HourMinuteFields(s: string): (r: (string, Option<string>))
    ensures Includes(s, ":") <==> r.1.Some?
  {
    var h := BeforeFirst(s, ":");
    if |h| < |s| then (h, Some(BeforeFirst(s[|h| + 1..], ":"))) else (h, None)
  }

  /** The 24-hour to 12-hour adjustment of the fallback branch */
  function TwelveHour(hour: int): (int, string) {
    if hour >= 12 then (if hour > 12 then hour - 12 else hour, "PM")
    else if hour == 0 then (12, "AM")
    else (hour, "AM")
  }

  /** `parseTime`: the empty text is 12:00 PM; a twelve-hour text keeps its groups; anything else is
      read as 24-hour fields with `Number`, where NaN and a missing minute are 0. */
  function ParseTime(timeStr: string): (r: PickerTime)
    ensures timeStr == "" ==> r == PickerTime(12, 0, "PM")
    ensures IsAmPm(r.ampm)
    ensures TwelveHourMatch(timeStr).Some? ==> 0 <= r.hour < 100 && 0 <= r.minute < 100
    ensures timeStr != "" && TwelveHourMatch(timeStr).None? && !Includes(timeStr, ":") ==> r.minute == 0
  {
    if timeStr == "" then PickerTime(12, 0, "PM")
    else
      var o := TwelveHourMatch(timeStr);
      if o.Some? then MarkedTime(o.value.0, o.value.1, o.value.2)
      else LooseTime(timeStr)
  }

  /** The branch of a twelve-hour match: the groups' values and the marker in capitals */
  function MarkedTime(h: string, m: string, marker: string): (r: PickerTime)
    requires AllDigits(h) && AllDigits(m) && IsMarker(marker)
    ensures r.hour == DigitsValue(h, 10) && r.minute == DigitsValue(m, 10) && IsAmPm(r.ampm)
  {
    PickerTime(DigitsValue(h, 10), DigitsValue(m, 10), ToUpper(marker))
  }

  /** The fallback branch: `Number` of each field, NaN and a missing minute read as 0 */
  function LooseTime(timeStr: string): (r: PickerTime)
    ensures IsAmPm(r.ampm)
    ensures !Includes(timeStr, ":") ==> r.minute == 0
  {
    var (h, m) := HourMinuteFields(timeStr);
    var (hour, ampm) := TwelveHour(NumberOf(h).GetOr(0));
    PickerTime(hour, if m.Some? then NumberOf(m.value).GetOr(0) else 0, ampm)
  }

  lemma HourBelow100(d: string)
    requires 1 <= |d| <= 2 && AllDigits(d)
    ensures DigitsValue(d, 10) < 100
  {
    if |d| == 2 {
      TwoDigitsValue(d);
    } else {
      assert DigitsValue(d[..0], 10) == 0;
    }
  }

  /** `handleTimeSelect`: "HH:MM AM|PM" */
  function FormatTime(t: PickerTime): (r: string)
    ensures 0 <= t.hour < 100 && 0 <= t.minute < 100 && IsAmPm(t.ampm) ==> |r| == 8
  {
    Pad2Bounds(t.hour);
    Pad2Bounds(t.minute);
    Pad2(t.hour) + ":" + Pad2(t.minute) + " " + t.ampm
  }

  lemma Pad2Bounds(n: int)
    ensures 0 <= n < 100 ==> |Pad2(n)| == 2
  {
    if 0 <= n < 100 {
      Pad2Small(n);
    }
  }

  /** The hour of a 24-hour clock comes back from the twelve-hour form the picker shows. */
  lemma TwelveHourInverse(h: int)
    requires 0 <= h < 24
    ensures var (h12, ampm) := TwelveHour(h);
      1 <= h12 <= 12 && IsAmPm(ampm) && ExcelDateTime.To24Hour(h12, Some(ampm)) == h
  {
  }

  /** A picked time reads back as the same picker fields. */
  lemma {:induction false} FormatTimeParses(t: PickerTime)
    requires 0 <= t.hour < 100 && 0 <= t.minute < 100 && IsAmPm(t.ampm)
    ensures ParseTime(FormatTime(t)) == t
  {
    Pad2Value(t.hour);
    Pad2Value(t.minute);
    var s := FormatTime(t);
    TwelveHourMatchOf(Pad2(t.hour), Pad2(t.minute), t.ampm);
    MarkerIsUpper(t.ampm);
  }

  lemma TwelveHourMatchOf(hh: string, mm: string, marker: string)
    requires TwoDigits(hh) && TwoDigits(mm) && IsAmPm(marker)
    ensures TwelveHourMatch(hh + ":" + mm + " " + marker) == Some((hh, mm, marker))
  {
    var s := hh + ":" + mm + " " + marker;
    assert ClockScan(s) == Some(ClockParts(hh, mm, None, " " + marker)) by {
      ExcelDateTime.TwelveHourScan(hh, mm, marker);
    }
    assert SkipSpaces(" " + marker) == marker && IsMarker(marker) by {
      ExcelDateTime.SkipOneSpaceBefore(marker);
      MarkerIsUpper(marker);
    }
  }

  /** A stored "HH:mm" or "HH:mm:ss" does not match the twelve-hour pattern and splits into its
      hour and minute groups. */
  lemma TwentyFourHourFields(hh: string, mm: string, ss: Option<string>)
    requires TwoDigits(hh) && TwoDigits(mm) && (ss.Some? ==> TwoDigits(ss.value))
    ensures var s := hh + ":" + mm + SecondsPart(ss);
      TwelveHourMatch(s).None? && HourMinuteFields(s) == (hh, Some(mm))
  {
    var b := mm + SecondsPart(ss);
    NoTwelveHourMatch(hh, mm, ss);
    assert hh + ":" + mm + SecondsPart(ss) == hh + ":" + b by {
      ConcatAssoc(hh + ":", mm, SecondsPart(ss));
    }
    NoColonInTwoDigits(hh);
    FieldsAtFirstColon(hh, b);
    MinuteField(mm, ss);
  }

  lemma NoTwelveHourMatch(hh: string, mm: string, ss: Option<string>)
    requires TwoDigits(hh) && TwoDigits(mm) && (ss.Some? ==> TwoDigits(ss.value))
    ensures TwelveHourMatch(hh + ":" + mm + SecondsPart(ss)).None?
  {
    ExcelDateTime.TwentyFourHourScan(hh, mm, ss);
    assert SkipSpaces("") == "";
  }

  lemma NoColonInTwoDigits(d: string)
    requires TwoDigits(d)
    ensures forall i :: 0 <= i < |d| ==> d[i] != ':'
  {
  }

  lemma MinuteField(mm: string, ss: Option<string>)
    requires TwoDigits(mm)
    ensures BeforeFirst(mm + SecondsPart(ss), ":") == mm
  {
    NoColonInTwoDigits(mm);
    if ss.Some? {
      assert mm + SecondsPart(ss) == mm + [':'] + ss.value;
      BeforeFirstChar(mm, ':', ss.value);
    } else {
      assert mm + SecondsPart(ss) == mm;
      BeforeFirstMissing(mm, ':');
    }
  }

  lemma FieldsAtFirstColon(a: string, b: string)
    requires forall i :: 0 <= i < |a| ==> a[i] != ':'
    ensures HourMinuteFields(a + ":" + b) == (a, Some(BeforeFirst(b, ":")))
  {
    var s := a + ":" + b;
    ConcatAssoc(a, ":", b);
    BeforeFirstChar(a, ':', b);
    assert s[|a| + 1..] == b;
  }

  /** A 24-hour time shows as the twelve-hour picker fields: PM from noon on, hour 0 as 12 AM. */
  lemma {:induction false} ParseTwentyFourHour(h: nat, m: nat, sec: Option<nat>)
    requires h < 100 && m < 100 && (sec.Some? ==> sec.value < 100)
    ensures var s := Pad2(h) + ":" + Pad2(m) + SecondsPart(if sec.Some? then Some(Pad2(sec.value)) else None);
      ParseTime(s) == PickerTime(TwelveHour(h).0, m, TwelveHour(h).1)
  {
    Pad2Value(h);
    Pad2Value(m);
    var ss := if sec.Some? then Some(Pad2(sec.value)) else None;
    if sec.Some? {
      Pad2Value(sec.value);
    }
    TwentyFourHourFields(Pad2(h), Pad2(m), ss);
    NumberOfDigits(Pad2(h));
    NumberOfDigits(Pad2(m));
  }

  /** Opening the picker on a stored start time and confirming it without changes gives a text
      the import turns back into the same hour and minute; the seconds become "00". */
  lemma {:induction false} PickerKeepsStartTime(h: nat, m: nat, sec: Option<nat>)
    requires h < 24 && m < 60 && (sec.Some? ==> sec.value < 60)
    ensures var s := Pad2(h) + ":" + Pad2(m) + SecondsPart(if sec.Some? then Some(Pad2(sec.value)) else None);
      ExcelDateTime.NormalizeStartTime(FormatTime(ParseTime(s))) == Some(Pad2(h) + ":" + Pad2(m) + ":" + "00")
  {
    ParseTwentyFourHour(h, m, sec);
    TwelveHourInverse(h);
    var (h12, ampm) := TwelveHour(h);
    ExcelDateTime.TwelveHourTextTo24(h12, m, ampm);
    ExcelDateTime.TwelveHourClock(h12, ampm);
  }
}
