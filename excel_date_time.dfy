// Start dates and start times of the accounts sheet, as src/services/excel/excel-parser.ts:486-563
// rewrites them, and the clock pattern that the time picker of
// src/pages/accounts/AccountFormPage.tsx reads with a regular expression of the same shape.

module ClockPattern {
  import opened Options
  import opened JsText

  /** The groups of ^(\d{1,2}):(\d{2})(?::(\d{2}))? and the text after them */
  datatype ClockParts = ClockParts(hour: string, minute: string, seconds: Option<string>, rest: string)

  predicate TwoDigits(t: string) {
    |t| == 2 && IsDigit(t[0]) && IsDigit(t[1])
  }

  lemma TwoDigitsBelow100(t: string)
    requires TwoDigits(t)
    ensures AllDigits(t) && (forall i :: 0 <= i < |t| ==> IsRadixDigit(t[i], 10)) && DigitsValue(t, 10) < 100
  {
    forall i | 0 <= i < |t| ensures IsDigit(t[i]) {
      if i == 0 {
      } else {
        assert i == 1;
      }
    }
    TwoDigitsValue(t);
  }

  lemma WellFormedOf(hh: string, mm: string, ss: Option<string>, rest: string)
    requires TwoDigits(hh) && TwoDigits(mm) && (ss.Some? ==> TwoDigits(ss.value))
    ensures WellFormed(ClockParts(hh, mm, ss, rest))
  {
    TwoDigitsBelow100(hh);
  }

  /** The groups have the shapes the pattern demands. */
  predicate WellFormed(p: ClockParts) {
    1 <= |p.hour| <= 2 && AllDigits(p.hour) && TwoDigits(p.minute)
    && (p.seconds.Some? ==> TwoDigits(p.seconds.value))
  }

  function SecondsPart(seconds: Option<string>): string {
    if seconds.Some? then ":" + seconds.value else ""
  }

  /** The text the groups were read from */
  function ClockText(p: ClockParts): string {
    p.hour + ":" + p.minute + SecondsPart(p.seconds) + p.rest
  }

  /** The pattern ^(\d{1,2}):(\d{2})(?::(\d{2}))? at the start of `s`. Both callers demand that
      white space or an AM/PM marker follows, which can start neither with a digit nor with ':',
      so the hour is the whole digit run and a ':' after the minutes must open the seconds. */
  function ClockScan(s: string): (o: Option<ClockParts>)
    ensures o.Some? ==> WellFormed(o.value)
    ensures o.Some? && o.value.seconds.None? ==> o.value.rest == [] || o.value.rest[0] != ':'
  {
    match DigitGroup(s, 1, 2)
    case None => None
    case Some((h, r1)) => AfterHour(h, r1)
  }

  /** The minutes and the optional seconds after the hour group */
  function AfterHour(h: string, r1: string): (o: Option<ClockParts>)
    requires 1 <= |h| <= 2 && AllDigits(h)
    ensures o.Some? ==> WellFormed(o.value) && o.value.hour == h
    ensures o.Some? && o.value.seconds.None? ==> o.value.rest == [] || o.value.rest[0] != ':'
  {
    if |r1| < 3 || r1[0] != ':' || !IsDigit(r1[1]) || !IsDigit(r1[2]) then None
    else
      var r2 := r1[3..];
      if r2 != [] && r2[0] == ':' then
        if |r2| >= 3 && IsDigit(r2[1]) && IsDigit(r2[2]) then
          Some(ClockParts(h, r1[1..3], Some(r2[1..3]), r2[3..]))
        else None
      else Some(ClockParts(h, r1[1..3], None, r2))
  }

  lemma AfterHourOf(p: ClockParts)
    requires WellFormed(p)
    requires p.seconds.None? ==> p.rest == [] || p.rest[0] != ':'
    ensures AfterHour(p.hour, ":" + p.minute + SecondsPart(p.seconds) + p.rest) == Some(p)
  {
    var tail := ":" + p.minute + SecondsPart(p.seconds) + p.rest;
    assert tail[1..3] == p.minute;
    var r2 := tail[3..];
    assert r2 == SecondsPart(p.seconds) + p.rest;
    if p.seconds.Some? {
      assert r2[1..3] == p.seconds.value;
      assert r2[3..] == p.rest;
    }
  }

  /** Reading the pattern back from its text gives the groups it was written from. */
  lemma ClockScanOf(p: ClockParts)
    requires WellFormed(p)
    requires p.seconds.None? ==> p.rest == [] || p.rest[0] != ':'
    ensures ClockScan(ClockText(p)) == Some(p)
  {
    var tail := ":" + p.minute + SecondsPart(p.seconds) + p.rest;
    assert DigitGroup(ClockText(p), 1, 2) == Some((p.hour, tail)) by {
      assert ClockText(p) == p.hour + tail;
      DigitGroupOf(p.hour, tail, 1, 2);
    }
    AfterHourOf(p);
  }

  lemma ClockTextOf(h: string, m: string, seconds: Option<string>, rest: string)
    ensures ClockText(ClockParts(h, m, seconds, rest)) == h + ":" + m + SecondsPart(seconds) + rest
    ensures seconds.None? ==> ClockText(ClockParts(h, m, seconds, rest)) == h + ":" + m + rest
  {
    ConcatEmpty(h + ":" + m);
  }

  /** The marker group (AM|PM) of a pattern with the i flag */
  predicate IsMarker(t: string) {
    ToUpper(t) == "AM" || ToUpper(t) == "PM"
  }

  /** The markers are written in capitals. */
  lemma MarkerIsUpper(marker: string)
    requires marker == "AM" || marker == "PM"
    ensures ToUpper(marker) == marker && IsMarker(marker)
  {
    var u := ToUpper(marker);
    assert |u| == 2 && u[0] == marker[0] && u[1] == marker[1];
  }
}

module ExcelDateTime {
  import opened Options
  import opened JsText
  import opened ClockPattern
  import AccountValidation

  /** `\s*(AM|PM)?$` after the clock: Some(None) when there is no marker, Some(Some(m)) with the
      upper-cased marker `m`, and None when the text does not match. */
  function TimeMarker(rest: string): (o: Option<Option<string>>)
    ensures o.Some? && o.value.Some? ==> o.value.value == "AM" || o.value.value == "PM"
  {
    var t := SkipSpaces(rest);
    if t == [] then Some(None)
    else if IsMarker(t) then Some(Some(ToUpper(t)))
    else None
  }

  /** The hour after the AM/PM adjustment of the import */
  function To24Hour(hours: nat, marker: Option<string>): nat {
    if marker == Some("PM") && hours != 12 then hours + 12
    else if marker == Some("AM") && hours == 12 then 0
    else hours
  }

  /** On the hours of a twelve-hour clock the adjustment is the usual conversion: 12 AM is
      midnight, 12 PM is noon, and every PM hour is 12 more than its AM hour. */
  lemma TwelveHourClock(h12: nat, marker: string)
    requires 1 <= h12 <= 12 && (marker == "AM" || marker == "PM")
    ensures To24Hour(h12, Some(marker)) == h12 % 12 + (if marker == "PM" then 12 else 0)
    ensures To24Hour(h12, Some(marker)) < 24
  {
  }

  /** The start time as the import stores it (excel-parser.ts:529-563), None when the time is
      left unset. A trimmed text that matches ^(\d{1,2}):(\d{2})(?::(\d{2}))?\s*(AM|PM)?$ is
      rewritten as "HH:mm:ss"; the two later patterns of the source match only texts that the
      first one already matched, so they never decide anything. */
  function NormalizeStartTime(startTime: string): (r: Option<string>)
    ensures r.Some? ==> ClockScan(Trim(startTime)).Some?
    ensures r.Some? ==> TimeMarker(ClockScan(Trim(startTime)).value.rest).Some?
  {
    ClockToStored(Trim(startTime))
  }

  /** The rewriting of a trimmed start time */
  function ClockToStored(t: string): (r: Option<string>)
    ensures r.Some? ==> ClockScan(t).Some? && TimeMarker(ClockScan(t).value.rest).Some?
  {
    match ClockScan(t)
    case None => None
    case Some(p) =>
      match TimeMarker(p.rest)
      case None => None
      case Some(marker) =>
        Some(StoredTime(To24Hour(DigitsValue(p.hour, 10), marker), p.minute, p.seconds))
  }

  /** The rewriting of a trimmed text whose groups and marker are known */
  lemma ClockToStoredOf(t: string, p: ClockParts, marker: Option<string>)
    requires ClockScan(t) == Some(p) && TimeMarker(p.rest) == Some(marker)
    ensures ClockToStored(t) == Some(StoredTime(To24Hour(DigitsValue(p.hour, 10), marker), p.minute, p.seconds))
  {
  }

  /** The HH:mm:ss text stored for a start time; missing seconds become "00". */
  function StoredTime(hour: nat, minute: string, seconds: Option<string>): string {
    Pad2(hour) + ":" + minute + ":" + seconds.GetOr("00")
  }

  lemma SkipOneSpaceBefore(marker: string)
    requires marker != [] && !IsSpace(marker[0])
    ensures SkipSpaces(" " + marker) == marker
  {
    var t := " " + marker;
    assert t[1..] == marker;
  }

  /** NormalizeStartTime of a trimmed text whose groups and marker are known */
  lemma NormalizeOf(s: string, p: ClockParts, marker: Option<string>)
    requires Trim(s) == s && ClockScan(s) == Some(p) && TimeMarker(p.rest) == Some(marker)
    ensures NormalizeStartTime(s)
      == Some(Pad2(To24Hour(DigitsValue(p.hour, 10), marker)) + ":" + p.minute + ":" + p.seconds.GetOr("00"))
  {
    NormalizeIsOfTrimmed(s);
    StoredTimeOf(s, p, marker);
  }

  /** A clock text that ends in a digit or a letter is already trimmed and reads back. */
  lemma ClockTextReads(p: ClockParts)
    requires WellFormed(p)
    requires p.seconds.None? ==> p.rest == [] || p.rest[0] != ':'
    requires p.rest == [] || !IsSpace(p.rest[|p.rest| - 1])
    ensures Trim(ClockText(p)) == ClockText(p) && ClockScan(ClockText(p)) == Some(p)
  {
    var s := ClockText(p);
    assert s[0] == p.hour[0];
    if p.rest == [] {
      if p.seconds.Some? {
        assert s[|s| - 1] == p.seconds.value[1];
      } else {
        assert s[|s| - 1] == p.minute[1];
      }
    } else {
      assert s[|s| - 1] == p.rest[|p.rest| - 1];
    }
    TrimOfTrimmed(s);
    ClockScanOf(p);
  }

  lemma MarkerAfterSpace(marker: string)
    requires marker == "AM" || marker == "PM"
    ensures TimeMarker(" " + marker) == Some(Some(marker))
  {
    SkipOneSpaceBefore(marker);
    assert ToUpper(marker) == marker;
  }

  lemma TwelveHourScan(hh: string, mm: string, marker: string)
    requires TwoDigits(hh) && TwoDigits(mm) && (marker == "AM" || marker == "PM")
    ensures var s := hh + ":" + mm + " " + marker;
      Trim(s) == s && ClockScan(s) == Some(ClockParts(hh, mm, None, " " + marker))
  {
    var p := ClockParts(hh, mm, None, " " + marker);
    ClockTextOf(hh, mm, None, " " + marker);
    ConcatAssoc(hh + ":" + mm, " ", marker);
    ClockTextReads(p);
  }

  /** "hh:mm AM|PM" with two-digit groups */
  lemma {:induction false} TwelveHourForm(hh: string, mm: string, marker: string)
    requires TwoDigits(hh) && TwoDigits(mm) && (marker == "AM" || marker == "PM")
    ensures NormalizeStartTime(hh + ":" + mm + " " + marker)
      == Some(Pad2(To24Hour(DigitsValue(hh, 10), Some(marker))) + ":" + mm + ":" + "00")
  {
    var s := hh + ":" + mm + " " + marker;
    var p := ClockParts(hh, mm, None, " " + marker);
    TwelveHourScan(hh, mm, marker);
    MarkerAfterSpace(marker);
    NormalizeOf(s, p, Some(marker));
  }

  lemma TwentyFourHourScan(hh: string, mm: string, ss: Option<string>)
    requires TwoDigits(hh) && TwoDigits(mm) && (ss.Some? ==> TwoDigits(ss.value))
    ensures var s := hh + ":" + mm + SecondsPart(ss);
      Trim(s) == s && ClockScan(s) == Some(ClockParts(hh, mm, ss, ""))
  {
    ClockTextOf(hh, mm, ss, "");
    ConcatEmpty(hh + ":" + mm + SecondsPart(ss));
    ClockTextReads(ClockParts(hh, mm, ss, ""));
  }

  /** The text of a clock without a tail */
  lemma ClockTextParts(hh: string, mm: string, ss: Option<string>)
    ensures ClockText(ClockParts(hh, mm, ss, "")) == hh + ":" + mm + SecondsPart(ss)
  {
    ConcatEmpty(hh + ":" + mm + SecondsPart(ss));
  }

  /** Without a marker the hour is kept as written. */
  lemma UnmarkedNormalize(s: string, p: ClockParts)
    requires Trim(s) == s && ClockScan(s) == Some(p) && TimeMarker(p.rest) == Some(None)
    ensures NormalizeStartTime(s) == Some(Pad2(DigitsValue(p.hour, 10)) + ":" + p.minute + ":" + p.seconds.GetOr("00"))
  {
    NormalizeOf(s, p, None);
    NoMarkerHour(DigitsValue(p.hour, 10));
  }

  lemma NoMarkerHour(h: nat)
    ensures To24Hour(h, None) == h
  {
  }

  lemma NoMarker()
    ensures TimeMarker("") == Some(None)
  {
    assert SkipSpaces("") == "";
  }

  /** "HH:mm" and "HH:mm:ss" with two-digit groups */
  lemma {:induction false} TwentyFourHourForm(hh: string, mm: string, ss: Option<string>)
    requires TwoDigits(hh) && TwoDigits(mm) && (ss.Some? ==> TwoDigits(ss.value))
    ensures NormalizeStartTime(hh + ":" + mm + SecondsPart(ss))
      == Some(Pad2(DigitsValue(hh, 10)) + ":" + mm + ":" + ss.GetOr("00"))
  {
    var s := hh + ":" + mm + SecondsPart(ss);
    var p := ClockParts(hh, mm, ss, "");
    TwoDigitsBelow100(hh);
    WellFormedOf(hh, mm, ss, "");
    ClockTextParts(hh, mm, ss);
    ClockTextReads(p);
    NoMarker();
    UnmarkedNormalize(s, p);
  }

  /** "hh:mm AM" and "hh:mm PM" on a twelve-hour clock become the 24-hour "HH:mm:00". */
  lemma {:induction false} TwelveHourTextTo24(h12: nat, m: nat, marker: string)
    requires 1 <= h12 <= 12 && m < 100 && (marker == "AM" || marker == "PM")
    ensures NormalizeStartTime(Pad2(h12) + ":" + Pad2(m) + " " + marker)
      == Some(Pad2(h12 % 12 + (if marker == "PM" then 12 else 0)) + ":" + Pad2(m) + ":" + "00")
  {
    Pad2Value(h12);
    Pad2Value(m);
    TwelveHourForm(Pad2(h12), Pad2(m), marker);
    TwelveHourClock(h12, marker);
  }

  /** A time already in the stored form "HH:mm:ss" is kept as it is. */
  lemma {:induction false} StoredTimeKept(h: nat, m: nat, sec: nat)
    requires h < 100 && m < 100 && sec < 100
    ensures NormalizeStartTime(Pad2(h) + ":" + Pad2(m) + ":" + Pad2(sec)) == Some(Pad2(h) + ":" + Pad2(m) + ":" + Pad2(sec))
  {
    Pad2Value(h);
    Pad2Value(m);
    Pad2Value(sec);
    TwentyFourHourForm(Pad2(h), Pad2(m), Some(Pad2(sec)));
    ConcatAssoc(Pad2(h) + ":" + Pad2(m), ":", Pad2(sec));
  }

  /** "HH:mm" gains the seconds ":00". */
  lemma {:induction false} MissingSecondsAdded(h: nat, m: nat)
    requires h < 100 && m < 100
    ensures NormalizeStartTime(Pad2(h) + ":" + Pad2(m)) == Some(Pad2(h) + ":" + Pad2(m) + ":" + "00")
  {
    Pad2Value(h);
    Pad2Value(m);
    TwentyFourHourForm(Pad2(h), Pad2(m), None);
    ConcatEmpty(Pad2(h) + ":" + Pad2(m));
  }

  /** A stored time of eight characters passes the start-time check of the account form and is
      stored unchanged when imported again. Only an hour of 100 or more after the PM adjustment
      (from inputs such as "99:00 PM") gives a longer text. */
  lemma {:induction false} NormalizedTimeIsStable(startTime: string)
    requires NormalizeStartTime(startTime).Some?
    ensures var r := NormalizeStartTime(startTime).value;
      |r| == 8 ==> AccountValidation.IsTimeShape(r) && NormalizeStartTime(r) == Some(r)
  {
    var hour, mm, ss := NormalizedParts(startTime);
    StoredTextIsStable(NormalizeStartTime(startTime).value, hour, mm, ss);
  }

  /** Every stored time is an hour, two minute digits and two second digits. */
  lemma NormalizedParts(startTime: string) returns (hour: nat, mm: string, ss: string)
    requires NormalizeStartTime(startTime).Some?
    ensures TwoDigits(mm) && TwoDigits(ss)
    ensures NormalizeStartTime(startTime) == Some(Pad2(hour) + ":" + mm + ":" + ss)
  {
    NormalizeIsOfTrimmed(startTime);
    hour, mm, ss := StoredParts(Trim(startTime));
  }

  lemma StoredParts(t: string) returns (hour: nat, mm: string, ss: string)
    requires ClockToStored(t).Some?
    ensures TwoDigits(mm) && TwoDigits(ss)
    ensures ClockToStored(t) == Some(Pad2(hour) + ":" + mm + ":" + ss)
  {
    var p := ClockScan(t).value;
    var marker := TimeMarker(p.rest).value;
    hour := To24Hour(DigitsValue(p.hour, 10), marker);
    mm := p.minute;
    ss := SecondsOrZero(p);
    StoredTimeOf(t, p, marker);
  }

  lemma NormalizeIsOfTrimmed(startTime: string)
    ensures NormalizeStartTime(startTime) == ClockToStored(Trim(startTime))
  {
  }

  lemma StoredTimeOf(t: string, p: ClockParts, marker: Option<string>)
    requires ClockScan(t) == Some(p) && TimeMarker(p.rest) == Some(marker)
    ensures ClockToStored(t)
      == Some(Pad2(To24Hour(DigitsValue(p.hour, 10), marker)) + ":" + p.minute + ":" + p.seconds.GetOr("00"))
  {
    ClockToStoredOf(t, p, marker);
  }

  /** The seconds of a stored time are two digits. */
  lemma SecondsOrZero(p: ClockParts) returns (ss: string)
    requires WellFormed(p)
    ensures ss == p.seconds.GetOr("00") && TwoDigits(ss)
  {
    ss := p.seconds.GetOr("00");
    if p.seconds.None? {
      assert ss == "00";
    }
  }

  lemma StoredTextIsStable(r: string, hour: nat, mm: string, ss: string)
    requires TwoDigits(mm) && TwoDigits(ss) && r == Pad2(hour) + ":" + mm + ":" + ss
    ensures |r| == 8 ==> AccountValidation.IsTimeShape(r) && NormalizeStartTime(r) == Some(r)
  {
    if |r| == 8 {
      Pad2Length(hour);
      Pad2Value(hour);
      TwentyFourHourForm(Pad2(hour), mm, Some(ss));
      ConcatAssoc(Pad2(hour) + ":" + mm, ":", ss);
      TimeShapeOf(Pad2(hour), mm, ss);
    }
  }

  lemma TimeShapeOf(hh: string, mm: string, ss: string)
    requires TwoDigits(hh) && TwoDigits(mm) && TwoDigits(ss)
    ensures AccountValidation.IsTimeShape(hh + ":" + mm + ":" + ss)
  {
    var r := hh + ":" + mm + ":" + ss;
    assert r[0] == hh[0] && r[1] == hh[1] && r[3] == mm[0] && r[4] == mm[1] && r[6] == ss[0] && r[7] == ss[1];
  }

  // ---- Start dates ----

  const MONTHS: seq<string> := ["jan", "feb", "mar", "apr", "may", "jun", "jul", "aug", "sep", "oct", "nov", "dec"]

  /** `xs.indexOf(x)` */
  function IndexIn(xs: seq<string>, x: string): (k: int)
    ensures -1 <= k < |xs|
    ensures k >= 0 ==> xs[k] == x && forall i :: 0 <= i < k ==> xs[i] != x
    ensures k == -1 ==> forall i :: 0 <= i < |xs| ==> xs[i] != x
  {
    if xs == [] then -1
    else if xs[0] == x then 0
    else
      var k := IndexIn(xs[1..], x);
      if k < 0 then -1 else k + 1
  }

  predicate IsLetter(c: char) {
    'a' <= c <= 'z' || 'A' <= c <= 'Z'
  }

  /** ^(\d{1,2})\/(\d{1,2})\/(\d{4})$: the month, day and year digits */
  function SlashDate(s: string): (o: Option<(string, string, string)>)
    ensures o.Some? ==> s == o.value.0 + "/" + o.value.1 + "/" + o.value.2
    ensures o.Some? ==> AllDigits(o.value.0) && AllDigits(o.value.1) && AllDigits(o.value.2)
  {
    match DigitGroup(s, 1, 2)
    case None => None
    case Some((mt, r1)) =>
      if r1 == [] || r1[0] != '/' then None
      else match DayAndYear(r1[1..])
        case None => None
        case Some((dt, yt)) =>
          SlashJoin(s, mt, r1, dt, yt);
          Some((mt, dt, yt))
  }

  /** The (\d{1,2})\/(\d{4})$ that follows the month and its '/' */
  function DayAndYear(t: string): (o: Option<(string, string)>)
    ensures o.Some? ==> t == o.value.0 + "/" + o.value.1 && AllDigits(o.value.0) && AllDigits(o.value.1)
  {
    match DigitGroup(t, 1, 2)
    case None => None
    case Some((dt, r2)) =>
      if r2 == [] || r2[0] != '/' then None
      else match DigitGroup(r2[1..], 4, 4)
        case None => None
        case Some((yt, r3)) =>
          if r3 != [] then None
          else
            assert r2 == "/" + yt;
            Some((dt, yt))
  }

  lemma SlashJoin(s: string, mt: string, r1: string, dt: string, yt: string)
    requires s == mt + r1 && r1 != [] && r1[0] == '/' && r1[1..] == dt + "/" + yt
    ensures s == mt + "/" + dt + "/" + yt
  {
    assert r1 == "/" + r1[1..];
  }

  /** ^(\d{1,2})-([A-Za-z]{3})-(\d{4})$: the day digits, the month letters and the year digits */
  function DashDate(s: string): (o: Option<(string, string, string)>)
    ensures o.Some? ==> s == o.value.0 + "-" + o.value.1 + "-" + o.value.2 && |o.value.1| == 3
    ensures o.Some? ==> AllDigits(o.value.0) && AllDigits(o.value.2)
  {
    match DigitGroup(s, 1, 2)
    case None => None
    case Some((dt, r1)) =>
      if |r1| < 5 || r1[0] != '-' || !IsLetter(r1[1]) || !IsLetter(r1[2]) || !IsLetter(r1[3]) || r1[4] != '-' then None
      else match DigitGroup(r1[5..], 4, 4)
        case None => None
        case Some((yt, r3)) =>
          if r3 != [] then None
          else
            assert r1 == "-" + r1[1..4] + "-" + yt;
            Some((dt, r1[1..4], yt))
  }

  /** `${year}-${String(month).padStart(2, '0')}-${String(day).padStart(2, '0')}` */
  function DateText(year: nat, month: nat, day: nat): string {
    IntToString(year) + "-" + Pad2(month) + "-" + Pad2(day)
  }

  /** The start date as the import stores it (excel-parser.ts:486-525), None when it is left
      unset. `isoParses` stands for `!isNaN(new Date(startDate).getTime())`, which the model does
      not compute; the other two branches build their Date from integer parts, which never
      fails. */
  function NormalizeStartDate(startDate: string, isoParses: bool): (r: Option<string>)
    ensures SlashDate(startDate).Some? ==> r.Some?
    ensures r.Some? && SlashDate(startDate).None? && AccountValidation.IsDateShape(startDate) ==> r.value == startDate
  {
    if startDate == [] then None
    else match SlashDate(startDate)
      case Some((mt, dt, yt)) =>
        Some(DateText(DigitsValue(yt, 10), DigitsValue(mt, 10), DigitsValue(dt, 10)))
      case None =>
        if AccountValidation.IsDateShape(startDate) then
          if isoParses then Some(startDate) else None
        else match DashDate(startDate)
          case None => None
          case Some((dt, mon, yt)) => DashDateText(dt, mon, yt)
  }

  /** The month abbreviation looked up in MONTHS, the date unset when it is not there */
  function DashDateText(dt: string, mon: string, yt: string): (r: Option<string>)
    requires AllDigits(dt) && AllDigits(yt)
    ensures r.Some? <==> ToLower(mon) in MONTHS
  {
    var k := IndexIn(MONTHS, ToLower(mon));
    if k < 0 then None
    else Some(DateText(DigitsValue(yt, 10), k + 1, DigitsValue(dt, 10)))
  }

  lemma SlashDateOf(mt: string, dt: string, yt: string)
    requires 1 <= |mt| <= 2 && 1 <= |dt| <= 2 && |yt| == 4 && AllDigits(mt) && AllDigits(dt) && AllDigits(yt)
    ensures SlashDate(mt + "/" + dt + "/" + yt) == Some((mt, dt, yt))
  {
    var r1 := "/" + (dt + "/" + yt);
    assert mt + "/" + dt + "/" + yt == mt + r1;
    DigitGroupOf(mt, r1, 1, 2);
    assert r1[1..] == dt + "/" + yt;
    DayAndYearOf(dt, yt);
  }

  lemma DayAndYearOf(dt: string, yt: string)
    requires 1 <= |dt| <= 2 && |yt| == 4 && AllDigits(dt) && AllDigits(yt)
    ensures DayAndYear(dt + "/" + yt) == Some((dt, yt))
  {
    var r2 := "/" + yt;
    assert dt + "/" + yt == dt + r2;
    DigitGroupOf(dt, r2, 1, 2);
    assert r2[1..] == yt + [];
    DigitGroupOf(yt, [], 4, 4);
  }

  /** "M/D/YYYY" becomes "YYYY-MM-DD" from the numbers as written: the month and the day are not
      range-checked, so "13/45/2025" is stored as "2025-13-45". */
  lemma {:induction false} SlashDateRewritten(mt: string, dt: string, yt: string, isoParses: bool)
    requires 1 <= |mt| <= 2 && 1 <= |dt| <= 2 && |yt| == 4 && AllDigits(mt) && AllDigits(dt) && AllDigits(yt)
    ensures NormalizeStartDate(mt + "/" + dt + "/" + yt, isoParses)
      == Some(DateText(DigitsValue(yt, 10), DigitsValue(mt, 10), DigitsValue(dt, 10)))
  {
    SlashDateOf(mt, dt, yt);
  }

  lemma DashDateOf(dt: string, mon: string, yt: string)
    requires 1 <= |dt| <= 2 && |yt| == 4 && AllDigits(dt) && AllDigits(yt)
    requires |mon| == 3 && IsLetter(mon[0]) && IsLetter(mon[1]) && IsLetter(mon[2])
    ensures DashDate(dt + "-" + mon + "-" + yt) == Some((dt, mon, yt))
  {
    var r1 := "-" + mon + "-" + yt;
    assert dt + "-" + mon + "-" + yt == dt + r1;
    DigitGroupOf(dt, r1, 1, 2);
    assert r1[1..4] == mon;
    assert r1[5..] == yt + [];
    DigitGroupOf(yt, [], 4, 4);
  }

  lemma NoSlashInDash(dt: string, mon: string, yt: string)
    requires 1 <= |dt| <= 2 && AllDigits(dt) && |mon| == 3 && IsLetter(mon[0])
    ensures SlashDate(dt + "-" + mon + "-" + yt).None?
    ensures !AccountValidation.IsDateShape(dt + "-" + mon + "-" + yt)
  {
    var s := dt + "-" + mon + "-" + yt;
    var r1 := "-" + mon + "-" + yt;
    assert s == dt + r1;
    DigitGroupOf(dt, r1, 1, 2);
    assert s[|dt| + 1] == mon[0];
  }

  /** "D-Mon-YYYY" with an English month abbreviation, in any case, becomes "YYYY-MM-DD" with the
      month's number; an unknown abbreviation leaves the date unset. */
  lemma {:induction false} DashDateRewritten(dt: string, mon: string, yt: string, isoParses: bool)
    requires 1 <= |dt| <= 2 && |yt| == 4 && AllDigits(dt) && AllDigits(yt)
    requires |mon| == 3 && IsLetter(mon[0]) && IsLetter(mon[1]) && IsLetter(mon[2])
    ensures var k := IndexIn(MONTHS, ToLower(mon));
      NormalizeStartDate(dt + "-" + mon + "-" + yt, isoParses)
        == if k < 0 then None else Some(DateText(DigitsValue(yt, 10), k + 1, DigitsValue(dt, 10)))
  {
    NoSlashInDash(dt, mon, yt);
    DashDateOf(dt, mon, yt);
  }

  /** Built from a year without a leading zero, the stored date has the shape the start-date
      check of the account form demands. */
  lemma DateTextShape(yt: string, month: nat, day: nat)
    requires |yt| == 4 && AllDigits(yt) && yt[0] != '0' && month < 100 && day < 100
    ensures AccountValidation.IsDateShape(DateText(DigitsValue(yt, 10), month, day))
  {
    NatToStringOfDigits(yt);
    Pad2Small(month);
    Pad2Small(day);
    DateShapeOf(yt, Pad2(month), Pad2(day));
  }

  lemma DateShapeOf(y: string, mm: string, dd: string)
    requires |y| == 4 && AllDigits(y) && |mm| == 2 && AllDigits(mm) && |dd| == 2 && AllDigits(dd)
    ensures AccountValidation.IsDateShape(y + "-" + mm + "-" + dd)
  {
    var s := y + "-" + mm + "-" + dd;
    assert s[..4] == y && s[5..7] == mm && s[8..10] == dd;
    assert forall i :: 0 <= i < 4 ==> s[i] == y[i];
    assert forall i :: 5 <= i < 7 ==> s[i] == mm[i - 5];
    assert forall i :: 8 <= i < 10 ==> s[i] == dd[i - 8];
  }

  lemma DigitsBelow100(t: string)
    requires 1 <= |t| <= 2 && AllDigits(t)
    ensures DigitsValue(t, 10) < 100
  {
    if |t| == 2 {
      TwoDigitsValue(t);
    } else {
      assert t[..0] == [];
    }
  }

  /** Every "M/D/YYYY" date with a four-digit year not starting with 0 is stored in a form that
      the start-date shape check accepts. */
  lemma SlashDateStoredShape(mt: string, dt: string, yt: string, isoParses: bool)
    requires 1 <= |mt| <= 2 && 1 <= |dt| <= 2 && |yt| == 4 && AllDigits(mt) && AllDigits(dt) && AllDigits(yt)
    requires yt[0] != '0'
    ensures var r := NormalizeStartDate(mt + "/" + dt + "/" + yt, isoParses);
      r.Some? && AccountValidation.IsDateShape(r.value)
  {
    SlashDateRewritten(mt, dt, yt, isoParses);
    DigitsBelow100(mt);
    DigitsBelow100(dt);
    DateTextShape(yt, DigitsValue(mt, 10), DigitsValue(dt, 10));
  }
}
