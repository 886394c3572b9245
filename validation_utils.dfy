// The legacy facade src/utils/validation.ts: delegations to the per-entity validators, the
// general date / time / e-mail checks, `combine` and the `ValidationRules` table.

module ValidationUtils {
  import opened Options
  import opened JsText
  import opened ValidationResults
  import AccountValidation
  import GameValidation
  import LevelValidation
  import PurchaseEventValidation

  // ----- Delegations -----

  function ValidateAccountName(name: string): (r: ValidationResult)
    ensures r == AccountValidation.ValidateAccountName(name)
  {
    AccountValidation.ValidateAccountName(name)
  }

  function ValidateStartDate(date: string, dateParses: bool): (r: ValidationResult)
    ensures r == AccountValidation.ValidateStartDate(date, dateParses)
  {
    AccountValidation.ValidateStartDate(date, dateParses)
  }

  function ValidateStartTime(time: string): (r: ValidationResult)
    ensures r == AccountValidation.ValidateStartTime(time)
  {
    AccountValidation.ValidateStartTime(time)
  }

  function ValidateRequestTemplate(template: string): (r: ValidationResult)
    ensures r == AccountValidation.ValidateRequestTemplate(template)
  {
    AccountValidation.ValidateRequestTemplate(template)
  }

  function ValidateGameName(name: string): (r: ValidationResult)
    ensures r == GameValidation.ValidateGameName(name)
  {
    GameValidation.ValidateGameName(name)
  }

  function ValidateGameId(id: string): (r: ValidationResult)
    ensures r == GameValidation.ValidateGameId(id)
  {
    GameValidation.ValidateGameId(id)
  }

  function ValidateLevelName(name: string): (r: ValidationResult)
    ensures r == LevelValidation.ValidateLevelName(name)
  {
    LevelValidation.ValidateLevelName(name)
  }

  /** The facade's event-token check is the level one. */
  function ValidateEventToken(token: string): (r: ValidationResult)
    ensures r == LevelValidation.ValidateEventToken(token)
  {
    LevelValidation.ValidateEventToken(token)
  }

  function ValidateDaysOffset(daysOffset: int): (r: ValidationResult)
    ensures r == LevelValidation.ValidateDaysOffset(daysOffset)
  {
    LevelValidation.ValidateDaysOffset(daysOffset)
  }

  /** The facade's time-spent check is the level one. */
  function ValidateTimeSpent(timeSpent: int): (r: ValidationResult)
    ensures r == LevelValidation.ValidateTimeSpent(timeSpent)
  {
    LevelValidation.ValidateTimeSpent(timeSpent)
  }

  function ValidateIsBonus(isBonus: bool): (r: ValidationResult)
    ensures r == LevelValidation.ValidateIsBonus(isBonus)
  {
    LevelValidation.ValidateIsBonus(isBonus)
  }

  function ValidatePurchaseEventName(name: string): (r: ValidationResult)
    ensures r == PurchaseEventValidation.ValidatePurchaseEventName(name)
  {
    PurchaseEventValidation.ValidatePurchaseEventName(name)
  }

  function ValidateMaxDaysOffset(maxDaysOffset: int): (r: ValidationResult)
    ensures r == PurchaseEventValidation.ValidateMaxDaysOffset(maxDaysOffset)
  {
    PurchaseEventValidation.ValidateMaxDaysOffset(maxDaysOffset)
  }

  function ValidateIsRestricted(isRestricted: bool): (r: ValidationResult)
    ensures r == PurchaseEventValidation.ValidateIsRestricted(isRestricted)
  {
    PurchaseEventValidation.ValidateIsRestricted(isRestricted)
  }

  // ----- General checks -----

  /** `dateParses` stands for `!isNaN(new Date(dateString).getTime())`. */
  function ValidateDate(dateString: string, dateParses: bool): (r: ValidationResult)
    ensures Consistent(r) && |r.errors| <= 1
    ensures r.isValid <==> HasVisibleChar(dateString) && dateParses
    ensures !HasVisibleChar(dateString) ==> r.errors == [REQUIRED]
    ensures HasVisibleChar(dateString) && !dateParses ==> r.errors == [INVALID_DATE]
  {
    BlankIffNoVisibleChar(dateString);
    if IsBlank(dateString) then FromErrors([REQUIRED])
    else if !dateParses then FromErrors([INVALID_DATE])
    else FromErrors([])
  }

  /** The hour alternative ([01]?[0-9]|2[0-3]) */
  predicate IsHourText(h: string) {
    (|h| == 1 && IsDigit(h[0]))
    || (|h| == 2 && (((h[0] == '0' || h[0] == '1') && IsDigit(h[1])) || (h[0] == '2' && '0' <= h[1] <= '3')))
  }

  /** [0-5][0-9] */
  predicate IsSexagesimal(t: string) {
    |t| == 2 && '0' <= t[0] <= '5' && IsDigit(t[1])
  }

  /** The regular expression with an hour of k characters. */
  predicate MatchesClockAt(s: string, k: nat)
    requires k == 1 || k == 2
  {
    |s| >= k + 3 && IsHourText(s[..k]) && s[k] == ':' && IsSexagesimal(s[k + 1..k + 3])
    && (|s| == k + 3 || (|s| == k + 6 && s[k + 3] == ':' && IsSexagesimal(s[k + 4..])))
  }

  /** The regular expression ^([01]?[0-9]|2[0-3]):[0-5][0-9](:[0-5][0-9])?$ */
  predicate IsClock(s: string) {
    MatchesClockAt(s, 1) || MatchesClockAt(s, 2)
  }

  lemma ClockIsVisible(s: string)
    ensures IsClock(s) ==> HasVisibleChar(s)
  {
    if IsClock(s) {
      assert s[..1][0] == s[0];
      assert !IsSpace(s[0]);
    }
  }

  function ValidateTime(timeString: string): (r: ValidationResult)
    ensures Consistent(r) && |r.errors| <= 1
    ensures r.isValid <==> IsClock(timeString)
    ensures !HasVisibleChar(timeString) ==> r.errors == [REQUIRED]
    ensures HasVisibleChar(timeString) && !IsClock(timeString) ==> r.errors == [INVALID_TIME]
  {
    BlankIffNoVisibleChar(timeString);
    ClockIsVisible(timeString);
    if IsBlank(timeString) then FromErrors([REQUIRED])
    else if !IsClock(timeString) then FromErrors([INVALID_TIME])
    else FromErrors([])
  }

  /** An hour written with one digit (when below 10) or two. */
  function HourText(h: nat, twoDigitHour: bool): string {
    if twoDigitHour then Pad2(h) else IntToString(h)
  }

  /** A clock time written out: the hour as HourText writes it, minutes and optional seconds
      with two digits. */
  function ClockText(h: nat, m: nat, sec: Option<nat>, twoDigitHour: bool): string {
    HourText(h, twoDigitHour) + ":" + Pad2(m) + Seconds(SecondsText(sec))
  }

  function SecondsText(sec: Option<nat>): Option<string> {
    if sec.Some? then Some(Pad2(sec.value)) else None
  }

  /** `s` is the time of day h:m[:sec] written out by ClockText. */
  predicate WritesTimeOfDay(s: string, h: nat, m: nat, sec: Option<nat>, twoDigitHour: bool) {
    h < 24 && m < 60 && (sec.Some? ==> sec.value < 60) && s == ClockText(h, m, sec, twoDigitHour)
  }

  lemma TwoDigitsText(n: nat)
    requires n < 100
    ensures |Pad2(n)| == 2 && Pad2(n)[0] == DigitChar(n / 10) && Pad2(n)[1] == DigitChar(n % 10)
  {
    Pad2Small(n);
  }

  lemma OneDigitText(n: nat)
    requires n < 10
    ensures IntToString(n) == [DigitChar(n)]
  {
  }

  lemma HourTextMatches(h: nat, twoDigitHour: bool)
    requires h < 24
    ensures IsHourText(HourText(h, twoDigitHour))
  {
    TwoDigitsText(h);
    if !twoDigitHour {
      if h < 10 {
        OneDigitText(h);
      } else {
        assert IntToString(h) == Pad2(h);
      }
    }
  }

  lemma SexagesimalText(m: nat)
    requires m < 60
    ensures IsSexagesimal(Pad2(m))
  {
    TwoDigitsText(m);
  }

  function Seconds(st: Option<string>): string {
    if st.Some? then ":" + st.value else ""
  }

  lemma {:induction false} ClockOfParts(ht: string, mt: string, st: Option<string>)
    requires IsHourText(ht) && IsSexagesimal(mt) && (st.Some? ==> IsSexagesimal(st.value))
    ensures IsClock(ht + ":" + mt + Seconds(st))
  {
    var s := ht + ":" + mt + Seconds(st);
    var k := |ht|;
    assert s[..k] == ht;
    assert s[k + 1..k + 3] == mt;
    if st.Some? {
      assert s[k + 4..] == st.value;
    }
    assert MatchesClockAt(s, k);
  }

  /** Every time of day from 0:00 to 23:59:59, in either hour form, passes validateTime. */
  lemma {:induction false} ClockTextIsValid(h: nat, m: nat, sec: Option<nat>, twoDigitHour: bool)
    requires h < 24 && m < 60 && (sec.Some? ==> sec.value < 60)
    ensures ValidateTime(ClockText(h, m, sec, twoDigitHour)).isValid
  {
    HourTextMatches(h, twoDigitHour);
    SexagesimalText(m);
    if sec.Some? {
      SexagesimalText(sec.value);
    }
    ClockOfParts(HourText(h, twoDigitHour), Pad2(m), SecondsText(sec));
  }

  function TwoDigitValue(t: string): nat
    requires |t| == 2 && IsDigit(t[0]) && IsDigit(t[1])
  {
    DigitValue(t[0]) * 10 + DigitValue(t[1])
  }

  lemma TwoDigitRoundTrip(t: string)
    requires |t| == 2 && IsDigit(t[0]) && IsDigit(t[1])
    ensures TwoDigitValue(t) < 100 && Pad2(TwoDigitValue(t)) == t
  {
    TwoDigitsText(TwoDigitValue(t));
  }

  lemma {:induction false} PartsOfClock(s: string) returns (ht: string, mt: string, st: Option<string>)
    requires IsClock(s)
    ensures IsHourText(ht) && IsSexagesimal(mt) && (st.Some? ==> IsSexagesimal(st.value))
    ensures s == ht + ":" + mt + Seconds(st)
  {
    var k := if MatchesClockAt(s, 1) then 1 else 2;
    ht, mt := s[..k], s[k + 1..k + 3];
    if |s| == k + 6 {
      st := Some(s[k + 4..]);
      assert s == ht + ":" + mt + ":" + st.value;
    } else {
      st := None;
      assert s == ht + ":" + mt;
    }
  }

  lemma HourOfText(ht: string) returns (h: nat, two: bool)
    requires IsHourText(ht)
    ensures h < 24 && HourText(h, two) == ht
  {
    two := |ht| == 2;
    if two {
      TwoDigitRoundTrip(ht);
      h := TwoDigitValue(ht);
    } else {
      h := DigitValue(ht[0]);
      OneDigitText(h);
      assert ht == [DigitChar(h)];
    }
  }

  lemma SexagesimalOfText(t: string) returns (v: nat)
    requires IsSexagesimal(t)
    ensures v < 60 && Pad2(v) == t
  {
    TwoDigitRoundTrip(t);
    v := TwoDigitValue(t);
  }

  lemma SecondsOfText(st: Option<string>) returns (sec: Option<nat>)
    requires st.Some? ==> IsSexagesimal(st.value)
    ensures (sec.Some? ==> sec.value < 60) && SecondsText(sec) == st
  {
    if st.Some? {
      var v := SexagesimalOfText(st.value);
      sec := Some(v);
    } else {
      sec := None;
    }
  }

  lemma ClockTextOfParts(s: string, ht: string, mt: string, st: Option<string>, h: nat, two: bool, m: nat, sec: Option<nat>)
    requires s == ht + ":" + mt + Seconds(st)
    requires h < 24 && HourText(h, two) == ht
    requires m < 60 && Pad2(m) == mt
    requires (sec.Some? ==> sec.value < 60) && SecondsText(sec) == st
    ensures WritesTimeOfDay(s, h, m, sec, two)
  {
  }

  /** Everything validateTime accepts is a time of day written out by ClockText. */
  lemma {:induction false} ValidClockIsClockText(s: string)
    requires ValidateTime(s).isValid
    ensures exists h: nat, m: nat, sec: Option<nat>, two: bool :: WritesTimeOfDay(s, h, m, sec, two)
  {
    var ht, mt, st := PartsOfClock(s);
    var h, two := HourOfText(ht);
    var m := SexagesimalOfText(mt);
    var sec := SecondsOfText(st);
    ClockTextOfParts(s, ht, mt, st, h, two, m, sec);
  }

  // ----- E-mail -----

  /** A character of the class [^\s@] */
  predicate IsMailChar(c: char) {
    !IsSpace(c) && c != '@'
  }

  predicate AllMailChars(s: string) {
    forall i :: 0 <= i < |s| ==> IsMailChar(s[i])
  }

  /** The regular expression ^[^\s@]+@[^\s@]+\.[^\s@]+$, with `at` and `dot` the positions of
      the matched '@' and '.'. */
  predicate EmailMatchAt(s: string, at: int, dot: int) {
    0 < at && at + 1 < dot && dot + 1 < |s| && s[at] == '@' && s[dot] == '.'
    && AllMailChars(s[..at]) && AllMailChars(s[at + 1..dot]) && AllMailChars(s[dot + 1..])
  }

  ghost predicate IsEmail(s: string) {
    exists at, dot :: EmailMatchAt(s, at, dot)
  }

  /** The check the model computes: no white space, exactly one '@', not first, and a '.'
      in what follows it, neither right after the '@' nor last. */
  predicate EmailScan(s: string) {
    var at := IndexOf(s, "@");
    0 < at && at + 3 < |s| && (forall i :: 0 <= i < |s| ==> !IsSpace(s[i]))
    && !Includes(s[at + 1..], "@") && Includes(s[at + 2..|s| - 1], ".")
  }

  lemma OccursChar(s: string, c: char, i: int)
    ensures OccursAt(s, [c], i) <==> 0 <= i < |s| && s[i] == c
  {
    if 0 <= i < |s| {
      assert s[i..i + 1] == [s[i]];
    }
  }

  lemma NotIncludesChar(s: string, c: char)
    ensures !Includes(s, [c]) <==> forall i :: 0 <= i < |s| ==> s[i] != c
  {
    IncludesIff(s, [c]);
    forall i {
      OccursChar(s, c, i);
    }
  }

  lemma EmailScanIffMatch(s: string)
    ensures EmailScan(s) <==> IsEmail(s)
  {
    if EmailScan(s) {
      var dot := ScanMatches(s);
    }
    if IsEmail(s) {
      var a, d :| EmailMatchAt(s, a, d);
      MatchScans(s, a, d);
    }
  }

  /** `indexOf` of one character: its first position, or -1 when it is absent */
  lemma IndexOfChar(s: string, c: char)
    ensures var r := IndexOf(s, [c]);
      -1 <= r < |s| && (r >= 0 ==> s[r] == c) && forall i :: 0 <= i < |s| && (r == -1 || i < r) ==> s[i] != c
  {
    forall i {
      OccursChar(s, c, i);
    }
  }

  lemma MailSlice(s: string, x: int, y: int)
    requires 0 <= x <= y <= |s|
    requires forall i :: x <= i < y ==> IsMailChar(s[i])
    ensures AllMailChars(s[x..y])
  {
    forall i | 0 <= i < y - x ensures IsMailChar(s[x..y][i]) {
      assert s[x..y][i] == s[x + i];
    }
  }

  /** What the scan accepts matches the expression at the first '@'. */
  lemma ScanMatches(s: string) returns (dot: int)
    requires EmailScan(s)
    ensures EmailMatchAt(s, IndexOf(s, "@"), dot)
  {
    var at := IndexOf(s, "@");
    IndexOfChar(s, '@');
    var tail := s[at + 1..];
    NotIncludesChar(tail, '@');
    forall i | at < i < |s| ensures s[i] != '@' {
      assert s[i] == tail[i - at - 1];
    }
    var mid := s[at + 2..|s| - 1];
    IndexOfChar(mid, '.');
    var j := IndexOf(mid, ".");
    assert j >= 0;
    dot := at + 2 + j;
    assert s[dot] == mid[j];
    MailSlice(s, 0, at);
    MailSlice(s, at + 1, dot);
    MailSlice(s, dot + 1, |s|);
  }

  /** A match has no white space and its '@' is the only one. */
  lemma MatchChars(s: string, a: int, d: int)
    requires EmailMatchAt(s, a, d)
    ensures forall i :: 0 <= i < |s| ==> !IsSpace(s[i]) && (s[i] == '@' ==> i == a)
  {
    forall i | 0 <= i < |s| ensures !IsSpace(s[i]) && (s[i] == '@' ==> i == a) {
      if i < a {
        assert s[..a][i] == s[i];
      } else if a < i < d {
        assert s[a + 1..d][i - a - 1] == s[i];
      } else if d < i {
        assert s[d + 1..][i - d - 1] == s[i];
      }
    }
  }

  /** What the expression matches, the scan accepts. */
  lemma MatchScans(s: string, a: int, d: int)
    requires EmailMatchAt(s, a, d)
    ensures EmailScan(s)
  {
    MatchChars(s, a, d);
    IndexOfChar(s, '@');
    assert IndexOf(s, "@") == a;
    var tail := s[a + 1..];
    forall i | 0 <= i < |tail| ensures tail[i] != '@' {
      assert tail[i] == s[a + 1 + i];
    }
    NotIncludesChar(tail, '@');
    var mid := s[a + 2..|s| - 1];
    assert mid[d - a - 2] == '.';
    IndexOfChar(mid, '.');
  }

  function ValidateEmail(email: string): (r: ValidationResult)
    ensures Consistent(r) && |r.errors| <= 1
    ensures r.isValid <==> IsEmail(email)
    ensures !HasVisibleChar(email) ==> r.errors == [REQUIRED]
    ensures HasVisibleChar(email) && !IsEmail(email) ==> r.errors == [INVALID_EMAIL]
  {
    BlankIffNoVisibleChar(email);
    EmailScanIffMatch(email);
    if IsBlank(email) then FromErrors([REQUIRED])
    else if !EmailScan(email) then FromErrors([INVALID_EMAIL])
    else FromErrors([])
  }

  // ----- combine -----

  /** `results.flatMap(result => result.errors)` */
  function AllErrors(results: seq<ValidationResult>): (errors: seq<string>)
    ensures errors == [] <==> forall i :: 0 <= i < |results| ==> results[i].errors == []
  {
    if results == [] then [] else results[0].errors + AllErrors(results[1..])
  }

  function Combine(results: seq<ValidationResult>): (r: ValidationResult)
    ensures Consistent(r)
    ensures (forall i :: 0 <= i < |results| ==> Consistent(results[i])) ==>
              (r.isValid <==> forall i :: 0 <= i < |results| ==> results[i].isValid)
  {
    FromErrors(AllErrors(results))
  }

  /** combine keeps the errors in input order: combining two lists of results is combining
      each and concatenating. */
  lemma {:induction false} CombineAppend(a: seq<ValidationResult>, b: seq<ValidationResult>)
    ensures Combine(a + b).errors == Combine(a).errors + Combine(b).errors
  {
    if a == [] {
      assert a + b == b;
    } else {
      assert (a + b)[1..] == a[1..] + b;
      CombineAppend(a[1..], b);
    }
  }

  lemma CombineOne(r: ValidationResult)
    ensures Combine([r]).errors == r.errors
  {
    assert AllErrors([r][1..]) == [];
  }

  // ----- ValidationRules -----

  datatype Rules = Rules(
    accountName: string -> ValidationResult,
    gameName: string -> ValidationResult,
    levelName: string -> ValidationResult,
    levelDaysOffset: int -> ValidationResult,
    levelTimeSpent: int -> ValidationResult,
    levelEventToken: string -> ValidationResult,
    generalDate: (string, bool) -> ValidationResult,
    generalTime: string -> ValidationResult,
    generalEmail: string -> ValidationResult)

  function ValidationRules(): (rules: Rules)
    ensures forall s :: rules.accountName(s) == AccountValidation.ValidateAccountName(s)
    ensures forall s :: rules.gameName(s) == GameValidation.ValidateGameName(s)
    ensures forall s :: rules.levelName(s) == LevelValidation.ValidateLevelName(s)
    ensures forall d :: rules.levelDaysOffset(d) == LevelValidation.ValidateDaysOffset(d)
    ensures forall t :: rules.levelTimeSpent(t) == LevelValidation.ValidateTimeSpent(t)
    ensures forall s :: rules.levelEventToken(s) == LevelValidation.ValidateEventToken(s)
    ensures forall s, req :: rules.generalDate(s, req) == ValidateDate(s, req)
    ensures forall s :: rules.generalTime(s) == ValidateTime(s)
    ensures forall s :: rules.generalEmail(s) == ValidateEmail(s)
  {
    Rules(ValidateAccountName, ValidateGameName, ValidateLevelName, ValidateDaysOffset,
          ValidateTimeSpent, ValidateEventToken, ValidateDate, ValidateTime, ValidateEmail)
  }
}
