// The columns of an account's progress page: one per level, its token cut at "_day", and one
// per purchase event, placed on the account's own day for it and timed by the levels around that
// day; in event-only mode levels come first, each part sorted by day.

module AccountDetailPage {
  import opened Options
  import opened JsText
  import opened JsMath
  import opened Lists
  import opened Catalog
  import DailyTaskUtils

  /** A column id: a stored level's or purchase event's id, or `synth-<token>-<day>` */
  datatype ColId = Num(n: int) | SynthId(token: string, day: int)

  /** A column of the page; `day` and `time` are None where the page holds no number */
  datatype Entry =
    | LevelEntry(id: ColId, token: string, name: string, day: Option<int>, time: Option<int>,
                 isBonus: bool, synthetic: bool)
    | PurchaseEntry(id: ColId, token: string, name: string, day: Option<int>, time: Option<int>,
                    isRestricted: Option<bool>, dayLabel: Option<string>)

  /** The account's stored progress on one purchase event */
  datatype PurchaseProgress = PurchaseProgress(purchaseEventId: int, daysOffset: int, timeSpent: int)

  /** The time spent a saved purchase event gets when no level gives a positive one */
  const FALLBACK_TIME_SPENT := 243

  /** A level's column: the token up to its first "_day"; a stored "-" level keeps the session style */
  function LevelColumn(l: Level): Entry {
    LevelEntry(Num(l.id), BeforeFirst(l.eventToken, "_day"), l.levelName, l.daysOffset, l.timeSpent,
               l.isBonus, l.levelName == SESSION_NAME)
  }

  lemma LevelColumnShape(l: Level)
    ensures var c := LevelColumn(l);
      c.id == Num(l.id) && c.day == l.daysOffset && c.time == l.timeSpent &&
      c.token <= l.eventToken && !Includes(c.token, "_day") &&
      (Includes(l.eventToken, "_day") <==> |c.token| < |l.eventToken|) &&
      (c.synthetic <==> l.levelName == SESSION_NAME)
  {
    var t := BeforeFirst(l.eventToken, "_day");
    assert t == l.eventToken[..|t|];
  }

  function LevelColumns(levels: seq<Level>): (cols: seq<Entry>)
    ensures |cols| == |levels|
    ensures forall i :: 0 <= i < |levels| ==> cols[i] == LevelColumn(levels[i])
  {
    seq(|levels|, i requires 0 <= i < |levels| => LevelColumn(levels[i]))
  }

  /** `purchaseProgress.find(pp => pp.purchase_event_id === id)` */
  function FindProgress(progress: seq<PurchaseProgress>, id: int): (r: Option<PurchaseProgress>)
    ensures r.None? <==> forall pr :: pr in progress ==> pr.purchaseEventId != id
    ensures r.Some? ==> exists i :: (0 <= i < |progress| && progress[i] == r.value &&
      r.value.purchaseEventId == id && forall j :: 0 <= j < i ==> progress[j].purchaseEventId != id)
  {
    if progress == [] then None
    else if progress[0].purchaseEventId == id then Some(progress[0])
    else
      var r := FindProgress(progress[1..], id);
      if r.Some? then
        var i :| 0 <= i < |progress[1..]| && progress[1..][i] == r.value &&
          r.value.purchaseEventId == id && forall j :: 0 <= j < i ==> progress[1..][j].purchaseEventId != id;
        assert progress[i + 1] == r.value;
        r
      else r
  }

  /** A purchase column's day: the account's progress row for it when there is one, else the
      catalog's day */
  function PurchaseDay(p: PurchaseEvent, progress: seq<PurchaseProgress>): (day: Option<int>)
    ensures (forall pr :: pr in progress ==> pr.purchaseEventId != p.id) ==> day == p.daysOffset
    ensures (exists pr :: pr in progress && pr.purchaseEventId == p.id) ==>
      exists pr :: pr in progress && pr.purchaseEventId == p.id && day == Some(pr.daysOffset)
  {
    match FindProgress(progress, p.id)
    case Some(pr) => Some(pr.daysOffset)
    case None => p.daysOffset
  }

  /** The numeric levels, stably sorted by day */
  function SortedNumeric(levels: seq<Level>): seq<Level> {
    SortBy(DailyTaskUtils.NumericLevels(levels), DailyTaskUtils.DayKey)
  }

  /** `l => l.daysOffset === d` */
  function OnDay(d: int): Level -> bool {
    (l: Level) => DailyTaskUtils.DayKey(l) == d
  }

  /** `levelsToAverage`: the numeric levels of day d, then the first numeric level of a later day */
  function Averaged(levels: seq<Level>, d: int): seq<Level> {
    AveragedFrom(SortedNumeric(levels), d)
  }

  function AveragedFrom(numeric: seq<Level>, d: int): seq<Level> {
    var k := IndexAbove(numeric, DailyTaskUtils.DayKey, d);
    Filter(numeric, OnDay(d)) + (if k >= 0 then [numeric[k]] else [])
  }

  /** `level.timeSpent || 0` */
  function TimeOrZero(l: Level): int {
    l.timeSpent.GetOr(0)
  }

  function SumTimes(ls: seq<Level>): int {
    if ls == [] then 0 else TimeOrZero(ls[0]) + SumTimes(ls[1..])
  }

  /** `midpointTime`: the rounded mean time of the averaged levels; None when there is none */
  function MidpointTime(levels: seq<Level>, day: Option<int>): Option<int> {
    if day.None? then None
    else
      var avg := Averaged(levels, day.value);
      if avg == [] then None else Some(RoundDiv(SumTimes(avg), |avg|))
  }

  lemma SortedNumericFacts(levels: seq<Level>)
    ensures SortedBy(SortedNumeric(levels), DailyTaskUtils.DayKey)
    ensures forall l :: l in SortedNumeric(levels) <==> l in levels && DailyTaskUtils.HasDay(l)
  {
    var pool := DailyTaskUtils.NumericLevels(levels);
    SortBySorted(pool, DailyTaskUtils.DayKey);
    FilterMembers(levels, DailyTaskUtils.HasDay);
    assert forall l :: l in SortedNumeric(levels) <==> l in multiset(pool);
  }

  /** Which levels are averaged: every numeric level of the day itself, and one level of the
      nearest later day that has a numeric level; nothing when no numeric level is that late */
  lemma AveragedMembers(levels: seq<Level>, d: int)
    ensures var avg := Averaged(levels, d);
      (forall l :: l in avg ==> l in levels && DailyTaskUtils.HasDay(l) && DailyTaskUtils.DayKey(l) >= d) &&
      (forall l :: l in levels && DailyTaskUtils.HasDay(l) && DailyTaskUtils.DayKey(l) == d ==> l in avg) &&
      (forall l :: l in levels && DailyTaskUtils.HasDay(l) && DailyTaskUtils.DayKey(l) > d ==>
         exists m :: m in avg && d < DailyTaskUtils.DayKey(m) <= DailyTaskUtils.DayKey(l)) &&
      (avg == [] <==> forall l :: l in levels && DailyTaskUtils.HasDay(l) ==> DailyTaskUtils.DayKey(l) < d)
  {
    AveragedFromDay(levels, d);
    AveragedNext(levels, d);
  }

  lemma AveragedFromDay(levels: seq<Level>, d: int)
    ensures forall l :: l in Averaged(levels, d) ==>
      l in levels && DailyTaskUtils.HasDay(l) && DailyTaskUtils.DayKey(l) >= d
    ensures forall l :: l in levels && DailyTaskUtils.HasDay(l) && DailyTaskUtils.DayKey(l) == d ==>
      l in Averaged(levels, d)
  {
    var numeric := SortedNumeric(levels);
    SortedNumericFacts(levels);
    FilterMembers(numeric, OnDay(d));
  }

  lemma AveragedNext(levels: seq<Level>, d: int)
    ensures forall l :: l in levels && DailyTaskUtils.HasDay(l) && DailyTaskUtils.DayKey(l) > d ==>
      exists m :: m in Averaged(levels, d) && d < DailyTaskUtils.DayKey(m) <= DailyTaskUtils.DayKey(l)
    ensures Averaged(levels, d) == [] <==>
      forall l :: l in levels && DailyTaskUtils.HasDay(l) ==> DailyTaskUtils.DayKey(l) < d
  {
    SortedNumericFacts(levels);
    AveragedLater(levels, SortedNumeric(levels), d);
    AveragedEmpty(levels, SortedNumeric(levels), d);
  }

  lemma AveragedLater(levels: seq<Level>, numeric: seq<Level>, d: int)
    requires DailyTaskUtils.NumericOf(levels, numeric)
    ensures forall l :: l in levels && DailyTaskUtils.HasDay(l) && DailyTaskUtils.DayKey(l) > d ==>
      exists m :: m in AveragedFrom(numeric, d) && d < DailyTaskUtils.DayKey(m) <= DailyTaskUtils.DayKey(l)
  {
    var k := IndexAbove(numeric, DailyTaskUtils.DayKey, d);
    forall l | l in levels && DailyTaskUtils.HasDay(l) && DailyTaskUtils.DayKey(l) > d
      ensures exists m :: m in AveragedFrom(numeric, d) && d < DailyTaskUtils.DayKey(m) <= DailyTaskUtils.DayKey(l)
    {
      assert l in numeric;
      var j :| 0 <= j < |numeric| && numeric[j] == l;
      assert k >= 0 && k <= j;
      assert numeric[k] in AveragedFrom(numeric, d);
    }
  }

  lemma AveragedEmpty(levels: seq<Level>, numeric: seq<Level>, d: int)
    requires DailyTaskUtils.NumericOf(levels, numeric)
    ensures AveragedFrom(numeric, d) == [] <==>
      forall l :: l in levels && DailyTaskUtils.HasDay(l) ==> DailyTaskUtils.DayKey(l) < d
  {
    FilterMembers(numeric, OnDay(d));
    var avg := AveragedFrom(numeric, d);
    if avg == [] {
      forall l | l in levels && DailyTaskUtils.HasDay(l) ensures DailyTaskUtils.DayKey(l) < d {
        assert l in numeric;
      }
    } else {
      var m := avg[0];
      assert m in avg;
      assert m in numeric;
    }
  }

  /** The mean lies between the smallest and the largest averaged time. */
  lemma MidpointBetween(levels: seq<Level>, d: int, lo: int, hi: int)
    requires Averaged(levels, d) != []
    requires forall l :: l in Averaged(levels, d) ==> lo <= TimeOrZero(l) <= hi
    ensures MidpointTime(levels, Some(d)).Some?
    ensures lo <= MidpointTime(levels, Some(d)).value <= hi
  {
    var avg := Averaged(levels, d);
    SumBounds(avg, lo, hi);
    RoundDivBetween(SumTimes(avg), |avg|, lo, hi);
  }

  lemma {:induction false} SumBounds(ls: seq<Level>, lo: int, hi: int)
    requires forall l :: l in ls ==> lo <= TimeOrZero(l) <= hi
    ensures |ls| * lo <= SumTimes(ls) <= |ls| * hi
  {
    if ls != [] {
      SumBounds(ls[1..], lo, hi);
      assert ls[0] in ls;
      SumStep(|ls[1..]|, lo, hi, TimeOrZero(ls[0]), SumTimes(ls[1..]));
    }
  }

  lemma SumStep(n: nat, lo: int, hi: int, t: int, s: int)
    requires n * lo <= s <= n * hi && lo <= t <= hi
    ensures (n + 1) * lo <= t + s <= (n + 1) * hi
  {
    assert (n + 1) * lo == n * lo + lo;
    assert (n + 1) * hi == n * hi + hi;
  }

  /** A purchase column: named "$$$", timed `midpointTime || 0` */
  function PurchaseColumn(p: PurchaseEvent, progress: seq<PurchaseProgress>, levels: seq<Level>,
                          lessThan: string): Entry {
    var day := PurchaseDay(p, progress);
    var dayLabel := if p.maxDaysOffset.Some? then Some(lessThan + " " + IntToString(p.maxDaysOffset.value)) else None;
    PurchaseEntry(Num(p.id), p.eventToken, PURCHASE_NAME, day, Some(MidpointTime(levels, day).GetOr(0)),
                  p.isRestricted, dayLabel)
  }

  /** A purchase column is timed by the mean around its day, or 0 when nothing is averaged. */
  lemma PurchaseColumnTime(p: PurchaseEvent, progress: seq<PurchaseProgress>, levels: seq<Level>, lessThan: string)
    ensures var c := PurchaseColumn(p, progress, levels, lessThan);
      c.time.Some? && c.day == PurchaseDay(p, progress) &&
      (c.day.None? || Averaged(levels, c.day.value) == [] ==> c.time == Some(0)) &&
      (c.day.Some? && Averaged(levels, c.day.value) != [] ==>
         c.time == Some(RoundDiv(SumTimes(Averaged(levels, c.day.value)), |Averaged(levels, c.day.value)|)))
  {
  }

  function PurchaseColumns(events: seq<PurchaseEvent>, progress: seq<PurchaseProgress>, levels: seq<Level>,
                           lessThan: string): (cols: seq<Entry>)
    ensures |cols| == |events|
    ensures forall j :: 0 <= j < |events| ==> cols[j] == PurchaseColumn(events[j], progress, levels, lessThan)
  {
    seq(|events|, j requires 0 <= j < |events| => PurchaseColumn(events[j], progress, levels, lessThan))
  }

  /** The time spent saved for a purchase event (`handleSaveProgress`): with a chosen day, the
      mean around that day when positive, else the stored time when positive, else 243; without
      a chosen day, day 0 and time 0 */
  function SavedPurchase(levels: seq<Level>, selectedDay: Option<int>, progress: seq<PurchaseProgress>,
                         purchaseId: int): (saved: (int, int))
    ensures selectedDay.None? ==> saved == (0, 0)
    ensures selectedDay.Some? ==> saved.0 == selectedDay.value && saved.1 > 0
    ensures selectedDay.Some? && MidpointTime(levels, selectedDay).GetOr(0) > 0 ==>
      saved.1 == MidpointTime(levels, selectedDay).value
    ensures selectedDay.Some? && MidpointTime(levels, selectedDay).GetOr(0) <= 0 ==>
      match FindProgress(progress, purchaseId)
      case Some(existing) => saved.1 == (if existing.timeSpent > 0 then existing.timeSpent else FALLBACK_TIME_SPENT)
      case None => saved.1 == FALLBACK_TIME_SPENT
  {
    if selectedDay.None? then (0, 0)
    else
      var calculated := MidpointTime(levels, selectedDay).GetOr(0);
      if calculated > 0 then (selectedDay.value, calculated)
      else match FindProgress(progress, purchaseId)
        case Some(existing) => (selectedDay.value, if existing.timeSpent > 0 then existing.timeSpent else FALLBACK_TIME_SPENT)
        case None => (selectedDay.value, FALLBACK_TIME_SPENT)
  }

  predicate NotSession(e: Entry) { e.name != SESSION_NAME }

  predicate HasDay(e: Entry) { e.day.Some? }

  predicate NoDay(e: Entry) { e.day.None? }

  /** `a.daysOffset || 0` */
  function DayOrZero(e: Entry): int { e.day.GetOr(0) }

  /** Event-only mode's levels: the ones not named "-", sorted by day (a missing day counting as 0) */
  function EventOnlyLevels(levelCols: seq<Entry>): seq<Entry> {
    SortBy(Filter(levelCols, NotSession), DayOrZero)
  }

  /** Event-only mode's purchase events: sorted by day, the ones without a day last; the
      comparator keeps the page's order among equal days, which a stable sort preserves */
  function EventOnlyPurchases(purchaseCols: seq<Entry>): seq<Entry> {
    SortBy(Filter(purchaseCols, HasDay), DayOrZero) + Filter(purchaseCols, NoDay)
  }

  /** Event-only mode: the levels, then the purchase events */
  function EventOnlyColumns(levelCols: seq<Entry>, purchaseCols: seq<Entry>): seq<Entry> {
    EventOnlyLevels(levelCols) + EventOnlyPurchases(purchaseCols)
  }

  lemma EventOnlyLevelsShape(levelCols: seq<Entry>)
    requires forall e :: e in levelCols ==> e.LevelEntry?
    ensures var ls := EventOnlyLevels(levelCols);
      |ls| == |Filter(levelCols, NotSession)| &&
      (forall e :: e in ls ==> e.LevelEntry? && NotSession(e)) &&
      SortedBy(ls, DayOrZero) &&
      multiset(ls) == multiset(Filter(levelCols, NotSession))
  {
    var kept := Filter(levelCols, NotSession);
    SortBySorted(kept, DayOrZero);
    FilterMembers(levelCols, NotSession);
    var ls := EventOnlyLevels(levelCols);
    assert ls == SortBy(kept, DayOrZero);
    forall e | e in ls ensures e.LevelEntry? && NotSession(e) {
      assert e in multiset(kept);
    }
  }

  /** Event-only mode lists every purchase event once. */
  lemma EventOnlyPurchasesKept(purchaseCols: seq<Entry>)
    ensures multiset(EventOnlyPurchases(purchaseCols)) == multiset(purchaseCols)
    ensures |EventOnlyPurchases(purchaseCols)| == |purchaseCols|
  {
    var dated := Filter(purchaseCols, HasDay);
    var undated := Filter(purchaseCols, NoDay);
    assert EventOnlyPurchases(purchaseCols) == SortBy(dated, DayOrZero) + undated;
    FilterPartition(purchaseCols, HasDay, NoDay);
  }

  /** Event-only mode puts the dated purchase events first, sorted by day, then the undated. */
  lemma EventOnlyPurchasesOrder(purchaseCols: seq<Entry>)
    ensures var ps := EventOnlyPurchases(purchaseCols);
      var m := |Filter(purchaseCols, HasDay)|;
      m <= |ps| &&
      SortedBy(ps[..m], DayOrZero) &&
      (forall i :: 0 <= i < m ==> HasDay(ps[i])) &&
      (forall i :: m <= i < |ps| ==> NoDay(ps[i]))
  {
    var dated := Filter(purchaseCols, HasDay);
    var undated := Filter(purchaseCols, NoDay);
    var sp := SortBy(dated, DayOrZero);
    assert sp + undated == EventOnlyPurchases(purchaseCols);
    SortBySorted(dated, DayOrZero);
    FilterMembers(purchaseCols, HasDay);
    FilterMembers(purchaseCols, NoDay);
    forall e | e in sp ensures HasDay(e) {
      assert e in multiset(dated);
    }
    DatedThenUndated(sp, undated);
  }

  lemma DatedThenUndated(sp: seq<Entry>, undated: seq<Entry>)
    requires SortedBy(sp, DayOrZero) && (forall e :: e in sp ==> HasDay(e)) && (forall e :: e in undated ==> NoDay(e))
    ensures var ps := sp + undated;
      SortedBy(ps[..|sp|], DayOrZero) &&
      (forall i :: 0 <= i < |sp| ==> HasDay(ps[i])) &&
      (forall i :: |sp| <= i < |ps| ==> NoDay(ps[i]))
  {
    var ps := sp + undated;
    assert ps[..|sp|] == sp;
    forall i | 0 <= i < |sp| ensures HasDay(ps[i]) {
      assert ps[i] == sp[i];
    }
    forall i | |sp| <= i < |ps| ensures NoDay(ps[i]) {
      assert ps[i] == undated[i - |sp|];
    }
  }

  /** Event-only order: levels first, sorted by day and without "-" ones; then every purchase
      event once, the dated ones sorted by day before the undated ones. */
  lemma EventOnlyOrder(levelCols: seq<Entry>, purchaseCols: seq<Entry>)
    requires forall e :: e in levelCols ==> e.LevelEntry?
    requires forall e :: e in purchaseCols ==> e.PurchaseEntry?
    ensures var cols := EventOnlyColumns(levelCols, purchaseCols);
      var n := |Filter(levelCols, NotSession)|;
      n + |purchaseCols| == |cols| &&
      cols[..n] == EventOnlyLevels(levelCols) && cols[n..] == EventOnlyPurchases(purchaseCols) &&
      (forall i :: 0 <= i < n ==> cols[i].LevelEntry? && NotSession(cols[i])) &&
      (forall i :: n <= i < |cols| ==> cols[i].PurchaseEntry?)
  {
    EventOnlyLevelsShape(levelCols);
    EventOnlyPurchasesKept(purchaseCols);
    var ls := EventOnlyLevels(levelCols);
    var ps := EventOnlyPurchases(purchaseCols);
    var cols := ls + ps;
    assert cols[..|ls|] == ls && cols[|ls|..] == ps;
    forall i | 0 <= i < |ls| ensures cols[i].LevelEntry? && NotSession(cols[i]) {
      assert cols[i] in ls;
    }
    forall i | |ls| <= i < |cols| ensures cols[i].PurchaseEntry? {
      assert cols[i] in ps && cols[i] in multiset(purchaseCols);
    }
  }
}
