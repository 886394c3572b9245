// "All" mode of an account's progress page: the dated columns, sorted by day, then levels before
// purchase events, then by id text, are grouped by day; every day from the earlier of the first
// day and 0 up to the last day shows its columns, or, when it has none, one synthetic session
// column timed from the real levels around it.

module AccountDayWalk {
  import opened Options
  import opened JsText
  import opened JsMath
  import opened Lists
  import opened Catalog
  import opened AccountDetailPage
  import GapFill

  /** `String(id)` */
  function IdText(id: ColId): string {
    match id
    case Num(n) => IntToString(n)
    case SynthId(t, d) => "synth-" + t + "-" + IntToString(d)
  }

  /** Levels sort before purchase events */
  function KindRank(e: Entry): int {
    if e.LevelEntry? then 0 else 1
  }

  /** The comparator of `numeric.sort`, read as "a sorts strictly before b": by day, then levels
      first, then by `String(a.id).localeCompare(String(b.id))` */
  predicate Before(a: Entry, b: Entry) {
    DayOrZero(a) < DayOrZero(b) ||
    (DayOrZero(a) == DayOrZero(b) &&
     (KindRank(a) < KindRank(b) ||
      (KindRank(a) == KindRank(b) && StrLess(IdText(a.id), IdText(b.id)))))
  }

  /** The comparator is consistent, so the sort's result is ordered by it. */
  lemma BeforeIsStrictOrder()
    ensures StrictOrder(Before)
  {
    forall a: Entry, b: Entry | Before(a, b) ensures !Before(b, a) {
      StrLessAsym(IdText(a.id), IdText(b.id));
    }
    forall a: Entry, b: Entry, c: Entry | !Before(a, b) && !Before(b, c) ensures !Before(a, c) {
      var x, y, z := IdText(a.id), IdText(b.id), IdText(c.id);
      StrLessTotal(x, y);
      StrLessTotal(y, z);
      StrLessAsym(z, x);
      StrLessAsym(x, x);
      if StrLess(z, y) && StrLess(y, x) {
        StrLessTrans(z, y, x);
      }
    }
  }

  /** `numeric`: the dated columns, sorted in place by the comparator */
  function Numeric(all: seq<Entry>): seq<Entry> {
    SortWith(Filter(all, HasDay), Before)
  }

  lemma NumericFacts(all: seq<Entry>)
    ensures SortedWith(Numeric(all), Before)
    ensures SortedBy(Numeric(all), DayOrZero)
    ensures multiset(Numeric(all)) == multiset(Filter(all, HasDay))
    ensures forall e :: e in Numeric(all) <==> e in all && HasDay(e)
  {
    NumericSorted(all);
    BeforeSortedByDay(Numeric(all));
    NumericMembers(all);
  }

  lemma NumericSorted(all: seq<Entry>)
    ensures SortedWith(Numeric(all), Before)
  {
    BeforeIsStrictOrder();
    SortWithSorted(Filter(all, HasDay), Before);
  }

  /** The comparator orders by day first. */
  lemma BeforeSortedByDay(s: seq<Entry>)
    requires SortedWith(s, Before)
    ensures SortedBy(s, DayOrZero)
  {
  }

  lemma NumericMembers(all: seq<Entry>)
    ensures multiset(Numeric(all)) == multiset(Filter(all, HasDay))
    ensures forall e :: e in Numeric(all) <==> e in all && HasDay(e)
  {
    FilterMembers(all, HasDay);
    assert forall e :: e in Numeric(all) <==> e in multiset(Filter(all, HasDay));
  }

  /** `entry => entry.daysOffset === d` */
  function EntryOnDay(d: int): Entry -> bool {
    (e: Entry) => DayOrZero(e) == d
  }

  function AtLeast(d: int): Entry -> bool {
    (e: Entry) => DayOrZero(e) >= d
  }

  /** `entriesByDay[d]`, in the sorted order; empty where the dictionary has no key */
  function DayEntries(numeric: seq<Entry>, d: int): seq<Entry> {
    Filter(numeric, EntryOnDay(d))
  }

  /** `entry.kind === 'level' && !entry.synthetic` */
  predicate IsRealLevel(e: Entry) {
    e.LevelEntry? && !e.synthetic
  }

  /** A column of the catalog rather than a synthesized one */
  predicate IsStored(e: Entry) {
    e.id.Num?
  }

  /** `minDay`: the first day, or 0 when that is later */
  function MinDay(numeric: seq<Entry>): int {
    if numeric != [] && DayOrZero(numeric[0]) <= 0 then DayOrZero(numeric[0]) else 0
  }

  function MaxDay(numeric: seq<Entry>): int {
    if numeric == [] then 0 else DayOrZero(numeric[|numeric| - 1])
  }

  /** `nextRealLevel`: the first real level of the nearest day from d to maxDay that has one */
  function NextRealFrom(numeric: seq<Entry>, d: int, maxDay: int): Option<Entry>
    decreases maxDay - d
  {
    if d > maxDay then None
    else
      var reals := Filter(DayEntries(numeric, d), IsRealLevel);
      if reals != [] then Some(reals[0]) else NextRealFrom(numeric, d + 1, maxDay)
  }

  /** `nextRealLevel` is a real level of a day from d to maxDay, and no real level from d on is
      earlier; when there is none, no real level lies in that range. */
  lemma {:induction false} NextRealFacts(numeric: seq<Entry>, d: int, maxDay: int)
    decreases maxDay - d
    ensures var r := NextRealFrom(numeric, d, maxDay);
      (r.Some? ==> r.value in numeric && IsRealLevel(r.value) && d <= DayOrZero(r.value) <= maxDay) &&
      (r.Some? ==> forall e :: e in numeric && IsRealLevel(e) && d <= DayOrZero(e) ==>
         DayOrZero(r.value) <= DayOrZero(e)) &&
      (r.None? ==> forall e :: e in numeric && IsRealLevel(e) ==> !(d <= DayOrZero(e) <= maxDay))
  {
    if d <= maxDay {
      var reals := Filter(DayEntries(numeric, d), IsRealLevel);
      FilterMembers(DayEntries(numeric, d), IsRealLevel);
      FilterMembers(numeric, EntryOnDay(d));
      if reals != [] {
        assert reals[0] in reals;
      } else {
        NextRealFacts(numeric, d + 1, maxDay);
      }
    }
  }

  /** `prevRealLevel`: the last real level of the nearest day from d down to minDay that has one */
  function PrevRealFrom(numeric: seq<Entry>, d: int, minDay: int): Option<Entry>
    decreases d - minDay
  {
    if d < minDay then None
    else
      var reals := Filter(DayEntries(numeric, d), IsRealLevel);
      if reals != [] then Some(reals[|reals| - 1]) else PrevRealFrom(numeric, d - 1, minDay)
  }

  /** `prevRealLevel` is a real level of a day from minDay to d; when there is none, no real level
      lies in that range. */
  lemma {:induction false} PrevRealFacts(numeric: seq<Entry>, d: int, minDay: int)
    decreases d - minDay
    ensures var r := PrevRealFrom(numeric, d, minDay);
      (r.Some? ==> r.value in numeric && IsRealLevel(r.value) && minDay <= DayOrZero(r.value) <= d) &&
      (r.None? ==> forall e :: e in numeric && IsRealLevel(e) ==> !(minDay <= DayOrZero(e) <= d))
  {
    if d >= minDay {
      var reals := Filter(DayEntries(numeric, d), IsRealLevel);
      FilterMembers(DayEntries(numeric, d), IsRealLevel);
      FilterMembers(numeric, EntryOnDay(d));
      if reals != [] {
        assert reals[|reals| - 1] in reals;
      } else {
        PrevRealFacts(numeric, d - 1, minDay);
      }
    }
  }

  /** `Math.min(...xs)` */
  function MinOf(xs: seq<int>): int
    requires xs != []
  {
    if |xs| == 1 then xs[0]
    else
      var rest := MinOf(xs[1..]);
      if xs[0] <= rest then xs[0] else rest
  }

  /** MinOf is an element of xs and no element is smaller. */
  lemma {:induction false} MinOfIsLeast(xs: seq<int>)
    requires xs != []
    ensures MinOf(xs) in xs && forall x :: x in xs ==> MinOf(xs) <= x
  {
    if |xs| > 1 {
      MinOfIsLeast(xs[1..]);
      assert forall x :: x in xs[1..] ==> x in xs;
      assert forall x :: x in xs ==> x == xs[0] || x in xs[1..];
    }
  }

  /** The days of some columns */
  function DaysOf(s: seq<Entry>): seq<int> {
    if s == [] then [] else [DayOrZero(s[0])] + DaysOf(s[1..])
  }

  lemma {:induction false} DaysOfIndex(s: seq<Entry>)
    ensures |DaysOf(s)| == |s| && forall i :: 0 <= i < |s| ==> DaysOf(s)[i] == DayOrZero(s[i])
  {
    if s != [] {
      DaysOfIndex(s[1..]);
    }
  }

  /** `firstRealDay`: the earliest day of a real level; the page asks for it only when there is
      a real level */
  function FirstRealDay(numeric: seq<Entry>): int {
    var reals := Filter(numeric, IsRealLevel);
    if reals == [] then 0 else MinOf(DaysOf(reals))
  }

  /** When there is a real level, `firstRealDay` is the day of a real level and no real level is
      earlier. */
  lemma FirstRealDayFacts(numeric: seq<Entry>, some: Entry)
    requires some in numeric && IsRealLevel(some)
    ensures forall e :: e in numeric && IsRealLevel(e) ==> FirstRealDay(numeric) <= DayOrZero(e)
    ensures exists e :: e in numeric && IsRealLevel(e) && DayOrZero(e) == FirstRealDay(numeric)
  {
    var reals := Filter(numeric, IsRealLevel);
    FilterMembers(numeric, IsRealLevel);
    var days := DaysOf(reals);
    DaysOfIndex(reals);
    MinOfIsLeast(days);
    var first := MinOf(days);
    forall e | e in numeric && IsRealLevel(e) ensures first <= DayOrZero(e) {
      assert e in reals;
      var i :| 0 <= i < |reals| && reals[i] == e;
      assert days[i] == DayOrZero(e);
      assert days[i] in days;
    }
    var k :| 0 <= k < |days| && days[k] == first;
    assert reals[k] in reals;
  }

  /** `synthesizedTime` for a day without columns, next being the next real level; None where
      the page's arithmetic gives no finite number */
  function SynthTime(numeric: seq<Entry>, day: int, minDay: int, next: Entry): Option<int> {
    var first := FirstRealDay(numeric);
    var t := next.time.GetOr(0);
    if day < first then
      (if first + 1 == 0 then None else Some(RoundDiv((day + 1) * t, first + 1)))
    else
      match PrevRealFrom(numeric, day - 1, minDay)
      case Some(prev) => Some(GapFill.Interpolate(prev.time.GetOr(0), DayOrZero(prev), t, DayOrZero(next), day))
      case None => Some(RoundDiv(t, 2))
  }

  /** The synthetic session column `synth-<token>-<day>` */
  function SynthEntry(token: string, day: int, time: Option<int>): Entry {
    LevelEntry(SynthId(token, day), token, SESSION_NAME, Some(day), time, false, true)
  }

  /** What one day of the walk pushes */
  function DayItems(numeric: seq<Entry>, day: int, minDay: int, maxDay: int): seq<Entry> {
    var here := DayEntries(numeric, day);
    if here != [] then here
    else
      match NextRealFrom(numeric, day + 1, maxDay)
      case None => []
      case Some(next) =>
        if next.token == [] then [] else [SynthEntry(next.token, day, SynthTime(numeric, day, minDay, next))]
  }

  /** The walk over the days from `day` to `maxDay` */
  function Walk(numeric: seq<Entry>, day: int, minDay: int, maxDay: int): seq<Entry>
    decreases maxDay + 1 - day
  {
    if day > maxDay then [] else DayItems(numeric, day, minDay, maxDay) + Walk(numeric, day + 1, minDay, maxDay)
  }

  /** `numericIds` */
  function NumericIds(numeric: seq<Entry>): set<ColId> {
    set e | e in numeric :: e.id
  }

  /** `c => !numericIds.has(c.id)` */
  function OutsideIds(ids: set<ColId>): Entry -> bool {
    (e: Entry) => e.id !in ids
  }

  /** "All" mode as the page writes it: the undated columns are picked by id, and level ids and
      purchase event ids share one set */
  function AllModeColumnsAsWritten(levelCols: seq<Entry>, purchaseCols: seq<Entry>): seq<Entry> {
    var all := levelCols + purchaseCols;
    var numeric := Numeric(all);
    Walk(numeric, MinDay(numeric), MinDay(numeric), MaxDay(numeric)) + Filter(all, OutsideIds(NumericIds(numeric)))
  }

  /** "All" mode: the walk, then the columns without a day */
  function AllModeColumns(levelCols: seq<Entry>, purchaseCols: seq<Entry>): seq<Entry> {
    var all := levelCols + purchaseCols;
    var numeric := Numeric(all);
    Walk(numeric, MinDay(numeric), MinDay(numeric), MaxDay(numeric)) + Filter(all, NoDay)
  }

  /** Each column a day pushes lies on that day; a day without columns pushes at most one
      synthetic session column, named after the token of the first real level of a later day,
      and only when there is such a level with a non-empty token. */
  lemma DayItemsShape(numeric: seq<Entry>, day: int, minDay: int, maxDay: int)
    ensures forall e :: e in DayItems(numeric, day, minDay, maxDay) ==> DayOrZero(e) == day
    ensures DayEntries(numeric, day) != [] ==> DayItems(numeric, day, minDay, maxDay) == DayEntries(numeric, day)
    ensures DayEntries(numeric, day) == [] ==>
      var items := DayItems(numeric, day, minDay, maxDay);
      var next := NextRealFrom(numeric, day + 1, maxDay);
      |items| <= 1 &&
      (items != [] <==> next.Some? && next.value.token != []) &&
      (items != [] ==>
         (items[0].LevelEntry? && items[0].synthetic && items[0].name == SESSION_NAME &&
          items[0].id == SynthId(next.value.token, day) && items[0].token == next.value.token &&
          !items[0].isBonus && !IsStored(items[0])))
  {
    FilterMembers(numeric, EntryOnDay(day));
  }

  /** Before the first real level the time ramps up: the next real level is the first one, and
      for a day from -1 on, with a non-negative time t and first day f, the time is
      round((day + 1) t / (f + 1)), between 0 and t. */
  lemma BeforeFirstReal(numeric: seq<Entry>, day: int, minDay: int, maxDay: int, next: Entry)
    requires NextRealFrom(numeric, day + 1, maxDay) == Some(next)
    requires day < FirstRealDay(numeric)
    ensures DayOrZero(next) == FirstRealDay(numeric)
    ensures -1 <= day && next.time.GetOr(0) >= 0 ==>
      var t := next.time.GetOr(0);
      var f := FirstRealDay(numeric);
      SynthTime(numeric, day, minDay, next) == Some(RoundDiv((day + 1) * t, f + 1)) &&
      0 <= SynthTime(numeric, day, minDay, next).value <= t
  {
    var f := FirstRealDay(numeric);
    NextRealFacts(numeric, day + 1, maxDay);
    FirstRealDayFacts(numeric, next);
    var first :| first in numeric && IsRealLevel(first) && DayOrZero(first) == f;
    assert DayOrZero(next) <= DayOrZero(first);
    var t := next.time.GetOr(0);
    if -1 <= day && t >= 0 {
      MulMono(t, 0, day + 1);
      MulMono(t, day + 1, f + 1);
      assert (f + 1) * 0 <= (day + 1) * t <= (f + 1) * t;
      RoundDivBetween((day + 1) * t, f + 1, 0, t);
    }
  }

  /** From the first real level on, a day without columns always has a real level before it, so
      the page's fallback of half the next time is never taken; the time lies between the
      neighbours' times. */
  lemma AfterFirstReal(numeric: seq<Entry>, day: int, maxDay: int, next: Entry)
    requires DayEntries(numeric, day) == []
    requires forall e :: e in numeric ==> MinDay(numeric) <= DayOrZero(e)
    requires NextRealFrom(numeric, day + 1, maxDay) == Some(next)
    requires day >= FirstRealDay(numeric)
    ensures var prev := PrevRealFrom(numeric, day - 1, MinDay(numeric));
      prev.Some? && DayOrZero(prev.value) < day < DayOrZero(next) &&
      SynthTime(numeric, day, MinDay(numeric), next).Some? &&
      GapFill.Between(SynthTime(numeric, day, MinDay(numeric), next).value,
                      prev.value.time.GetOr(0), next.time.GetOr(0))
  {
    var minDay := MinDay(numeric);
    var f := FirstRealDay(numeric);
    NextRealFacts(numeric, day + 1, maxDay);
    PrevRealFacts(numeric, day - 1, minDay);
    FirstRealDayFacts(numeric, next);
    var first :| first in numeric && IsRealLevel(first) && DayOrZero(first) == f;
    FilterMembers(numeric, EntryOnDay(day));
    assert DayOrZero(first) != day;
    var prev := PrevRealFrom(numeric, day - 1, minDay);
    assert prev.Some?;
    GapFill.InterpolateBetween(prev.value.time.GetOr(0), DayOrZero(prev.value), next.time.GetOr(0), DayOrZero(next), day);
  }

  /** The walk keeps the order by day and stays within the days it walks. */
  lemma {:induction false} WalkSorted(numeric: seq<Entry>, day: int, minDay: int, maxDay: int)
    decreases maxDay + 1 - day
    ensures forall e :: e in Walk(numeric, day, minDay, maxDay) ==> day <= DayOrZero(e) <= maxDay
    ensures SortedBy(Walk(numeric, day, minDay, maxDay), DayOrZero)
  {
    if day <= maxDay {
      var items := DayItems(numeric, day, minDay, maxDay);
      var rest := Walk(numeric, day + 1, minDay, maxDay);
      DayItemsShape(numeric, day, minDay, maxDay);
      WalkSorted(numeric, day + 1, minDay, maxDay);
      SortedAppend(items, rest, DayOrZero);
    }
  }

  /** Every column of the walk is a dated column or a synthetic session column. */
  lemma {:induction false} WalkFrom(numeric: seq<Entry>, day: int, minDay: int, maxDay: int)
    decreases maxDay + 1 - day
    ensures forall e :: e in Walk(numeric, day, minDay, maxDay) ==> e in numeric || (e.LevelEntry? && !IsStored(e))
  {
    if day <= maxDay {
      DayItemsShape(numeric, day, minDay, maxDay);
      FilterMembers(numeric, EntryOnDay(day));
      WalkFrom(numeric, day + 1, minDay, maxDay);
    }
  }

  /** In a sequence sorted by day, the columns from day k on are those of day k, then those from
      day k + 1 on. */
  lemma {:induction false} SplitAtDay(s: seq<Entry>, k: int)
    requires SortedBy(s, DayOrZero)
    ensures Filter(s, AtLeast(k)) == Filter(s, EntryOnDay(k)) + Filter(s, AtLeast(k + 1))
  {
    if s != [] {
      if DayOrZero(s[0]) > k {
        SplitAbove(s, k);
      } else {
        assert SortedBy(s[1..], DayOrZero);
        SplitAtDay(s[1..], k);
        SplitHead(s, k);
      }
    }
  }

  /** A sorted sequence starting after day k has nothing on day k. */
  lemma SplitAbove(s: seq<Entry>, k: int)
    requires SortedBy(s, DayOrZero) && s != [] && DayOrZero(s[0]) > k
    ensures Filter(s, EntryOnDay(k)) == [] && Filter(s, AtLeast(k)) == Filter(s, AtLeast(k + 1))
  {
    assert forall e :: e in s ==> DayOrZero(e) > k by {
      forall e | e in s ensures DayOrZero(e) > k {
        var i :| 0 <= i < |s| && s[i] == e;
        assert i == 0 || DayOrZero(s[0]) <= DayOrZero(s[i]);
      }
    }
    FilterNone(s, EntryOnDay(k));
    FilterSame(s, AtLeast(k), AtLeast(k + 1));
  }

  /** The split of the tail extends to a head on day k or before. */
  lemma SplitHead(s: seq<Entry>, k: int)
    requires s != [] && DayOrZero(s[0]) <= k
    requires Filter(s[1..], AtLeast(k)) == Filter(s[1..], EntryOnDay(k)) + Filter(s[1..], AtLeast(k + 1))
    ensures Filter(s, AtLeast(k)) == Filter(s, EntryOnDay(k)) + Filter(s, AtLeast(k + 1))
  {
    FilterSplitCons(s, AtLeast(k), EntryOnDay(k), AtLeast(k + 1));
  }

  /** When every dated column is stored, the stored columns a day pushes are that day's columns. */
  lemma DayItemsStored(numeric: seq<Entry>, day: int, minDay: int, maxDay: int)
    requires forall e :: e in numeric ==> IsStored(e)
    ensures Filter(DayItems(numeric, day, minDay, maxDay), IsStored) == DayEntries(numeric, day)
  {
    var items := DayItems(numeric, day, minDay, maxDay);
    var here := DayEntries(numeric, day);
    DayItemsShape(numeric, day, minDay, maxDay);
    FilterMembers(numeric, EntryOnDay(day));
    if here != [] {
      FilterKeepsAll(here, IsStored);
    } else {
      FilterNone(items, IsStored);
    }
  }

  /** The stored columns of the walk are the dated columns, in the sorted order. */
  lemma {:induction false} WalkStored(numeric: seq<Entry>, day: int, minDay: int, maxDay: int)
    requires SortedBy(numeric, DayOrZero)
    requires forall e :: e in numeric ==> IsStored(e)
    requires forall e :: e in numeric ==> DayOrZero(e) <= maxDay
    decreases maxDay + 1 - day
    ensures Filter(Walk(numeric, day, minDay, maxDay), IsStored) == Filter(numeric, AtLeast(day))
  {
    if day > maxDay {
      FilterNone(numeric, AtLeast(day));
    } else {
      var items := DayItems(numeric, day, minDay, maxDay);
      var rest := Walk(numeric, day + 1, minDay, maxDay);
      assert Walk(numeric, day, minDay, maxDay) == items + rest;
      DayItemsStored(numeric, day, minDay, maxDay);
      WalkStored(numeric, day + 1, minDay, maxDay);
      FilterConcat(items, rest, IsStored);
      SplitAtDay(numeric, day);
    }
  }

  /** Every day of a sequence sorted by day lies between its `minDay` and its `maxDay`. */
  lemma DayBounds(numeric: seq<Entry>)
    requires SortedBy(numeric, DayOrZero)
    ensures forall e :: e in numeric ==> MinDay(numeric) <= DayOrZero(e) <= MaxDay(numeric)
  {
    forall e | e in numeric ensures MinDay(numeric) <= DayOrZero(e) <= MaxDay(numeric) {
      var i :| 0 <= i < |numeric| && numeric[i] == e;
      assert DayOrZero(numeric[0]) <= DayOrZero(numeric[i]);
      assert DayOrZero(numeric[i]) <= DayOrZero(numeric[|numeric| - 1]);
    }
  }

  /** One step of the walk */
  lemma WalkStep(numeric: seq<Entry>, day: int, minDay: int, maxDay: int)
    requires day <= maxDay
    ensures Walk(numeric, day, minDay, maxDay) == DayItems(numeric, day, minDay, maxDay) + Walk(numeric, day + 1, minDay, maxDay)
  {
  }

  /** Every stored column, level or purchase event, appears exactly once in "all" mode; the dated
      ones come first, in the comparator's order. */
  lemma AllModeKeepsEveryColumn(levelCols: seq<Entry>, purchaseCols: seq<Entry>)
    requires forall e :: e in levelCols + purchaseCols ==> IsStored(e)
    ensures var all := levelCols + purchaseCols;
      var numeric := Numeric(all);
      var walk := Walk(numeric, MinDay(numeric), MinDay(numeric), MaxDay(numeric));
      Filter(walk, IsStored) == numeric &&
      AllModeColumns(levelCols, purchaseCols) == walk + Filter(all, NoDay) &&
      multiset(Filter(AllModeColumns(levelCols, purchaseCols), IsStored)) == multiset(all)
  {
    var all := levelCols + purchaseCols;
    var numeric := Numeric(all);
    var minDay, maxDay := MinDay(numeric), MaxDay(numeric);
    var walk := Walk(numeric, minDay, minDay, maxDay);
    NumericFacts(all);
    DayBounds(numeric);
    WalkStored(numeric, minDay, minDay, maxDay);
    FilterKeepsAll(numeric, AtLeast(minDay));
    FilterMembers(all, NoDay);
    FilterKeepsAll(Filter(all, NoDay), IsStored);
    FilterConcat(walk, Filter(all, NoDay), IsStored);
    FilterPartition(all, HasDay, NoDay);
  }

  /** The page as written loses a purchase event without a day whenever a dated level has the
      same id; with the undated columns picked by their missing day it is kept. */
  lemma AsWrittenDropsPurchase()
    ensures var level := LevelEntry(Num(1), "a", "L", Some(0), Some(10), false, false);
      var purchase := PurchaseEntry(Num(1), "p", PURCHASE_NAME, None, Some(0), None, None);
      purchase !in AllModeColumnsAsWritten([level], [purchase]) &&
      purchase in AllModeColumns([level], [purchase])
  {
    var level := LevelEntry(Num(1), "a", "L", Some(0), Some(10), false, false);
    var purchase := PurchaseEntry(Num(1), "p", PURCHASE_NAME, None, Some(0), None, None);
    DroppedAsWritten(level, purchase);
    KeptWithoutDay(level, purchase);
  }

  /** A dated level followed by an undated column: the level is the only dated column. */
  lemma PairFilters(level: Entry, other: Entry)
    requires HasDay(level) && NoDay(other)
    ensures Numeric([level] + [other]) == [level]
    ensures Filter([level] + [other], NoDay) == [other]
  {
    var all := [level] + [other];
    assert all[1..] == [other];
    assert Filter(all, HasDay) == [level];
    NumericFacts(all);
    assert |Numeric(all)| == 1 && level in Numeric(all);
  }

  lemma DroppedAsWritten(level: Entry, purchase: Entry)
    requires level.LevelEntry? && HasDay(level) && purchase.PurchaseEntry? && NoDay(purchase)
    requires level.id == purchase.id
    ensures purchase !in AllModeColumnsAsWritten([level], [purchase])
  {
    var all := [level] + [purchase];
    PairFilters(level, purchase);
    assert NumericIds([level]) == {level.id};
    assert Filter(all, OutsideIds({level.id})) == [] by {
      assert all[1..] == [purchase];
    }
    WalkFrom([level], MinDay([level]), MinDay([level]), MaxDay([level]));
  }

  lemma KeptWithoutDay(level: Entry, purchase: Entry)
    requires HasDay(level) && NoDay(purchase)
    ensures purchase in AllModeColumns([level], [purchase])
  {
    PairFilters(level, purchase);
  }

  /** `entriesByDay` matches the dated columns of each day */
  ghost predicate ByDayMatches(byDay: map<int, seq<Entry>>, numeric: seq<Entry>) {
    forall d :: (d in byDay <==> DayEntries(numeric, d) != []) && (d in byDay ==> byDay[d] == DayEntries(numeric, d))
  }

  /** `numeric.forEach(entry => entriesByDay[day].push(entry))` */
  method GroupByDay(numeric: seq<Entry>) returns (byDay: map<int, seq<Entry>>)
    ensures ByDayMatches(byDay, numeric)
  {
    byDay := map[];
    var i := 0;
    while i < |numeric|
      invariant 0 <= i <= |numeric|
      invariant ByDayMatches(byDay, numeric[..i])
    {
      var entry := numeric[i];
      var day := DayOrZero(entry);
      if day !in byDay {
        byDay := byDay[day := []];
      }
      byDay := byDay[day := byDay[day] + [entry]];
      assert numeric[..i + 1] == numeric[..i] + [entry];
      forall d: int
        ensures DayEntries(numeric[..i + 1], d) == DayEntries(numeric[..i], d) + (if DayOrZero(entry) == d then [entry] else [])
      {
        FilterSnoc(numeric[..i], entry, EntryOnDay(d));
      }
      i := i + 1;
    }
    assert numeric[..i] == numeric;
  }

  /** The scan for `nextRealLevel` over the days after `day` */
  method FindNextReal(byDay: map<int, seq<Entry>>, ghost numeric: seq<Entry>, day: int, maxDay: int)
    returns (next: Option<Entry>)
    requires ByDayMatches(byDay, numeric)
    ensures next == NextRealFrom(numeric, day + 1, maxDay)
  {
    var d := day + 1;
    while d <= maxDay
      invariant NextRealFrom(numeric, day + 1, maxDay) == NextRealFrom(numeric, d, maxDay)
      decreases maxDay - d
    {
      if d in byDay {
        var reals := Filter(byDay[d], IsRealLevel);
        if reals != [] {
          return Some(reals[0]);
        }
      }
      d := d + 1;
    }
    return None;
  }

  /** The scan for `prevRealLevel` over the days before `day` */
  method FindPrevReal(byDay: map<int, seq<Entry>>, ghost numeric: seq<Entry>, day: int, minDay: int)
    returns (prev: Option<Entry>)
    requires ByDayMatches(byDay, numeric)
    ensures prev == PrevRealFrom(numeric, day - 1, minDay)
  {
    var d := day - 1;
    while d >= minDay
      invariant PrevRealFrom(numeric, day - 1, minDay) == PrevRealFrom(numeric, d, minDay)
      decreases d - minDay
    {
      if d in byDay {
        var reals := Filter(byDay[d], IsRealLevel);
        if reals != [] {
          return Some(reals[|reals| - 1]);
        }
      }
      d := d - 1;
    }
    return None;
  }

  /** One day of the walk */
  method ComputeDayItems(byDay: map<int, seq<Entry>>, numeric: seq<Entry>, day: int, minDay: int, maxDay: int)
    returns (items: seq<Entry>)
    requires ByDayMatches(byDay, numeric)
    ensures items == DayItems(numeric, day, minDay, maxDay)
  {
    if day in byDay {
      return byDay[day];
    }
    var next := FindNextReal(byDay, numeric, day, maxDay);
    var synthesizedTime: Option<int> := None;
    var token := "";
    if next.Some? {
      var first := FirstRealDay(numeric);
      var t := next.value.time.GetOr(0);
      if day < first {
        synthesizedTime := if first + 1 == 0 then None else Some(RoundDiv((day + 1) * t, first + 1));
        token := next.value.token;
      } else {
        var prev := FindPrevReal(byDay, numeric, day, minDay);
        if prev.Some? {
          synthesizedTime := Some(GapFill.Interpolate(prev.value.time.GetOr(0), DayOrZero(prev.value), t, DayOrZero(next.value), day));
        } else {
          synthesizedTime := Some(RoundDiv(t, 2));
        }
        token := next.value.token;
      }
    }
    if token != "" {
      items := [SynthEntry(token, day, synthesizedTime)];
    } else {
      items := [];
    }
  }

  lemma WalkAppend(result: seq<Entry>, numeric: seq<Entry>, day: int, minDay: int, maxDay: int, whole: seq<Entry>)
    requires day <= maxDay
    requires result + Walk(numeric, day, minDay, maxDay) == whole
    ensures (result + DayItems(numeric, day, minDay, maxDay)) + Walk(numeric, day + 1, minDay, maxDay) == whole
  {
    var items := DayItems(numeric, day, minDay, maxDay);
    var rest := Walk(numeric, day + 1, minDay, maxDay);
    WalkStep(numeric, day, minDay, maxDay);
    assert (result + items) + rest == result + (items + rest);
  }

  /** The day loop of the "all" mode memo */
  method WalkDays(byDay: map<int, seq<Entry>>, numeric: seq<Entry>, minDay: int, maxDay: int)
    returns (result: seq<Entry>)
    requires ByDayMatches(byDay, numeric)
    ensures result == Walk(numeric, minDay, minDay, maxDay)
  {
    result := [];
    var day := minDay;
    ghost var whole := Walk(numeric, minDay, minDay, maxDay);
    while day <= maxDay
      invariant result + Walk(numeric, day, minDay, maxDay) == whole
      decreases maxDay - day
    {
      var items := ComputeDayItems(byDay, numeric, day, minDay, maxDay);
      WalkAppend(result, numeric, day, minDay, maxDay, whole);
      result := result + items;
      day := day + 1;
    }
    assert Walk(numeric, day, minDay, maxDay) == [];
  }

  /** The "all" mode memo: sort, group by day, walk the days, then add the undated columns */
  method ComputeAllModeColumns(levelCols: seq<Entry>, purchaseCols: seq<Entry>) returns (result: seq<Entry>)
    ensures result == AllModeColumns(levelCols, purchaseCols)
  {
    var all := levelCols + purchaseCols;
    var numeric := Numeric(all);
    var byDay := GroupByDay(numeric);
    var minDay := if |numeric| > 0 then DayOrZero(numeric[0]) else 0;
    var maxDay := if |numeric| > 0 then DayOrZero(numeric[|numeric| - 1]) else 0;
    if |numeric| > 0 && minDay > 0 {
      minDay := 0;
    }
    var walk := WalkDays(byDay, numeric, minDay, maxDay);
    result := walk + Filter(all, NoDay);
  }
}
