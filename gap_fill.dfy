// The gap filling shared by the game detail page and the level list page in "all" mode: the
// level columns with a numeric day are sorted by day, every day missing between two neighbours
// gets a synthetic session column whose time is interpolated between theirs, and the columns
// without a numeric day follow.

module GapFill {
  import opened Options
  import opened Lists
  import opened JsMath
  import Catalog

  /** The pages' display mode: the levels as stored, or with every missing day filled in */
  datatype ViewMode = EventOnly | All

  /** A column id: a level's own id, or `synth-<left id>-<day>` for a synthesized day */
  datatype EntryId = Real(id: int) | Synth(leftId: EntryId, day: int)

  /** One level column; `day` and `time` are null unless the level's field is a number */
  datatype Row = Row(id: EntryId, token: string, name: string, day: Option<int>, time: Option<int>,
                     isBonus: bool, synthetic: bool)

  predicate HasDay(r: Row) { r.day.Some? }

  predicate NoDay(r: Row) { r.day.None? }

  predicate IsReal(r: Row) { r.id.Real? }

  /** The sort key `a.daysOffset - b.daysOffset`, only ever applied to numeric days */
  function DayOf(r: Row): int { r.day.GetOr(0) }

  predicate AllDays(rs: seq<Row>) { forall r :: r in rs ==> HasDay(r) }

  predicate AllReal(rs: seq<Row>) { forall r :: r in rs ==> IsReal(r) }

  /** Level ids come from one table, so no two columns share one. */
  predicate DistinctIds(rs: seq<Row>) {
    forall i, j :: 0 <= i < j < |rs| ==> rs[i].id != rs[j].id
  }

  predicate Between(x: int, a: int, b: int) { a <= x <= b || b <= x <= a }

  /** `Math.round(interpolateTime(leftT, leftD, rightT, rightD, day))` in exact arithmetic: the
      integer `leftT` moves out of the rounding unchanged */
  function Interpolate(leftT: int, leftD: int, rightT: int, rightD: int, day: int): int {
    if rightD == leftD then leftT
    else leftT + RoundDiv((day - leftD) * (rightT - leftT), rightD - leftD)
  }

  /** The interpolation meets both neighbours' times at their days. */
  lemma InterpolateEnds(leftT: int, leftD: int, rightT: int, rightD: int)
    requires leftD < rightD
    ensures Interpolate(leftT, leftD, rightT, rightD, leftD) == leftT
    ensures Interpolate(leftT, leftD, rightT, rightD, rightD) == rightT
  {
    var q := rightD - leftD;
    RoundDivExact(0, q);
    assert (leftD - leftD) * (rightT - leftT) == 0 * q;
    RoundDivExact(rightT - leftT, q);
    assert (rightD - leftD) * (rightT - leftT) == (rightT - leftT) * q;
  }

  /** Between the neighbours' days the time stays between their times. */
  lemma InterpolateBetween(leftT: int, leftD: int, rightT: int, rightD: int, day: int)
    requires leftD < rightD && leftD <= day <= rightD
    ensures Between(Interpolate(leftT, leftD, rightT, rightD, day), leftT, rightT)
  {
    var q, a, c := rightD - leftD, day - leftD, rightT - leftT;
    if c >= 0 {
      MulMono(c, 0, a);
      MulMono(c, a, q);
      assert q * 0 <= a * c <= q * c;
      RoundDivBetween(a * c, q, 0, c);
    } else {
      MulMono(-c, 0, a);
      MulMono(-c, a, q);
      assert q * c <= a * c <= q * 0;
      RoundDivBetween(a * c, q, c, 0);
    }
  }

  /** The column synthesized for day `d` between `left` and `right` */
  function Synthetic(left: Row, right: Row, d: int): Row
    requires HasDay(left) && HasDay(right)
  {
    var time := if left.time.Some? && right.time.Some? then
        Some(Interpolate(left.time.value, left.day.value, right.time.value, right.day.value, d))
      else None;
    Row(Synth(left.id, d), right.token, Catalog.SESSION_NAME, Some(d), time, false, true)
  }

  /** The synthetic columns for the days strictly between two neighbours */
  function Gap(left: Row, right: Row): (g: seq<Row>)
    requires HasDay(left) && HasDay(right)
    ensures |g| == Max(0, right.day.value - left.day.value - 1)
  {
    if right.day.value > left.day.value + 1 then
      seq(right.day.value - left.day.value - 1, j requires 0 <= j => Synthetic(left, right, left.day.value + 1 + j))
    else []
  }

  /** What a synthetic column is: a session column ("-") of the right neighbour's event, not a
      bonus, one per missing day in increasing order, timed only when both neighbours are */
  lemma GapShape(left: Row, right: Row)
    requires HasDay(left) && HasDay(right)
    ensures forall j :: 0 <= j < |Gap(left, right)| ==> Gap(left, right)[j].day == Some(left.day.value + 1 + j)
    ensures forall r :: r in Gap(left, right) ==>
      r.synthetic && !IsReal(r) && HasDay(r) && r.token == right.token &&
      r.name == Catalog.SESSION_NAME && !r.isBonus &&
      left.day.value < DayOf(r) < right.day.value &&
      (r.time.Some? <==> left.time.Some? && right.time.Some?)
    ensures left.time.Some? && right.time.Some? ==>
      forall r :: r in Gap(left, right) ==> Between(r.time.value, left.time.value, right.time.value)
  {
    var g := Gap(left, right);
    forall j | 0 <= j < |g| ensures g[j].day == Some(left.day.value + 1 + j) {
      assert g[j] == Synthetic(left, right, left.day.value + 1 + j);
    }
    forall r | r in g
      ensures r.synthetic && !IsReal(r) && HasDay(r) && r.token == right.token &&
        r.name == Catalog.SESSION_NAME && !r.isBonus &&
        left.day.value < DayOf(r) < right.day.value &&
        (r.time.Some? <==> left.time.Some? && right.time.Some?)
      ensures left.time.Some? && right.time.Some? ==>
        r.time.Some? && Between(r.time.value, left.time.value, right.time.value)
    {
      var j :| 0 <= j < |g| && g[j] == r;
      var d := left.day.value + 1 + j;
      assert r == Synthetic(left, right, d);
      if left.time.Some? && right.time.Some? {
        InterpolateBetween(left.time.value, left.day.value, right.time.value, right.day.value, d);
      }
    }
  }

  /** How many days the gap filling adds: the missing days between each pair of neighbours */
  function GapTotal(ns: seq<Row>): nat {
    if |ns| < 2 then 0 else Max(0, DayOf(ns[1]) - DayOf(ns[0]) - 1) + GapTotal(ns[1..])
  }

  /** The sorted numeric columns, each followed by the synthetic columns up to its right
      neighbour */
  function Filled(ns: seq<Row>): (r: seq<Row>)
    requires AllDays(ns)
    ensures |r| == |ns| + GapTotal(ns)
  {
    if ns == [] then []
    else [ns[0]] + (if |ns| > 1 then Gap(ns[0], ns[1]) else []) + Filled(ns[1..])
  }

  /** Gap filling keeps the order by day, and stays within the first and last days. */
  lemma {:induction false} FilledSorted(ns: seq<Row>)
    requires AllDays(ns) && SortedBy(ns, DayOf)
    ensures SortedBy(Filled(ns), DayOf)
    ensures ns != [] ==> forall r :: r in Filled(ns) ==> DayOf(ns[0]) <= DayOf(r) <= DayOf(ns[|ns| - 1])
  {
    if |ns| == 1 {
      assert Filled(ns) == [ns[0]];
    } else if |ns| > 1 {
      var rest := ns[1..];
      FilledSorted(rest);
      var g := Gap(ns[0], ns[1]);
      GapShape(ns[0], ns[1]);
      assert Filled(ns) == [ns[0]] + g + Filled(rest);
      assert DayOf(ns[0]) <= DayOf(ns[1]) <= DayOf(ns[|ns| - 1]);
      assert SortedBy(g, DayOf);
      SortedAppend([ns[0]], g, DayOf);
      SortedAppend([ns[0]] + g, Filled(rest), DayOf);
    }
  }

  /** The days present after gap filling */
  function Days(rs: seq<Row>): set<int> {
    set r | r in rs :: DayOf(r)
  }

  /** After gap filling every day from the first to the last level's day has a column. */
  lemma {:induction false} FilledDays(ns: seq<Row>)
    requires AllDays(ns) && SortedBy(ns, DayOf) && ns != []
    ensures forall d :: d in Days(Filled(ns)) <==> DayOf(ns[0]) <= d <= DayOf(ns[|ns| - 1])
  {
    FilledSorted(ns);
    var f := Filled(ns);
    var lo, hi := DayOf(ns[0]), DayOf(ns[|ns| - 1]);
    if |ns| == 1 {
      assert f == [ns[0]];
    } else {
      var rest := ns[1..];
      FilledDays(rest);
      var g := Gap(ns[0], ns[1]);
      GapShape(ns[0], ns[1]);
      assert f == [ns[0]] + g + Filled(rest);
      forall d | lo <= d <= hi ensures d in Days(f) {
        if d == lo {
          assert ns[0] in f;
        } else if d < DayOf(ns[1]) {
          var r := g[d - lo - 1];
          assert r in f && DayOf(r) == d;
        } else {
          assert d in Days(Filled(rest));
          var r :| r in Filled(rest) && DayOf(r) == d;
          assert r in f;
        }
      }
    }
  }

  /** Gap filling adds only synthetic columns: the real ones are the input, in order. */
  lemma {:induction false} FilledReal(ns: seq<Row>)
    requires AllDays(ns) && AllReal(ns)
    ensures Filter(Filled(ns), IsReal) == ns
  {
    if ns != [] {
      var g := if |ns| > 1 then Gap(ns[0], ns[1]) else [];
      if |ns| > 1 {
        GapShape(ns[0], ns[1]);
      }
      FilterNone(g, IsReal);
      FilledReal(ns[1..]);
      FilterConcat([ns[0]] + g, Filled(ns[1..]), IsReal);
      FilterConcat([ns[0]], g, IsReal);
      assert ns == [ns[0]] + ns[1..];
    }
  }

  /** A column that gap filling adds is a synthetic session column carrying the token of one
      of the numeric columns. */
  predicate Borrowed(r: Row, from: seq<Row>) {
    !IsReal(r) && r.synthetic && r.name == Catalog.SESSION_NAME && !r.isBonus &&
    exists x :: x in from && x.token == r.token
  }

  /** Gap filling invents nothing else: every column is an input column or a borrowed one. */
  lemma {:induction false} FilledFrom(ns: seq<Row>)
    requires AllDays(ns)
    ensures forall r :: r in Filled(ns) ==> r in ns || Borrowed(r, ns)
  {
    if ns != [] {
      FilledFrom(ns[1..]);
      var g := if |ns| > 1 then Gap(ns[0], ns[1]) else [];
      if |ns| > 1 {
        GapShape(ns[0], ns[1]);
        assert ns[1] in ns;
      }
      assert Filled(ns) == [ns[0]] + g + Filled(ns[1..]);
      forall r | r in Filled(ns) ensures r in ns || Borrowed(r, ns) {
        if r in Filled(ns[1..]) && !(r in ns[1..]) {
          var x :| x in ns[1..] && x.token == r.token;
          assert x in ns;
        }
      }
    }
  }

  /** The gap-filling loop: pushes each numeric column and then its gap */
  method FillGaps(numeric: seq<Row>) returns (result: seq<Row>)
    requires AllDays(numeric)
    ensures result == Filled(numeric)
  {
    result := [];
    var i := 0;
    assert numeric[i..] == numeric;
    while i < |numeric|
      invariant 0 <= i <= |numeric|
      invariant AllDays(numeric[i..])
      invariant result + Filled(numeric[i..]) == Filled(numeric)
    {
      var left := numeric[i];
      var gap := [];
      if i + 1 < |numeric| {
        gap := FillGap(left, numeric[i + 1]);
      }
      ghost var rest := numeric[i..];
      assert rest[0] == left && rest[1..] == numeric[i + 1..];
      assert |rest| > 1 ==> rest[1] == numeric[i + 1];
      FilledStep(rest, result, gap, Filled(numeric));
      result := result + ([left] + gap);
      i := i + 1;
    }
    assert numeric[i..] == [];
  }

  /** One step of the loop: the first column of the rest and its gap move to the result. */
  lemma FilledStep(ms: seq<Row>, done: seq<Row>, gap: seq<Row>, total: seq<Row>)
    requires AllDays(ms) && ms != []
    requires done + Filled(ms) == total
    requires gap == if |ms| > 1 then Gap(ms[0], ms[1]) else []
    ensures AllDays(ms[1..])
    ensures done + ([ms[0]] + gap) + Filled(ms[1..]) == total
  {
    FilledHead(ms);
    MoveHead(done, Filled(ms), [ms[0]] + gap, Filled(ms[1..]), total);
  }

  lemma MoveHead<T>(done: seq<T>, todo: seq<T>, head: seq<T>, rest: seq<T>, total: seq<T>)
    requires done + todo == total && todo == head + rest
    ensures done + head + rest == total
  {
  }

  /** Filled's first step, with the rest still day-carrying */
  lemma FilledHead(ms: seq<Row>)
    requires AllDays(ms) && ms != []
    ensures AllDays(ms[1..])
    ensures Filled(ms) == [ms[0]] + (if |ms| > 1 then Gap(ms[0], ms[1]) else []) + Filled(ms[1..])
  {
  }

  /** The inner loop over the missing days `left.day + 1 .. right.day - 1` */
  method FillGap(left: Row, right: Row) returns (gap: seq<Row>)
    requires HasDay(left) && HasDay(right)
    ensures gap == Gap(left, right)
  {
    gap := [];
    if right.day.value > left.day.value + 1 {
      var d := left.day.value + 1;
      while d <= right.day.value - 1
        invariant left.day.value + 1 <= d <= right.day.value
        invariant gap == Gap(left, right)[..d - left.day.value - 1]
      {
        gap := gap + [Synthetic(left, right, d)];
        d := d + 1;
      }
      assert gap == Gap(left, right)[..|Gap(left, right)|];
    }
  }

  /** `numeric.sort((a, b) => a.daysOffset - b.daysOffset)`: the numeric columns, stably by day */
  function NumericSorted(rows: seq<Row>): (ns: seq<Row>)
    ensures AllDays(ns) && SortedBy(ns, DayOf)
    ensures multiset(ns) == multiset(Filter(rows, HasDay))
  {
    var numeric := Filter(rows, HasDay);
    FilterMembers(rows, HasDay);
    SortBySorted(numeric, DayOf);
    var ns := SortBy(numeric, DayOf);
    assert forall r :: r in ns ==> r in multiset(numeric);
    ns
  }

  /** `numericIds`: the ids of the numeric columns */
  function NumericIds(rows: seq<Row>): set<EntryId> {
    set r | r in rows && HasDay(r) :: r.id
  }

  /** `c => !numericIds.has(c.id)` */
  function Outside(ids: set<EntryId>): Row -> bool {
    (r: Row) => r.id !in ids
  }

  /** `levelCols.filter(c => !numericIds.has(c.id))` */
  function WithoutIds(rows: seq<Row>, ids: set<EntryId>): seq<Row> {
    Filter(rows, Outside(ids))
  }

  /** The columns of "all" mode: the gap-filled numeric columns, then the others */
  function FillAll(rows: seq<Row>): seq<Row> {
    Filled(NumericSorted(rows)) + WithoutIds(rows, NumericIds(rows))
  }

  /** With distinct ids, the id filter keeps exactly the columns without a numeric day. */
  lemma WithoutNumericIds(rows: seq<Row>)
    requires DistinctIds(rows)
    ensures WithoutIds(rows, NumericIds(rows)) == Filter(rows, NoDay)
  {
    var ids := NumericIds(rows);
    forall x | x in rows ensures (x.id !in ids) == NoDay(x) {
    }
    FilterSame(rows, Outside(ids), NoDay);
  }

  /** The shape of "all" mode: a run sorted by day covering every day from the smallest to the
      largest, then the columns without a day; no real column is lost or repeated */
  lemma FillAllShape(rows: seq<Row>)
    requires DistinctIds(rows) && AllReal(rows)
    ensures var n := |Filled(NumericSorted(rows))|;
      var all := FillAll(rows);
      n <= |all| &&
      SortedBy(all[..n], DayOf) &&
      (forall r :: r in all[n..] <==> r in rows && NoDay(r)) &&
      multiset(Filter(all, IsReal)) == multiset(rows) &&
      |all| == |rows| + GapTotal(NumericSorted(rows))
  {
    var ns := NumericSorted(rows);
    var f := Filled(ns);
    var all := FillAll(rows);
    FilledSorted(ns);
    WithoutNumericIds(rows);
    assert all[..|f|] == f && all[|f|..] == Filter(rows, NoDay);
    FilterMembers(rows, NoDay);
    assert forall r :: r in ns ==> r in multiset(Filter(rows, HasDay));
    FilterMembers(rows, HasDay);
    FilledReal(ns);
    FilterConcat(f, Filter(rows, NoDay), IsReal);
    assert forall r :: r in Filter(rows, NoDay) ==> IsReal(r);
    FilterKeepsAll(Filter(rows, NoDay), IsReal);
    FilterPartition(rows, HasDay, NoDay);
  }

  /** Every column of "all" mode is one of the input columns or a borrowed one. */
  lemma FillAllFrom(rows: seq<Row>)
    ensures forall r :: r in FillAll(rows) ==> r in rows || Borrowed(r, rows)
  {
    var ns := NumericSorted(rows);
    FilledFrom(ns);
    FilterMembers(rows, HasDay);
    FilterMembers(rows, Outside(NumericIds(rows)));
    assert forall x :: x in ns ==> x in multiset(Filter(rows, HasDay));
    forall r | r in FillAll(rows) ensures r in rows || Borrowed(r, rows) {
      if r in Filled(ns) && !(r in ns) {
        var x :| x in ns && x.token == r.token;
        assert x in rows;
      }
    }
  }

  /** When the levels have days, "all" mode covers every day between the first and the last. */
  lemma FillAllDays(rows: seq<Row>)
    requires Filter(rows, HasDay) != []
    ensures var ns := NumericSorted(rows);
      ns != [] &&
      forall d :: d in Days(Filled(ns)) <==> DayOf(ns[0]) <= d <= DayOf(ns[|ns| - 1])
  {
    var ns := NumericSorted(rows);
    assert Filter(rows, HasDay)[0] in multiset(ns);
    FilledDays(ns);
  }

  /** The "all" mode loop: gap filling, then the columns outside `numericIds` */
  method FillAllColumns(rows: seq<Row>) returns (result: seq<Row>)
    ensures result == FillAll(rows)
  {
    var numeric := NumericSorted(rows);
    result := FillGaps(numeric);
    result := PushOutside(result, rows, NumericIds(rows));
  }

  /** `nonNumeric.forEach(c => result.push(c))` */
  method PushOutside(start: seq<Row>, rows: seq<Row>, ids: set<EntryId>) returns (result: seq<Row>)
    ensures result == start + WithoutIds(rows, ids)
  {
    result := start;
    var i := 0;
    while i < |rows|
      invariant 0 <= i <= |rows|
      invariant result == start + WithoutIds(rows[..i], ids)
    {
      FilterSnoc(rows[..i], rows[i], Outside(ids));
      assert rows[..i + 1] == rows[..i] + [rows[i]];
      if rows[i].id !in ids {
        result := result + [rows[i]];
      }
      i := i + 1;
    }
    assert rows[..i] == rows;
  }
}
