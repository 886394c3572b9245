// The columns of a game's detail page: one per level, then one per purchase event; in "all"
// mode the levels are gap-filled by day.

module GameDetailPage {
  import opened Options
  import opened JsText
  import opened Lists
  import opened GapFill
  import Catalog

  datatype Column =
    | LevelColumn(row: Row)
    | PurchaseColumn(id: int, token: string, name: string, dayText: Option<string>,
                     isRestricted: bool, synthetic: bool)

  /** A level's column in `baseColumns` */
  function LevelRow(l: Catalog.Level): Row {
    Row(Real(l.id), l.eventToken, l.levelName, l.daysOffset, l.timeSpent, l.isBonus, false)
  }

  function LevelRows(levels: seq<Catalog.Level>): (rows: seq<Row>)
    ensures |rows| == |levels|
    ensures forall i :: 0 <= i < |levels| ==> rows[i] == LevelRow(levels[i])
  {
    seq(|levels|, i requires 0 <= i < |levels| => LevelRow(levels[i]))
  }

  /** A purchase event's column: named "$$$", its day shown as `<lessThan> <max_days_offset>` */
  function PurchaseColumnOf(p: Catalog.PurchaseEvent, lessThan: string): Column {
    var dayText := if p.maxDaysOffset.Some? then Some(lessThan + " " + IntToString(p.maxDaysOffset.value)) else None;
    PurchaseColumn(p.id, p.eventToken, Catalog.PURCHASE_NAME, dayText, p.isRestricted.GetOr(false), false)
  }

  function PurchaseColumns(events: seq<Catalog.PurchaseEvent>, lessThan: string): (cols: seq<Column>)
    ensures |cols| == |events|
    ensures forall j :: 0 <= j < |events| ==> cols[j] == PurchaseColumnOf(events[j], lessThan)
  {
    seq(|events|, j requires 0 <= j < |events| => PurchaseColumnOf(events[j], lessThan))
  }

  function Wrap(rows: seq<Row>): (cols: seq<Column>)
    ensures |cols| == |rows|
    ensures forall k :: 0 <= k < |rows| ==> cols[k] == LevelColumn(rows[k])
  {
    seq(|rows|, k requires 0 <= k < |rows| => LevelColumn(rows[k]))
  }

  /** `baseColumns`: the levels' columns, then the purchase events' */
  function BaseColumns(levels: seq<Catalog.Level>, events: seq<Catalog.PurchaseEvent>, lessThan: string): seq<Column> {
    Wrap(LevelRows(levels)) + PurchaseColumns(events, lessThan)
  }

  /** `columns`: the base columns in event-only mode; in "all" mode the gap-filled levels, then
      the purchase events */
  function Columns(mode: ViewMode, levels: seq<Catalog.Level>, events: seq<Catalog.PurchaseEvent>,
                   lessThan: string): seq<Column> {
    match mode
    case EventOnly => BaseColumns(levels, events, lessThan)
    case All => Wrap(FillAll(LevelRows(levels))) + PurchaseColumns(events, lessThan)
  }

  /** What the page computes for its table */
  method ComputeColumns(mode: ViewMode, levels: seq<Catalog.Level>, events: seq<Catalog.PurchaseEvent>,
                        lessThan: string) returns (cols: seq<Column>)
    ensures cols == Columns(mode, levels, events, lessThan)
  {
    var base := BaseColumns(levels, events, lessThan);
    if mode == EventOnly {
      return base;
    }
    var levelCols := LevelRows(levels);
    var result := FillAllColumns(levelCols);
    assert base[|levels|..] == PurchaseColumns(events, lessThan);
    cols := Wrap(result) + base[|levels|..];
  }

  predicate DistinctLevelIds(levels: seq<Catalog.Level>) {
    forall i, j :: 0 <= i < j < |levels| ==> levels[i].id != levels[j].id
  }

  /** A purchase column's day label carries the event's maximum day, which reads back as a number
      after the label and one space; without a maximum there is no label. */
  lemma PurchaseLabel(p: Catalog.PurchaseEvent, lessThan: string)
    ensures var c := PurchaseColumnOf(p, lessThan);
      c.name == Catalog.PURCHASE_NAME && !c.synthetic &&
      c.isRestricted == (p.isRestricted == Some(true)) &&
      (c.dayText.Some? <==> p.maxDaysOffset.Some?) &&
      (c.dayText.Some? ==>
         |lessThan| < |c.dayText.value| && c.dayText.value[..|lessThan| + 1] == lessThan + " " &&
         ParseInt(c.dayText.value[|lessThan| + 1..]) == Some(p.maxDaysOffset.value))
  {
    var c := PurchaseColumnOf(p, lessThan);
    if p.maxDaysOffset.Some? {
      var m := p.maxDaysOffset.value;
      IntToStringParses(m);
      assert c.dayText.value == (lessThan + " ") + IntToString(m);
      assert c.dayText.value[|lessThan| + 1..] == IntToString(m);
    }
  }

  /** Event-only mode: every level and every purchase event once, levels first, none synthetic */
  lemma EventOnlyColumns(levels: seq<Catalog.Level>, events: seq<Catalog.PurchaseEvent>, lessThan: string)
    ensures var cols := Columns(EventOnly, levels, events, lessThan);
      |cols| == |levels| + |events| &&
      (forall i :: 0 <= i < |levels| ==> cols[i].LevelColumn? && cols[i].row.id == Real(levels[i].id)) &&
      (forall j :: 0 <= j < |events| ==> cols[|levels| + j].PurchaseColumn? && cols[|levels| + j].id == events[j].id) &&
      (forall c :: c in cols ==> !(if c.LevelColumn? then c.row.synthetic else c.synthetic))
  {
  }

  /** "All" mode: the levels' part is the gap filling of the levels (sorted by day, every day from
      the first to the last present, each level once), followed by all purchase events in order. */
  lemma AllModeColumns(levels: seq<Catalog.Level>, events: seq<Catalog.PurchaseEvent>, lessThan: string)
    requires DistinctLevelIds(levels)
    ensures var cols := Columns(All, levels, events, lessThan);
      var rows := LevelRows(levels);
      var n := |cols| - |events|;
      |cols| == |levels| + |events| + GapTotal(NumericSorted(rows)) &&
      cols[n..] == PurchaseColumns(events, lessThan) &&
      (forall k :: 0 <= k < n ==> cols[k].LevelColumn? && cols[k].row == FillAll(rows)[k]) &&
      multiset(Filter(FillAll(rows), IsReal)) == multiset(rows)
  {
    var rows := LevelRows(levels);
    LevelRowsDistinct(levels);
    FillAllShape(rows);
    WrapThen(FillAll(rows), PurchaseColumns(events, lessThan));
  }

  lemma LevelRowsDistinct(levels: seq<Catalog.Level>)
    requires DistinctLevelIds(levels)
    ensures DistinctIds(LevelRows(levels)) && AllReal(LevelRows(levels))
  {
    var rows := LevelRows(levels);
    forall i, j | 0 <= i < j < |rows| ensures rows[i].id != rows[j].id {
      assert levels[i].id != levels[j].id;
    }
  }

  /** Level columns wrapped from rows, then other columns */
  lemma WrapThen(rows: seq<Row>, rest: seq<Column>)
    ensures var cols := Wrap(rows) + rest;
      |cols| == |rows| + |rest| && cols[|rows|..] == rest &&
      forall k :: 0 <= k < |rows| ==> cols[k].LevelColumn? && cols[k].row == rows[k]
  {
  }
}
