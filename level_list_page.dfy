// The level list of a game: event-only mode hides the session entries, "all" mode shows the
// gap-filled levels; both show the event token only up to its first "_day".

module LevelListPage {
  import opened Options
  import opened JsText
  import opened Lists
  import opened GapFill
  import Catalog

  /** A row of the list, in the shape of a stored level */
  datatype LevelItem = LevelItem(id: EntryId, gameId: int, eventToken: string, levelName: string,
                                 daysOffset: Option<int>, timeSpent: Option<int>, isBonus: bool,
                                 synthetic: bool)

  /** `event_token.split('_day')[0]` */
  function EventPrefix(token: string): string {
    BeforeFirst(token, "_day")
  }

  predicate IsSession(l: Catalog.Level) { l.levelName == Catalog.SESSION_NAME }

  predicate NotSession(l: Catalog.Level) { l.levelName != Catalog.SESSION_NAME }

  /** Event-only mode: a level as stored, its token cut at "_day" */
  function EventOnlyItem(l: Catalog.Level): LevelItem {
    LevelItem(Real(l.id), l.gameId, EventPrefix(l.eventToken), l.levelName, l.daysOffset, l.timeSpent,
              l.isBonus, false)
  }

  function EventOnlyItems(levels: seq<Catalog.Level>): (items: seq<LevelItem>) {
    var kept := Filter(levels, NotSession);
    seq(|kept|, i requires 0 <= i < |kept| => EventOnlyItem(kept[i]))
  }

  /** "All" mode's column for a level: a stored session entry counts as synthetic */
  function ListRow(l: Catalog.Level): Row {
    Row(Real(l.id), EventPrefix(l.eventToken), l.levelName, l.daysOffset, l.timeSpent, l.isBonus,
        IsSession(l))
  }

  function ListRows(levels: seq<Catalog.Level>): (rows: seq<Row>)
    ensures |rows| == |levels|
    ensures forall i :: 0 <= i < |levels| ==> rows[i] == ListRow(levels[i])
  {
    seq(|levels|, i requires 0 <= i < |levels| => ListRow(levels[i]))
  }

  /** The conversion back to a level, with `game_id: selectedGameId || 0` */
  function ToItem(r: Row, gameId: int): LevelItem {
    LevelItem(r.id, gameId, r.token, r.name, r.day, r.time, r.isBonus, r.synthetic)
  }

  function ToItems(rows: seq<Row>, gameId: int): (items: seq<LevelItem>)
    ensures |items| == |rows|
    ensures forall k :: 0 <= k < |rows| ==> items[k] == ToItem(rows[k], gameId)
  {
    seq(|rows|, k requires 0 <= k < |rows| => ToItem(rows[k], gameId))
  }

  /** `filteredLevels` */
  function FilteredLevels(mode: ViewMode, levels: seq<Catalog.Level>, selectedGameId: Option<int>): seq<LevelItem> {
    match mode
    case EventOnly => EventOnlyItems(levels)
    case All => ToItems(FillAll(ListRows(levels)), selectedGameId.GetOr(0))
  }

  method ComputeFilteredLevels(mode: ViewMode, levels: seq<Catalog.Level>, selectedGameId: Option<int>)
    returns (items: seq<LevelItem>)
    ensures items == FilteredLevels(mode, levels, selectedGameId)
  {
    if mode == EventOnly {
      return EventOnlyItems(levels);
    }
    var levelCols := ListRows(levels);
    var result := FillAllColumns(levelCols);
    items := ToItems(result, selectedGameId.GetOr(0));
  }

  /** An event-only item is the level, not synthetic, with no "_day" left in its token, which is
      a prefix of the stored one. */
  lemma EventOnlyItemShape(l: Catalog.Level)
    ensures var item := EventOnlyItem(l);
      item.id == Real(l.id) && item.levelName == l.levelName && !item.synthetic &&
      !Includes(item.eventToken, "_day") && item.eventToken <= l.eventToken
  {
    var t := EventPrefix(l.eventToken);
    assert t == l.eventToken[..|t|];
  }

  /** Event-only mode lists exactly the levels not named "-", and nothing else. */
  lemma EventOnlyShape(levels: seq<Catalog.Level>)
    ensures var items := FilteredLevels(EventOnly, levels, None);
      (forall item :: item in items ==> item.levelName != Catalog.SESSION_NAME) &&
      (forall l :: l in levels ==>
         (NotSession(l) <==> exists item :: item in items && item == EventOnlyItem(l)))
  {
    var kept := Filter(levels, NotSession);
    var items := EventOnlyItems(levels);
    FilterMembers(levels, NotSession);
    forall item | item in items ensures item.levelName != Catalog.SESSION_NAME {
      var i :| 0 <= i < |items| && items[i] == item;
      assert kept[i] in kept;
    }
    forall l | l in levels && NotSession(l) ensures exists item :: item in items && item == EventOnlyItem(l) {
      var i :| 0 <= i < |kept| && kept[i] == l;
      assert items[i] == EventOnlyItem(l) && items[i] in items;
    }
  }

  /** The gap-filled rows of "all" mode: a stored level is synthetic exactly when named "-", any
      other row is a synthetic "-" row, and no token keeps a "_day". */
  lemma AllModeRows(levels: seq<Catalog.Level>)
    ensures forall r :: r in FillAll(ListRows(levels)) ==>
      !Includes(r.token, "_day") &&
      (IsReal(r) ==> (r.synthetic <==> r.name == Catalog.SESSION_NAME)) &&
      (!IsReal(r) ==> r.synthetic && r.name == Catalog.SESSION_NAME)
  {
    var rows := ListRows(levels);
    FillAllFrom(rows);
    forall r | r in FillAll(rows)
      ensures !Includes(r.token, "_day")
      ensures IsReal(r) ==> (r.synthetic <==> r.name == Catalog.SESSION_NAME)
    {
      if r in rows {
        var i :| 0 <= i < |rows| && rows[i] == r;
        assert r == ListRow(levels[i]);
      } else {
        var x :| x in rows && x.token == r.token;
        var i :| 0 <= i < |rows| && rows[i] == x;
        assert x == ListRow(levels[i]);
      }
    }
  }

  /** "All" mode: every row carries the selected game (0 when none) and is a gap-filled row; each
      level appears exactly once. */
  lemma AllModeShape(levels: seq<Catalog.Level>, selectedGameId: Option<int>)
    requires forall i, j :: 0 <= i < j < |levels| ==> levels[i].id != levels[j].id
    ensures var items := FilteredLevels(All, levels, selectedGameId);
      var rows := ListRows(levels);
      |items| == |levels| + GapTotal(NumericSorted(rows)) &&
      multiset(Filter(FillAll(rows), IsReal)) == multiset(rows) &&
      forall k :: 0 <= k < |items| ==>
        items[k].gameId == selectedGameId.GetOr(0) && items[k].id == FillAll(rows)[k].id &&
        items[k].eventToken == FillAll(rows)[k].token && items[k].synthetic == FillAll(rows)[k].synthetic
  {
    ListRowsDistinct(levels);
    FillAllShape(ListRows(levels));
  }

  lemma ListRowsDistinct(levels: seq<Catalog.Level>)
    requires forall i, j :: 0 <= i < j < |levels| ==> levels[i].id != levels[j].id
    ensures DistinctIds(ListRows(levels)) && AllReal(ListRows(levels))
  {
    var rows := ListRows(levels);
    forall i, j | 0 <= i < j < |rows| ensures rows[i].id != rows[j].id {
      assert levels[i].id != levels[j].id;
    }
  }
}
