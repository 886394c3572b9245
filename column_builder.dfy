// The columns of the spreadsheet export: one per level, then one per purchase event, the date
// matrix under them and the colour of each column.

module ColumnBuilder {
  import opened Options
  import opened JsText
  import opened Catalog
  import ExcelStyling
  import ExcelParser

  datatype ColumnKind = LevelKind | PurchaseKind

  /** A column's day offset: absent, a number, or a text such as 'Less Than 3' */
  datatype DayValue = NoDay | DayNumber(n: int) | DayText(s: string)

  datatype ColumnData = ColumnData(
    kind: ColumnKind, id: int, token: string, fullToken: string, name: string,
    daysOffset: DayValue, timeSpent: Option<int>,
    isBonus: Option<bool>, isRestricted: Option<bool>, maxDaysOffset: Option<string>,
    uniqueKey: string, synthetic: bool)

  function DayOf(d: Option<int>): DayValue {
    if d.Some? then DayNumber(d.value) else NoDay
  }

  /** The request type a level column stands for */
  function LevelTypeName(l: Level): string {
    if l.levelName == SESSION_NAME then "Session Only" else "Level Event"
  }

  function LevelColumnOf(l: Level): ColumnData {
    ColumnData(LevelKind, l.id, l.eventToken, l.eventToken, l.levelName,
      DayOf(l.daysOffset), l.timeSpent, Some(l.isBonus), None, None,
      l.eventToken + ":" + LevelTypeName(l), false)
  }

  /** 'Less Than n' when the event has a limit, '-' otherwise */
  function MaxDaysText(m: Option<int>): string {
    if m.Some? then "Less Than " + IntToString(m.value) else "-"
  }

  function PurchaseColumnOf(p: PurchaseEvent): ColumnData {
    ColumnData(PurchaseKind, p.id, p.eventToken, p.eventToken, PURCHASE_NAME,
      NoDay, None, None, Some(p.isRestricted.GetOr(false)), Some(MaxDaysText(p.maxDaysOffset)),
      p.eventToken + ":" + "Purchase Event", false)
  }

  /** buildColumns */
  function BuildColumns(levels: seq<Level>, events: seq<PurchaseEvent>): (cols: seq<ColumnData>)
    ensures |cols| == |levels| + |events|
  {
    seq(|levels|, i requires 0 <= i < |levels| => LevelColumnOf(levels[i]))
    + seq(|events|, k requires 0 <= k < |events| => PurchaseColumnOf(events[k]))
  }

  /** Levels come first, in input order, then the purchase events; every column carries its
      source's id and token, a full token equal to the token, and is not synthetic. */
  lemma BuildColumnsOrder(levels: seq<Level>, events: seq<PurchaseEvent>)
    ensures var cols := BuildColumns(levels, events);
      forall i :: 0 <= i < |cols| ==>
        (cols[i].kind == LevelKind <==> i < |levels|)
        && cols[i].fullToken == cols[i].token && !cols[i].synthetic
        && (i < |levels| ==> cols[i].id == levels[i].id && cols[i].token == levels[i].eventToken
                             && cols[i].name == levels[i].levelName
                             && cols[i].isBonus == Some(levels[i].isBonus))
        && (i >= |levels| ==> cols[i].id == events[i - |levels|].id
                              && cols[i].token == events[i - |levels|].eventToken
                              && cols[i].name == PURCHASE_NAME
                              && cols[i].isRestricted == Some(events[i - |levels|].isRestricted.GetOr(false)))
  {
  }

  /** The position of the last `c` in `s`, or -1 */
  function LastIndexOfChar(s: string, c: char): (r: int)
    ensures -1 <= r < |s|
    ensures r >= 0 ==> s[r] == c && forall i :: r < i < |s| ==> s[i] != c
    ensures r == -1 ==> forall i :: 0 <= i < |s| ==> s[i] != c
  {
    if s == [] then -1
    else if s[|s| - 1] == c then |s| - 1
    else LastIndexOfChar(s[..|s| - 1], c)
  }

  /** A unique key read back: the token before its last ':' and the request type after it */
  function SplitKey(key: string): Option<(string, string)> {
    var k := LastIndexOfChar(key, ':');
    if k < 0 then None else Some((key[..k], key[k + 1..]))
  }

  lemma SplitKeyOf(token: string, typeName: string)
    requires forall i :: 0 <= i < |typeName| ==> typeName[i] != ':'
    ensures SplitKey(token + ":" + typeName) == Some((token, typeName))
  {
    var key := token + ":" + typeName;
    var k := LastIndexOfChar(key, ':');
    assert key[|token|] == ':';
    assert forall i :: |token| < i < |key| ==> key[i] == typeName[i - |token| - 1];
    assert k == |token|;
    assert key[..k] == token;
    assert key[k + 1..] == typeName;
  }

  /** A column's unique key splits back into its token and the request type it stands for:
      'Session Only' for a level named '-', 'Level Event' for the other levels and
      'Purchase Event' for the purchase events. */
  lemma UniqueKeysSplit(levels: seq<Level>, events: seq<PurchaseEvent>)
    ensures var cols := BuildColumns(levels, events);
      forall i :: 0 <= i < |cols| ==>
        SplitKey(cols[i].uniqueKey) == Some((cols[i].token,
          if i >= |levels| then "Purchase Event"
          else if levels[i].levelName == SESSION_NAME then "Session Only"
          else "Level Event"))
  {
    var cols := BuildColumns(levels, events);
    forall i | 0 <= i < |cols|
      ensures SplitKey(cols[i].uniqueKey) == Some((cols[i].token,
          if i >= |levels| then "Purchase Event"
          else if levels[i].levelName == SESSION_NAME then "Session Only"
          else "Level Event"))
    {
      if i < |levels| {
        assert cols[i] == LevelColumnOf(levels[i]);
        SplitKeyOf(levels[i].eventToken, LevelTypeName(levels[i]));
      } else {
        assert cols[i] == PurchaseColumnOf(events[i - |levels|]);
        SplitKeyOf(events[i - |levels|].eventToken, "Purchase Event");
      }
    }
  }

  /** The 'Less Than n' text a purchase column carries reads back as n through the detail-layout
      import, for the non-negative limits the validators admit; '-' reads back as no limit. */
  lemma MaxDaysReadBack(levels: seq<Level>, events: seq<PurchaseEvent>, k: nat)
    requires k < |events|
    requires events[k].maxDaysOffset.None? || events[k].maxDaysOffset.value >= 0
    ensures var c := BuildColumns(levels, events)[|levels| + k];
      c.maxDaysOffset.Some? && ExcelParser.DetailPurchaseDays(c.maxDaysOffset.value) == events[k].maxDaysOffset
  {
    PurchaseColumnAt(levels, events, k);
    MaxDaysTextReadsBack(events[k].maxDaysOffset);
  }

  lemma PurchaseColumnAt(levels: seq<Level>, events: seq<PurchaseEvent>, k: nat)
    requires k < |events|
    ensures BuildColumns(levels, events)[|levels| + k] == PurchaseColumnOf(events[k])
  {
  }

  /** The text of a limit reads back as the limit. */
  lemma MaxDaysTextReadsBack(m: Option<int>)
    requires m.None? || m.value >= 0
    ensures ExcelParser.DetailPurchaseDays(MaxDaysText(m)) == m
  {
    if m.Some? {
      assert IntToString(m.value) == NatToString(m.value);
      ExcelParser.LessThanReadsBack(m.value);
    } else {
      DashReadsNothing();
    }
  }

  /** '-' is neither a limit nor a number. */
  lemma DashReadsNothing()
    ensures ExcelParser.DetailPurchaseDays("-") == None
  {
    assert !Includes(ToLower("-"), "less than") by {
      IncludesIff(ToLower("-"), "less than");
    }
    TrimOfTrimmed("-");
    assert "-"[1..] == [];
    assert ParseInt10("-") == None;
  }

  /** createDateMatrix. `parseDate` stands for the caller's date parser, None for null; `dateCell(start,
      offset)` for the text formatDateShort(addDays(start, offset) as an ISO date). */
  function CreateDateMatrix<D>(starts: seq<Option<string>>, columns: seq<ColumnData>,
                               parseDate: Option<string> -> Option<D>,
                               dateCell: (D, int) -> string): (m: seq<seq<string>>)
    ensures |m| == |starts| && forall a :: 0 <= a < |m| ==> |m[a]| == |columns|
  {
    seq(|starts|, a requires 0 <= a < |starts| =>
      var start := parseDate(starts[a]);
      seq(|columns|, j requires 0 <= j < |columns| => DateCellOf(columns[j], start, dateCell)))
  }

  function DateCellOf<D>(c: ColumnData, start: Option<D>, dateCell: (D, int) -> string): string {
    if c.kind == LevelKind && start.Some? && c.daysOffset != NoDay then
      dateCell(start.value, if c.daysOffset.DayNumber? then c.daysOffset.n else 0)
    else "-"
  }

  /** Over the columns buildColumns makes, a level cell is the account's start moved by the
      level's day offset, and a cell is '-' for a purchase, an unparseable start or a level without
      a day offset. */
  lemma DateMatrixOfColumns<D>(starts: seq<Option<string>>, levels: seq<Level>, events: seq<PurchaseEvent>,
                               parseDate: Option<string> -> Option<D>, dateCell: (D, int) -> string)
    ensures var m := CreateDateMatrix(starts, BuildColumns(levels, events), parseDate, dateCell);
      forall a, j :: 0 <= a < |starts| && 0 <= j < |levels| + |events| ==>
        m[a][j] == (if j < |levels| && parseDate(starts[a]).Some? && levels[j].daysOffset.Some?
                    then dateCell(parseDate(starts[a]).value, levels[j].daysOffset.value)
                    else "-")
  {
  }

  /** The four colours of the settings */
  datatype ColorSettings = ColorSettings(
    levelBonus: string, levelNormal: string, purchaseRestricted: string, purchaseUnrestricted: string)

  /** getColumnStyle, with the styling module's getCellStyle in place of the function argument */
  function GetColumnStyle(kind: ColumnKind, isBonus: Option<bool>, isRestricted: Option<bool>,
                          isSynthetic: Option<bool>, isHeader: bool, colors: ColorSettings,
                          theme: ExcelStyling.Theme): (style: ExcelStyling.CellStyle)
    ensures kind == LevelKind && isBonus == Some(true) ==> style.fill == ExcelStyling.RgbToHex(colors.levelBonus)
    ensures kind == LevelKind && isBonus != Some(true) ==> style.fill == ExcelStyling.RgbToHex(colors.levelNormal)
    ensures kind == PurchaseKind && isRestricted == Some(true) ==> style.fill == ExcelStyling.RgbToHex(colors.purchaseRestricted)
    ensures kind == PurchaseKind && isRestricted != Some(true) ==> style.fill == ExcelStyling.RgbToHex(colors.purchaseUnrestricted)
    ensures style.bold == isHeader && style.italic == (isSynthetic == Some(true))
  {
    var background :=
      if kind == LevelKind then (if isBonus == Some(true) then colors.levelBonus else colors.levelNormal)
      else if isRestricted == Some(true) then colors.purchaseRestricted else colors.purchaseUnrestricted;
    ExcelStyling.GetCellStyle(background, theme, isHeader, isSynthetic.GetOr(false))
  }
}
