// The records the spreadsheet import builds (`Partial<Level>`, `Partial<PurchaseEvent>`,
// `Partial<Account>`) and the header-driven row readers shared by the import in
// src/services/excel/excel-parser.ts and the older helpers in src/services/excel.service.ts.
// The row layout that `exportToExcel` writes is modelled too: it is what these readers are meant
// to read back.

module ImportRows {
  import opened Options
  import opened JsText
  import opened SheetCells

  /** `Partial<Level>`, with the game tag the workbook reader adds to rows of a `<game>_Lvl` sheet */
  datatype PartialLevel = PartialLevel(
    eventToken: Option<string>,
    levelName: Option<string>,
    daysOffset: Option<int>,
    timeSpent: Option<int>,
    isBonus: Option<bool>,
    gameName: Option<string>)

  /** `Partial<PurchaseEvent>`, with the game tag of a `<game>_Evt` sheet */
  datatype PartialPurchaseEvent = PartialPurchaseEvent(
    eventToken: Option<string>,
    isRestricted: Option<bool>,
    maxDaysOffset: Option<int>,
    gameName: Option<string>)

  /** `Partial<Account>` with the extra fields the readers attach: `_gameName` from an accounts
      sheet, `lastCompletedToken` from an account-detail sheet and the `gameName` tag. */
  datatype PartialAccount = PartialAccount(
    name: Option<string>,
    startDate: Option<string>,
    startTime: Option<string>,
    requestTemplate: Option<string>,
    lastCompletedToken: Option<string>,
    sheetGameName: Option<string>,
    gameName: Option<string>)

  lemma TruthyTextNonEmpty(c: Cell)
    requires Truthy(c)
    ensures CellText(c) != ""
  {
    if c.Number? && c.n < 0 {
      assert CellText(c)[0] == '-';
    }
  }

  /** `idx >= 0 && row[idx]` then `row[idx].toString()` */
  function TextAt(row: Row, idx: int): (r: Option<string>)
    ensures r.Some? <==> idx >= 0 && Truthy(At(row, idx))
    ensures r.Some? ==> r.value != "" && r.value == CellText(At(row, idx))
  {
    if idx >= 0 && Truthy(At(row, idx)) then
      TruthyTextNonEmpty(At(row, idx));
      Some(CellText(At(row, idx)))
    else None
  }

  /** `idx >= 0 && row[idx] !== undefined` then `parseInt(row[idx].toString())`, unset on NaN */
  function IntAt(row: Row, idx: int): (r: Option<int>)
    ensures r.Some? ==> idx >= 0 && !At(row, idx).Blank? && r == CellInt(At(row, idx))
    ensures idx >= 0 && At(row, idx).Number? ==> r == Some(At(row, idx).n)
  {
    if idx >= 0 && !At(row, idx).Blank? then
      if At(row, idx).Number? then CellIntOfNumber(At(row, idx).n); CellInt(At(row, idx))
      else CellInt(At(row, idx))
    else None
  }

  /** `idx >= 0 && row[idx] !== undefined` then the yes/true/1 test */
  function FlagAt(row: Row, idx: int): (r: Option<bool>)
    ensures r.Some? <==> idx >= 0 && !At(row, idx).Blank?
    ensures r == Some(true) <==> idx >= 0 && IsYes(At(row, idx))
  {
    if idx >= 0 && !At(row, idx).Blank? then Some(IsYes(At(row, idx))) else None
  }

  // ---- levels sheet ----

  /** Where `findIndex` found each level header; -1 when absent */
  datatype LevelColumns = LevelColumns(token: int, name: int, days: int, time: int, bonus: int)

  function LevelColumnsOf(headers: Row): LevelColumns {
    LevelColumns(HeaderIndex(headers, "event token"), HeaderIndex(headers, "level name"),
                 HeaderIndex(headers, "days offset"), HeaderIndex(headers, "time spent"),
                 HeaderIndex(headers, "bonus"))
  }

  /** The level a data row describes, before the keep test */
  function LevelOfRow(c: LevelColumns, row: Row): (l: PartialLevel)
    ensures l.eventToken.Some? <==> c.token >= 0 && Truthy(At(row, c.token))
    ensures l.levelName.Some? <==> c.name >= 0 && Truthy(At(row, c.name))
    ensures l.isBonus == Some(true) <==> c.bonus >= 0 && IsYes(At(row, c.bonus))
    ensures l.gameName == None
  {
    PartialLevel(TextAt(row, c.token), TextAt(row, c.name), IntAt(row, c.days), IntAt(row, c.time),
                 FlagAt(row, c.bonus), None)
  }

  /** The keep test: a token, and in the older reader a level name as well */
  predicate KeepLevel(l: PartialLevel, needName: bool) {
    l.eventToken.Some? && (needName ==> l.levelName.Some?)
  }

  /** The kept levels of the data rows, in row order; empty rows are skipped. */
  function LevelsOf(c: LevelColumns, rows: seq<Row>, needName: bool): (r: seq<PartialLevel>)
    ensures |r| <= |rows|
    ensures forall l :: l in r ==> KeepLevel(l, needName) && l.eventToken.value != ""
  {
    if rows == [] then []
    else
      var row := rows[|rows| - 1];
      var l := LevelOfRow(c, row);
      LevelsOf(c, rows[..|rows| - 1], needName) + (if row != [] && KeepLevel(l, needName) then [l] else [])
  }

  /** `parseLevelsData`: nothing below two rows, else the kept levels under the first row's headers */
  function LevelsRead(rows: seq<Row>, needName: bool): (r: seq<PartialLevel>)
    ensures |rows| < 2 ==> r == []
  {
    if |rows| < 2 then [] else LevelsOf(LevelColumnsOf(rows[0]), rows[1..], needName)
  }

  /** Reading rows one block after another is reading the blocks and joining the results. */
  lemma {:induction false} LevelsOfConcat(c: LevelColumns, a: seq<Row>, b: seq<Row>, needName: bool)
    ensures LevelsOf(c, a + b, needName) == LevelsOf(c, a, needName) + LevelsOf(c, b, needName)
    decreases |b|
  {
    if b == [] {
      assert a + b == a;
    } else {
      var b' := b[..|b| - 1];
      assert (a + b)[..|a + b| - 1] == a + b';
      LevelsOfConcat(c, a, b', needName);
    }
  }

  // ---- purchase events sheet ----

  datatype PurchaseColumns = PurchaseColumns(token: int, restricted: int, maxDays: int)

  function PurchaseColumnsOf(headers: Row): PurchaseColumns {
    PurchaseColumns(HeaderIndex(headers, "event token"), HeaderIndex(headers, "restricted"),
                    HeaderIndex(headers, "max days"))
  }

  function PurchaseOfRow(c: PurchaseColumns, row: Row): (e: PartialPurchaseEvent)
    ensures e.eventToken.Some? <==> c.token >= 0 && Truthy(At(row, c.token))
    ensures e.isRestricted == Some(true) <==> c.restricted >= 0 && IsYes(At(row, c.restricted))
    ensures e.gameName == None
  {
    PartialPurchaseEvent(TextAt(row, c.token), FlagAt(row, c.restricted), IntAt(row, c.maxDays), None)
  }

  function PurchasesOf(c: PurchaseColumns, rows: seq<Row>): (r: seq<PartialPurchaseEvent>)
    ensures |r| <= |rows|
    ensures forall e :: e in r ==> e.eventToken.Some? && e.eventToken.value != ""
  {
    if rows == [] then []
    else
      var row := rows[|rows| - 1];
      var e := PurchaseOfRow(c, row);
      PurchasesOf(c, rows[..|rows| - 1]) + (if row != [] && e.eventToken.Some? then [e] else [])
  }

  /** `parsePurchaseEventsData` */
  function PurchasesRead(rows: seq<Row>): (r: seq<PartialPurchaseEvent>)
    ensures |rows| < 2 ==> r == []
  {
    if |rows| < 2 then [] else PurchasesOf(PurchaseColumnsOf(rows[0]), rows[1..])
  }

  // ---- accounts sheet ----

  datatype AccountColumns = AccountColumns(name: int, startDate: int, startTime: int, game: int)

  function AccountColumnsOf(headers: Row): AccountColumns {
    AccountColumns(HeaderIndex(headers, "account"), HeaderIndex(headers, "start date"),
                   HeaderIndex(headers, "start time"), HeaderIndex(headers, "game"))
  }

  function AccountOfRow(c: AccountColumns, row: Row): (a: PartialAccount)
    ensures a.name.Some? <==> c.name >= 0 && Truthy(At(row, c.name))
    ensures a.requestTemplate == None && a.gameName == None
  {
    PartialAccount(TextAt(row, c.name), TextAt(row, c.startDate), TextAt(row, c.startTime), None, None,
                   TextAt(row, c.game), None)
  }

  function AccountsOf(c: AccountColumns, rows: seq<Row>): (r: seq<PartialAccount>)
    ensures |r| <= |rows|
    ensures forall a :: a in r ==> a.name.Some? && a.name.value != ""
  {
    if rows == [] then []
    else
      var row := rows[|rows| - 1];
      var a := AccountOfRow(c, row);
      AccountsOf(c, rows[..|rows| - 1]) + (if row != [] && a.name.Some? then [a] else [])
  }

  /** `parseAccountsData` */
  function AccountsRead(rows: seq<Row>): (r: seq<PartialAccount>)
    ensures |rows| < 2 ==> r == []
  {
    if |rows| < 2 then [] else AccountsOf(AccountColumnsOf(rows[0]), rows[1..])
  }

  // ---- the row loops ----

  /** The loop of `parseLevelsData`: the rows after the header row that pass the keep test, in row order */
  method ReadLevelRows(rows: seq<Row>, needName: bool) returns (levels: seq<PartialLevel>)
    ensures levels == LevelsRead(rows, needName)
  {
    if |rows| < 2 {
      return [];
    }
    var c := LevelColumnsOf(rows[0]);
    levels := [];
    var i := 1;
    while i < |rows|
      invariant 1 <= i <= |rows|
      invariant levels == LevelsOf(c, rows[1..i], needName)
    {
      var row := rows[i];
      LevelsOfStep(c, rows, i, needName);
      if row != [] {
        var level := LevelOfRow(c, row);
        if KeepLevel(level, needName) {
          levels := levels + [level];
        }
      }
      i := i + 1;
    }
    assert rows[1..i] == rows[1..];
  }

  /** One more data row adds its level when it is kept, and nothing otherwise. */
  lemma LevelsOfStep(c: LevelColumns, rows: seq<Row>, i: nat, needName: bool)
    requires 1 <= i < |rows|
    ensures LevelsOf(c, rows[1..i + 1], needName)
         == LevelsOf(c, rows[1..i], needName)
            + (if rows[i] != [] && KeepLevel(LevelOfRow(c, rows[i]), needName) then [LevelOfRow(c, rows[i])] else [])
  {
    assert rows[1..i + 1][..i - 1] == rows[1..i];
  }

  /** One more data row adds its record when it is kept, and nothing otherwise. */
  lemma PurchasesOfStep(c: PurchaseColumns, rows: seq<Row>, i: nat)
    requires 1 <= i < |rows|
    ensures PurchasesOf(c, rows[1..i + 1])
         == PurchasesOf(c, rows[1..i]) + (if rows[i] != [] && PurchaseOfRow(c, rows[i]).eventToken.Some? then [PurchaseOfRow(c, rows[i])] else [])
  {
    assert rows[1..i + 1][..i - 1] == rows[1..i];
  }

  /** The loop of `parsePurchaseEventsData` */
  method ReadPurchaseRows(rows: seq<Row>) returns (events: seq<PartialPurchaseEvent>)
    ensures events == PurchasesRead(rows)
  {
    if |rows| < 2 {
      return [];
    }
    var c := PurchaseColumnsOf(rows[0]);
    events := [];
    var i := 1;
    while i < |rows|
      invariant 1 <= i <= |rows|
      invariant events == PurchasesOf(c, rows[1..i])
    {
      var row := rows[i];
      PurchasesOfStep(c, rows, i);
      if row != [] {
        var event := PurchaseOfRow(c, row);
        if event.eventToken.Some? {
          events := events + [event];
        }
      }
      i := i + 1;
    }
    assert rows[1..i] == rows[1..];
  }

  /** One more data row adds its record when it is kept, and nothing otherwise. */
  lemma AccountsOfStep(c: AccountColumns, rows: seq<Row>, i: nat)
    requires 1 <= i < |rows|
    ensures AccountsOf(c, rows[1..i + 1])
         == AccountsOf(c, rows[1..i]) + (if rows[i] != [] && AccountOfRow(c, rows[i]).name.Some? then [AccountOfRow(c, rows[i])] else [])
  {
    assert rows[1..i + 1][..i - 1] == rows[1..i];
  }

  /** The loop of `parseAccountsData` */
  method ReadAccountRows(rows: seq<Row>) returns (accounts: seq<PartialAccount>)
    ensures accounts == AccountsRead(rows)
  {
    if |rows| < 2 {
      return [];
    }
    var c := AccountColumnsOf(rows[0]);
    accounts := [];
    var i := 1;
    while i < |rows|
      invariant 1 <= i <= |rows|
      invariant accounts == AccountsOf(c, rows[1..i])
    {
      var row := rows[i];
      AccountsOfStep(c, rows, i);
      if row != [] {
        var account := AccountOfRow(c, row);
        if account.name.Some? {
          accounts := accounts + [account];
        }
      }
      i := i + 1;
    }
    assert rows[1..i] == rows[1..];
  }

  // ---- the rows the export writes ----

  /** A stored level, as the export sees it */
  datatype Level = Level(eventToken: string, levelName: string, daysOffset: int, timeSpent: int, isBonus: bool)
  datatype PurchaseEvent = PurchaseEvent(eventToken: string, isRestricted: bool, maxDaysOffset: int)
  datatype Account = Account(name: string, startDate: string, startTime: string)

  function YesNo(b: bool): Cell {
    Text(if b then "Yes" else "No")
  }

  function LevelRow(l: Level): Row {
    [Text(l.eventToken), Text(l.levelName), Number(l.daysOffset), Number(l.timeSpent), YesNo(l.isBonus)]
  }

  function LevelRows(ls: seq<Level>): (r: seq<Row>)
    ensures |r| == |ls|
  {
    if ls == [] then [] else LevelRows(ls[..|ls| - 1]) + [LevelRow(ls[|ls| - 1])]
  }

  /** What the import records for a stored level */
  function LevelRead(l: Level): PartialLevel {
    PartialLevel(Some(l.eventToken), Some(l.levelName), Some(l.daysOffset), Some(l.timeSpent), Some(l.isBonus), None)
  }

  function LevelsReadBack(ls: seq<Level>): (r: seq<PartialLevel>)
    ensures |r| == |ls|
  {
    if ls == [] then [] else LevelsReadBack(ls[..|ls| - 1]) + [LevelRead(ls[|ls| - 1])]
  }

  function PurchaseRow(e: PurchaseEvent): Row {
    [Text(e.eventToken), YesNo(e.isRestricted), Number(e.maxDaysOffset)]
  }

  function PurchaseRows(es: seq<PurchaseEvent>): (r: seq<Row>)
    ensures |r| == |es|
  {
    if es == [] then [] else PurchaseRows(es[..|es| - 1]) + [PurchaseRow(es[|es| - 1])]
  }

  function PurchaseRead(e: PurchaseEvent): PartialPurchaseEvent {
    PartialPurchaseEvent(Some(e.eventToken), Some(e.isRestricted), Some(e.maxDaysOffset), None)
  }

  function PurchasesReadBack(es: seq<PurchaseEvent>): (r: seq<PartialPurchaseEvent>)
    ensures |r| == |es|
  {
    if es == [] then [] else PurchasesReadBack(es[..|es| - 1]) + [PurchaseRead(es[|es| - 1])]
  }

  function AccountRow(a: Account): Row {
    [Text(a.name), Text(a.startDate), Text(a.startTime)]
  }

  function AccountRows(as_: seq<Account>): (r: seq<Row>)
    ensures |r| == |as_|
  {
    if as_ == [] then [] else AccountRows(as_[..|as_| - 1]) + [AccountRow(as_[|as_| - 1])]
  }

  /** An empty text cell reads as unset. */
  function NonEmpty(s: string): (r: Option<string>)
    ensures r.Some? <==> s != ""
  {
    if s == "" then None else Some(s)
  }

  function AccountRead(a: Account): PartialAccount {
    PartialAccount(Some(a.name), NonEmpty(a.startDate), NonEmpty(a.startTime), None, None, None, None)
  }

  function AccountsReadBack(as_: seq<Account>): (r: seq<PartialAccount>)
    ensures |r| == |as_|
  {
    if as_ == [] then [] else AccountsReadBack(as_[..|as_| - 1]) + [AccountRead(as_[|as_| - 1])]
  }

  // ---- reading the exported rows back ----

  lemma YesNoReadsBack(b: bool)
    ensures IsYes(YesNo(b)) == b
  {
    if b {
      assert ToLower("Yes") == "yes";
    }
  }

  lemma LevelRowReadsBack(l: Level)
    requires l.eventToken != "" && l.levelName != ""
    ensures LevelOfRow(LevelColumns(0, 1, 2, 3, 4), LevelRow(l)) == LevelRead(l)
  {
    LevelRowTexts(l);
    LevelRowNumbers(l);
    YesNoCellReadsBack(LevelRow(l), 4, l.isBonus);
  }

  lemma LevelRowTexts(l: Level)
    requires l.eventToken != "" && l.levelName != ""
    ensures TextAt(LevelRow(l), 0) == Some(l.eventToken) && TextAt(LevelRow(l), 1) == Some(l.levelName)
  {
  }

  lemma LevelRowNumbers(l: Level)
    ensures IntAt(LevelRow(l), 2) == Some(l.daysOffset) && IntAt(LevelRow(l), 3) == Some(l.timeSpent)
  {
    NumberCellReadsBack(LevelRow(l), 2, l.daysOffset);
    NumberCellReadsBack(LevelRow(l), 3, l.timeSpent);
  }

  lemma NumberCellReadsBack(row: Row, k: nat, n: int)
    requires k < |row| && row[k] == Number(n)
    ensures IntAt(row, k) == Some(n)
  {
  }

  lemma YesNoCellReadsBack(row: Row, k: nat, b: bool)
    requires k < |row| && row[k] == YesNo(b)
    ensures FlagAt(row, k) == Some(b)
  {
    YesNoReadsBack(b);
  }

  lemma {:induction false} LevelRowsReadBack(ls: seq<Level>, needName: bool)
    requires forall l :: l in ls ==> l.eventToken != "" && l.levelName != ""
    ensures LevelsOf(LevelColumns(0, 1, 2, 3, 4), LevelRows(ls), needName) == LevelsReadBack(ls)
  {
    if ls != [] {
      var init := ls[..|ls| - 1];
      assert forall l :: l in init ==> l in ls;
      LevelRowsReadBack(init, needName);
      LevelRowReadsBack(ls[|ls| - 1]);
      assert LevelRows(ls)[..|ls| - 1] == LevelRows(init);
    }
  }

  /** A levels sheet written by the export, under headers that resolve to its column order, reads
      back as the stored levels, in both readers, provided every token and name is non-empty. */
  lemma ExportedLevelsReadBack(headers: Row, ls: seq<Level>, needName: bool)
    requires LevelColumnsOf(headers) == LevelColumns(0, 1, 2, 3, 4)
    requires forall l :: l in ls ==> l.eventToken != "" && l.levelName != ""
    ensures LevelsRead([headers] + LevelRows(ls), needName) == LevelsReadBack(ls)
  {
    LevelRowsReadBack(ls, needName);
    assert ([headers] + LevelRows(ls))[1..] == LevelRows(ls);
  }

  lemma PurchaseRowReadsBack(e: PurchaseEvent)
    requires e.eventToken != ""
    ensures PurchaseOfRow(PurchaseColumns(0, 1, 2), PurchaseRow(e)) == PurchaseRead(e)
  {
    assert TextAt(PurchaseRow(e), 0) == Some(e.eventToken);
    assert IntAt(PurchaseRow(e), 2) == Some(e.maxDaysOffset);
    YesNoCellReadsBack(PurchaseRow(e), 1, e.isRestricted);
  }

  lemma {:induction false} PurchaseRowsReadBack(es: seq<PurchaseEvent>)
    requires forall e :: e in es ==> e.eventToken != ""
    ensures PurchasesOf(PurchaseColumns(0, 1, 2), PurchaseRows(es)) == PurchasesReadBack(es)
  {
    if es != [] {
      var init := es[..|es| - 1];
      assert forall e :: e in init ==> e in es;
      PurchaseRowsReadBack(init);
      PurchaseRowReadsBack(es[|es| - 1]);
      assert PurchaseRows(es)[..|es| - 1] == PurchaseRows(init);
    }
  }

  /** A purchase events sheet written by the export reads back as the stored events. */
  lemma ExportedPurchasesReadBack(headers: Row, es: seq<PurchaseEvent>)
    requires PurchaseColumnsOf(headers) == PurchaseColumns(0, 1, 2)
    requires forall e :: e in es ==> e.eventToken != ""
    ensures PurchasesRead([headers] + PurchaseRows(es)) == PurchasesReadBack(es)
  {
    PurchaseRowsReadBack(es);
    assert ([headers] + PurchaseRows(es))[1..] == PurchaseRows(es);
  }

  lemma AccountRowReadsBack(a: Account)
    requires a.name != ""
    ensures AccountOfRow(AccountColumns(0, 1, 2, -1), AccountRow(a)) == AccountRead(a)
  {
  }

  lemma {:induction false} AccountRowsReadBack(as_: seq<Account>)
    requires forall a :: a in as_ ==> a.name != ""
    ensures AccountsOf(AccountColumns(0, 1, 2, -1), AccountRows(as_)) == AccountsReadBack(as_)
  {
    if as_ != [] {
      var init := as_[..|as_| - 1];
      assert forall a :: a in init ==> a in as_;
      AccountRowsReadBack(init);
      AccountRowReadsBack(as_[|as_| - 1]);
      assert AccountRows(as_)[..|as_| - 1] == AccountRows(init);
    }
  }

  /** An accounts sheet written by the export reads back as the stored accounts; an empty start
      date or time comes back unset. */
  lemma ExportedAccountsReadBack(headers: Row, as_: seq<Account>)
    requires AccountColumnsOf(headers) == AccountColumns(0, 1, 2, -1)
    requires forall a :: a in as_ ==> a.name != ""
    ensures AccountsRead([headers] + AccountRows(as_)) == AccountsReadBack(as_)
  {
    AccountRowsReadBack(as_);
    assert ([headers] + AccountRows(as_))[1..] == AccountRows(as_);
  }
}
