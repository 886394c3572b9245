// The spreadsheet import of src/services/excel/excel-parser.ts over already decoded rows: the
// header-driven sheets, the two column layouts written by the detail pages, the "(C)" completion
// marks of a matrix sheet and the dispatch on sheet names.

module ExcelParser {
  import opened Options
  import opened JsText
  import opened SheetCells
  import opened ImportRows
  import ExcelDateTime
  import Scan

  // ---- the account-detail layout ----

  /** A first cell that names the account section */
  predicate IsAccountHeader(row: Row) {
    Truthy(At(row, 0)) && Includes(ToLower(CellText(At(row, 0))), "account")
  }

  /** `isAccountsDetailFormat`: at least six rows and an account header among rows 4 to 7 */
  method IsAccountsDetailFormat(rows: seq<Row>) returns (r: bool)
    ensures r <==> |rows| >= 6 && exists i :: 4 <= i < 8 && i < |rows| && IsAccountHeader(rows[i])
  {
    if |rows| < 6 {
      return false;
    }
    var hi := if |rows| < 8 then |rows| else 8;
    var i := 4;
    while i < hi
      invariant 4 <= i <= hi
      invariant forall j :: 4 <= j < i ==> !IsAccountHeader(rows[j])
    {
      if IsAccountHeader(rows[i]) {
        return true;
      }
      i := i + 1;
    }
    return false;
  }

  /** The first account header row at or after `from`, or -1 */
  function AccountHeaderRow(rows: seq<Row>, from: nat): (r: int)
    ensures r == -1 || (from <= r < |rows| && IsAccountHeader(rows[r]))
    ensures forall i :: from <= i < |rows| && (r == -1 || i < r) ==> !IsAccountHeader(rows[i])
    decreases |rows| - from
  {
    if from >= |rows| then -1
    else if IsAccountHeader(rows[from]) then from
    else AccountHeaderRow(rows, from + 1)
  }

  /** The search loop for the account header, from row 4 on */
  method FindAccountHeaderRow(rows: seq<Row>) returns (r: int)
    ensures r == AccountHeaderRow(rows, 4)
  {
    var i := 4;
    while i < |rows|
      invariant 4 <= i
      invariant AccountHeaderRow(rows, i) == AccountHeaderRow(rows, 4)
      decreases |rows| - i
    {
      if IsAccountHeader(rows[i]) {
        return i;
      }
      i := i + 1;
    }
    return -1;
  }

  /** A sheet in the detail format has its account header among rows 4 to 7. */
  lemma DetailFormatHeader(rows: seq<Row>)
    requires |rows| >= 6 && exists i :: 4 <= i < 8 && i < |rows| && IsAccountHeader(rows[i])
    ensures 4 <= AccountHeaderRow(rows, 4) < 8
  {
  }

  /** `Math.max(...rows.map(row => row.length))` */
  function MaxWidth(rows: seq<Row>): (w: nat)
    ensures forall j :: 0 <= j < |rows| ==> |rows[j]| <= w
    ensures rows != [] ==> exists j :: 0 <= j < |rows| && |rows[j]| == w
  {
    if rows == [] then 0
    else
      var w0 := MaxWidth(rows[..|rows| - 1]);
      if |rows[|rows| - 1]| > w0 then |rows[|rows| - 1]| else w0
  }

  /** Cell `col` of header row `k` */
  function HeaderCell(rows: seq<Row>, k: nat, col: int): Cell {
    if k < |rows| then At(rows[k], col) else Blank
  }

  /** The number of the leftmost match of /less than (\d+)/i */
  function LessThanNumber(s: string): Option<int> {
    LessThanFrom(ToLower(s), 0)
  }

  function LessThanFrom(t: string, i: nat): Option<int>
    decreases |t| - i
  {
    if i + 10 >= |t| then None
    else if t[i..i + 10] == "less than " && IsDigit(t[i + 10]) then
      var d := t[i + 10..];
      Some(DigitsValue(d[..DigitRun(d, 10)], 10))
    else LessThanFrom(t, i + 1)
  }

  /** `parseInt(s, 10)`, and when that is NaN `Math.floor(Number(s))` if finite */
  function IntOrNumber(s: string): Option<int> {
    match ParseInt10(s)
    case Some(n) => Some(n)
    case None => NumberOf(s)
  }

  /** The day cell of a purchase column in the detail layout */
  function DetailPurchaseDays(s: string): Option<int> {
    if s != "" && Includes(ToLower(s), "less than") then LessThanNumber(s) else IntOrNumber(s)
  }

  /** What a column of definitions describes */
  datatype Column = NoColumn | LevelColumn(level: PartialLevel) | PurchaseColumn(event: PartialPurchaseEvent)

  /** A column of the detail layout: rows 0 to 3 hold token, name, days and time. A '$$$' name
      marks a purchase event; a level without time reads 0. */
  function DetailColumn(rows: seq<Row>, col: int): (c: Column)
    ensures c.PurchaseColumn? ==> c.event.eventToken.Some? && c.event.isRestricted == Some(false)
    ensures c.LevelColumn? ==> c.level.eventToken.Some? && c.level.levelName.Some? && c.level.isBonus == Some(false)
    ensures c.LevelColumn? ==> c.level.levelName.value != "$$$"
  {
    var token := TrimmedOrEmpty(HeaderCell(rows, 0, col));
    var name := TrimmedOrEmpty(HeaderCell(rows, 1, col));
    var days := TrimmedUnlessBlank(HeaderCell(rows, 2, col));
    var time := TrimmedUnlessBlank(HeaderCell(rows, 3, col));
    if token == "" then NoColumn
    else if name == "$$$" then
      PurchaseColumn(PartialPurchaseEvent(Some(token), Some(false), DetailPurchaseDays(days), None))
    else
      LevelColumn(PartialLevel(Some(token), Some(name),
        if days != "-" && days != "" then IntOrNumber(days) else None,
        if time != "-" && time != "" then ParseInt(time) else Some(0),
        Some(false), None))
  }

  /** The bonus heuristic: 'bonus' or 'extra' in any case, or '+' followed by a digit */
  predicate IsBonusName(name: string) {
    Includes(ToLower(name), "bonus") || Includes(ToLower(name), "extra")
    || exists i :: 0 <= i < |name| - 1 && name[i] == '+' && IsDigit(name[i + 1])
  }

  /** A column of the game-detail layout: every cell is read only when truthy. */
  function VerticalColumn(rows: seq<Row>, col: int): (c: Column)
    ensures c.PurchaseColumn? ==> c.event.eventToken.Some? && c.event.isRestricted == Some(false)
    ensures c.LevelColumn? ==> c.level.eventToken.Some? && c.level.levelName.Some?
    ensures c.LevelColumn? ==> (c.level.isBonus == Some(true) <==> IsBonusName(c.level.levelName.value))
  {
    var token := TrimmedOrEmpty(HeaderCell(rows, 0, col));
    var name := TrimmedOrEmpty(HeaderCell(rows, 1, col));
    var days := TrimmedOrEmpty(HeaderCell(rows, 2, col));
    var time := TrimmedOrEmpty(HeaderCell(rows, 3, col));
    if token == "" then NoColumn
    else if name == "$$$" then
      PurchaseColumn(PartialPurchaseEvent(Some(token), Some(false),
        if days != "" && Includes(ToLower(days), "less than") then LessThanNumber(days) else ParseInt(days),
        None))
    else
      LevelColumn(PartialLevel(Some(token), Some(name),
        if days != "-" && days != "" then ParseInt(days) else None,
        if time != "-" && time != "" then ParseInt(time) else None,
        Some(IsBonusName(name)), None))
  }

  function ColumnAt(rows: seq<Row>, col: int, detail: bool): Column {
    if detail then DetailColumn(rows, col) else VerticalColumn(rows, col)
  }

  /** The columns of a sheet in one of the two layouts, as a reader of column indices */
  function Columns(rows: seq<Row>, detail: bool): nat -> Column {
    col => ColumnAt(rows, col, detail)
  }

  /** The keep test of a level column: a name, and in the detail layout days and time too */
  predicate KeepColumnLevel(l: PartialLevel, detail: bool) {
    l.levelName.Some? && l.levelName.value != "" && (detail ==> l.daysOffset.Some? && l.timeSpent.Some?)
  }

  /** The kept levels of columns lo..hi-1, left to right */
  function ColumnLevels(read: nat -> Column, lo: nat, hi: nat, detail: bool): (r: seq<PartialLevel>)
    ensures |r| <= if hi <= lo then 0 else hi - lo
    ensures forall l :: l in r ==> KeepColumnLevel(l, detail)
    decreases hi
  {
    if hi <= lo then []
    else
      var c := read(hi - 1);
      ColumnLevels(read, lo, hi - 1, detail) + (if c.LevelColumn? && KeepColumnLevel(c.level, detail) then [c.level] else [])
  }

  /** The purchase events of columns lo..hi-1, left to right */
  function ColumnPurchases(read: nat -> Column, lo: nat, hi: nat): (r: seq<PartialPurchaseEvent>)
    ensures |r| <= if hi <= lo then 0 else hi - lo
    decreases hi
  {
    if hi <= lo then []
    else
      var c := read(hi - 1);
      ColumnPurchases(read, lo, hi - 1) + (if c.PurchaseColumn? then [c.event] else [])
  }

  /** The kept levels are exactly the level columns of the range that pass the keep test. */
  lemma {:induction false} ColumnLevelsMembers(read: nat -> Column, lo: nat, hi: nat, detail: bool)
    ensures forall l :: l in ColumnLevels(read, lo, hi, detail) ==> exists col :: lo <= col < hi && read(col) == LevelColumn(l)
    ensures forall col :: lo <= col < hi && read(col).LevelColumn? && KeepColumnLevel(read(col).level, detail)
              ==> read(col).level in ColumnLevels(read, lo, hi, detail)
    decreases hi
  {
    if hi > lo {
      ColumnLevelsMembers(read, lo, hi - 1, detail);
    }
  }

  /** The purchase events are exactly the purchase columns of the range. */
  lemma {:induction false} ColumnPurchasesMembers(read: nat -> Column, lo: nat, hi: nat)
    ensures forall e :: e in ColumnPurchases(read, lo, hi) ==> exists col :: lo <= col < hi && read(col) == PurchaseColumn(e)
    ensures forall col :: lo <= col < hi && read(col).PurchaseColumn? ==> read(col).event in ColumnPurchases(read, lo, hi)
    decreases hi
  {
    if hi > lo {
      ColumnPurchasesMembers(read, lo, hi - 1);
    }
  }

  /** The column loop shared by both layouts: a '$$$' column is a purchase event, any other
      filled column a level when it passes the keep test. */
  method ParseColumns(read: nat -> Column, lo: nat, hi: nat, detail: bool)
    returns (levels: seq<PartialLevel>, events: seq<PartialPurchaseEvent>)
    ensures levels == ColumnLevels(read, lo, hi, detail)
    ensures events == ColumnPurchases(read, lo, hi)
  {
    levels, events := [], [];
    if hi <= lo {
      return;
    }
    var col := lo;
    while col < hi
      invariant lo <= col <= hi
      invariant levels == ColumnLevels(read, lo, col, detail)
      invariant events == ColumnPurchases(read, lo, col)
    {
      var c := read(col);
      if c.PurchaseColumn? {
        events := events + [c.event];
      } else if c.LevelColumn? && KeepColumnLevel(c.level, detail) {
        levels := levels + [c.level];
      }
      col := col + 1;
    }
  }

  /** Every level read from the detail layout has a token and is not a bonus level; every
      purchase event read from either layout is unrestricted. */
  lemma {:induction false} ColumnDefinitionsShape(rows: seq<Row>, lo: nat, hi: nat, detail: bool)
    ensures forall l :: l in ColumnLevels(Columns(rows, detail), lo, hi, detail) ==>
              l.eventToken.Some? && (detail ==> l.isBonus == Some(false))
    ensures forall e :: e in ColumnPurchases(Columns(rows, detail), lo, hi) ==>
              e.eventToken.Some? && e.isRestricted == Some(false)
  {
    var read := Columns(rows, detail);
    ColumnLevelsMembers(read, lo, hi, detail);
    ColumnPurchasesMembers(read, lo, hi);
    forall l | l in ColumnLevels(read, lo, hi, detail)
      ensures l.eventToken.Some? && (detail ==> l.isBonus == Some(false))
    {
      var col :| lo <= col < hi && read(col) == LevelColumn(l);
      assert ColumnAt(rows, col, detail) == LevelColumn(l);
    }
    forall e | e in ColumnPurchases(read, lo, hi)
      ensures e.eventToken.Some? && e.isRestricted == Some(false)
    {
      var col :| lo <= col < hi && read(col) == PurchaseColumn(e);
      assert ColumnAt(rows, col, detail) == PurchaseColumn(e);
    }
  }

  /** The definitions a layout yields */
  datatype Definitions = Definitions(levels: seq<PartialLevel>, purchaseEvents: seq<PartialPurchaseEvent>)

  /** `parseVerticalLayoutData`: columns from 1 up to the widest row, when there are four rows */
  function VerticalLayout(rows: seq<Row>): Definitions {
    if |rows| < 4 then Definitions([], [])
    else
      var w := MaxWidth(rows);
      Definitions(ColumnLevels(Columns(rows, false), 1, w, false), ColumnPurchases(Columns(rows, false), 1, w))
  }

  method ParseVerticalLayoutData(rows: seq<Row>) returns (d: Definitions)
    ensures d == VerticalLayout(rows)
  {
    if |rows| < 4 {
      return Definitions([], []);
    }
    var levels, events := ParseColumns(Columns(rows, false), 1, MaxWidth(rows), false);
    return Definitions(levels, events);
  }

  const IMPORTED_TEMPLATE := "Needs to be filled in - imported from Excel export"

  /** An account row of the detail layout: three cells and a name are needed. `isoParses` says
      whether the JavaScript Date parser accepts a YYYY-MM-DD text. */
  function DetailAccount(row: Row, isoParses: string -> bool): (a: Option<PartialAccount>)
    ensures a.Some? <==> |row| >= 3 && TrimmedOrEmpty(At(row, 0)) != ""
    ensures a.Some? ==> a.value.name == Some(TrimmedOrEmpty(At(row, 0)))
                        && a.value.requestTemplate == Some(IMPORTED_TEMPLATE) && a.value.gameName == None
  {
    if |row| < 3 then None
    else
      var name := TrimmedOrEmpty(At(row, 0));
      var date := TrimmedOrEmpty(At(row, 1));
      var time := TrimmedOrEmpty(At(row, 2));
      if name == "" then None
      else
        Some(PartialAccount(Some(name), ExcelDateTime.NormalizeStartDate(date, isoParses(date)),
          if time == "" then None else ExcelDateTime.NormalizeStartTime(time),
          Some(IMPORTED_TEMPLATE), if Truthy(At(row, 3)) then Some(TrimmedOrEmpty(At(row, 3))) else None,
          None, None))
  }

  /** The account rows of a sheet, as a reader of row indices */
  function AccountRows(rows: seq<Row>, isoParses: string -> bool): nat -> Option<PartialAccount> {
    (i: nat) => if i < |rows| then DetailAccount(rows[i], isoParses) else None
  }

  /** The accounts below the header row h, in row order */
  function DetailAccounts(rows: seq<Row>, h: nat, isoParses: string -> bool): seq<PartialAccount> {
    Scan.Gather(AccountRows(rows, isoParses), h + 1, |rows|)
  }

  /** Each account row below the header is read, and only those: every account has a non-empty
      name and the placeholder request template. */
  lemma DetailAccountsShape(rows: seq<Row>, h: nat, isoParses: string -> bool)
    ensures forall a :: a in DetailAccounts(rows, h, isoParses) ==>
              a.name.Some? && a.name.value != "" && a.requestTemplate == Some(IMPORTED_TEMPLATE)
    ensures forall i :: h < i < |rows| && |rows[i]| >= 3 && TrimmedOrEmpty(At(rows[i], 0)) != "" ==>
              DetailAccount(rows[i], isoParses).value in DetailAccounts(rows, h, isoParses)
  {
    DetailAccountsNamed(rows, h, isoParses);
    DetailAccountsComplete(rows, h, isoParses);
  }

  lemma DetailAccountsNamed(rows: seq<Row>, h: nat, isoParses: string -> bool)
    ensures forall a :: a in DetailAccounts(rows, h, isoParses) ==>
              a.name.Some? && a.name.value != "" && a.requestTemplate == Some(IMPORTED_TEMPLATE)
  {
    var read := AccountRows(rows, isoParses);
    Scan.GatherMembers(read, h + 1, |rows|);
    forall a | a in DetailAccounts(rows, h, isoParses)
      ensures a.name.Some? && a.name.value != "" && a.requestTemplate == Some(IMPORTED_TEMPLATE)
    {
      var i :| h + 1 <= i < |rows| && read(i) == Some(a);
      AccountRowRead(rows, isoParses, i);
    }
  }

  lemma DetailAccountsComplete(rows: seq<Row>, h: nat, isoParses: string -> bool)
    ensures forall i :: h < i < |rows| && |rows[i]| >= 3 && TrimmedOrEmpty(At(rows[i], 0)) != "" ==>
              DetailAccount(rows[i], isoParses).value in DetailAccounts(rows, h, isoParses)
  {
    var read := AccountRows(rows, isoParses);
    Scan.GatherMembers(read, h + 1, |rows|);
    forall i | h < i < |rows| && |rows[i]| >= 3 && TrimmedOrEmpty(At(rows[i], 0)) != ""
      ensures DetailAccount(rows[i], isoParses).value in DetailAccounts(rows, h, isoParses)
    {
      AccountRowRead(rows, isoParses, i);
    }
  }

  lemma AccountRowRead(rows: seq<Row>, isoParses: string -> bool, i: nat)
    requires i < |rows|
    ensures AccountRows(rows, isoParses)(i) == DetailAccount(rows[i], isoParses)
  {
  }

  /** What `parseAccountsDetailVerticalLayout` returns */
  datatype Layout = Layout(levels: seq<PartialLevel>, purchaseEvents: seq<PartialPurchaseEvent>, accounts: seq<PartialAccount>)

  /** Definitions from column 4 up to the widest row above the account header, accounts below it;
      without an account header, the game-detail layout. */
  function DetailLayout(rows: seq<Row>, isoParses: string -> bool): Layout {
    if |rows| < 6 then Layout([], [], [])
    else
      var h := AccountHeaderRow(rows, 4);
      if h == -1 then
        var v := VerticalLayout(rows);
        Layout(v.levels, v.purchaseEvents, [])
      else
        var w := MaxWidth(rows[..h]);
        Layout(ColumnLevels(Columns(rows, true), 4, w, true), ColumnPurchases(Columns(rows, true), 4, w),
               DetailAccounts(rows, h, isoParses))
  }

  method ParseAccountsDetailVerticalLayout(rows: seq<Row>, isoParses: string -> bool) returns (layout: Layout)
    ensures layout == DetailLayout(rows, isoParses)
  {
    if |rows| < 6 {
      return Layout([], [], []);
    }
    var h := FindAccountHeaderRow(rows);
    if h == -1 {
      var v := ParseVerticalLayoutData(rows);
      return Layout(v.levels, v.purchaseEvents, []);
    }
    var levels, events := ParseColumns(Columns(rows, true), 4, MaxWidth(rows[..h]), true);
    var accounts := Scan.GatherLoop(AccountRows(rows, isoParses), h + 1, |rows|);
    return Layout(levels, events, accounts);
  }

  /** The 'Less Than n' day text the column builder writes for a purchase reads back as n. */
  lemma LessThanReadsBack(n: nat)
    ensures LessThanNumber("Less Than " + NatToString(n)) == Some(n)
    ensures DetailPurchaseDays("Less Than " + NatToString(n)) == Some(n)
  {
    var d := NatToString(n);
    NatToStringValue(n);
    LowerLessThan(d);
    LessThanDigits(d);
    assert OccursAt("less than " + d, "less than", 0);
    IncludesIff("less than " + d, "less than");
  }

  /** Lower-casing leaves the digits alone. */
  lemma LowerLessThan(d: string)
    requires AllDigits(d)
    ensures ToLower("Less Than " + d) == "less than " + d
  {
    var s := "Less Than " + d;
    var t := ToLower(s);
    forall i | 10 <= i < |s| ensures t[i] == s[i] {
      assert IsDigit(d[i - 10]);
    }
  }

  /** The pattern at the start reads all the digits. */
  lemma LessThanDigits(d: string)
    requires d != [] && AllDigits(d)
    ensures LessThanFrom("less than " + d, 0) == Some(DigitsValue(d, 10))
  {
    var t := "less than " + d;
    assert t[0..10] == "less than ";
    assert t[10..] == d + [];
    DigitRunOfDigits(d, []);
    assert d[..DigitRun(d, 10)] == d;
  }

  // ---- completion marks of a matrix sheet ----

  /** One `progress` entry of the import */
  datatype ProgressEntry = ProgressEntry(
    gameName: string,
    accountName: string,
    levelName: Option<string>,
    purchaseToken: Option<string>,
    token: string,
    isCompleted: bool)

  /** A definitions column header: its name, its token, and whether it is a purchase */
  datatype ColHeader = ColHeader(name: string, token: string, isPurchase: bool)

  /** The header of column `col`, when its token cell is filled */
  function ColumnHeader(rows: seq<Row>, col: int): (h: Option<ColHeader>)
    ensures h.Some? ==> h.value.token != "" && (h.value.isPurchase <==> h.value.name == "$$$")
  {
    var token := TrimmedOrEmpty(HeaderCell(rows, 0, col));
    var name := TrimmedOrEmpty(HeaderCell(rows, 1, col));
    if token == "" then None else Some(ColHeader(name, token, name == "$$$"))
  }

  /** `colHeaders`: the filled headers of columns lo..hi-1, with the empty ones left out */
  function ColHeaders(rows: seq<Row>, lo: nat, hi: nat): (r: seq<ColHeader>)
    decreases hi
  {
    if hi <= lo then []
    else
      var h := ColumnHeader(rows, hi - 1);
      ColHeaders(rows, lo, hi - 1) + (if h.Some? then [h.value] else [])
  }

  /** The entry recorded for a completed column */
  function EntryFor(game: string, account: string, h: ColHeader): (e: ProgressEntry)
    ensures e.isCompleted && e.token == h.token && e.gameName == game && e.accountName == account
    ensures e.purchaseToken.Some? <==> h.isPurchase
    ensures e.purchaseToken.Some? ==> e.purchaseToken.value == h.token
    ensures e.levelName.Some? <==> !h.isPurchase
  {
    ProgressEntry(game, account, if h.isPurchase then None else Some(h.name),
                  if h.isPurchase then Some(h.token) else None, h.token, true)
  }

  /** A cell whose trimmed text ends with "(C)" */
  predicate Marked(row: Row, col: int) {
    EndsWith(TrimmedOrEmpty(At(row, col)), "(C)")
  }

  /** The marks of one account row as the code reads them: the mark in column `col` takes the
      header at position col-4 of the compacted header list. */
  function MarksAsWritten(game: string, headers: seq<ColHeader>, account: string, row: Row): nat -> Option<ProgressEntry> {
    col => if 4 <= col && Marked(row, col) && col - 4 < |headers| then Some(EntryFor(game, account, headers[col - 4])) else None
  }

  /** The marks of one account row, each under the header of its own column */
  function Marks(game: string, rows: seq<Row>, account: string, row: Row): nat -> Option<ProgressEntry> {
    col => var h := ColumnHeader(rows, col);
      if Marked(row, col) && h.Some? then Some(EntryFor(game, account, h.value)) else None
  }

  /** The entries of one account row, from column 4 on */
  function RowMarks(game: string, rows: seq<Row>, account: string, row: Row): seq<ProgressEntry> {
    Scan.Gather(Marks(game, rows, account, row), 4, |row|)
  }

  /** A row yields exactly one entry per marked column from 4 on that has a header, each naming
      that column's header, the game and the account. */
  lemma RowMarksExact(game: string, rows: seq<Row>, account: string, row: Row)
    ensures forall col :: 4 <= col < |row| && Marked(row, col) && ColumnHeader(rows, col).Some?
              ==> EntryFor(game, account, ColumnHeader(rows, col).value) in RowMarks(game, rows, account, row)
    ensures forall e :: e in RowMarks(game, rows, account, row) ==>
              exists col :: 4 <= col < |row| && Marked(row, col) && ColumnHeader(rows, col).Some?
                            && e == EntryFor(game, account, ColumnHeader(rows, col).value)
  {
    var read := Marks(game, rows, account, row);
    Scan.GatherMembers(read, 4, |row|);
    forall col | 4 <= col < |row| && Marked(row, col) && ColumnHeader(rows, col).Some?
      ensures EntryFor(game, account, ColumnHeader(rows, col).value) in RowMarks(game, rows, account, row)
    {
      assert read(col) == Some(EntryFor(game, account, ColumnHeader(rows, col).value));
    }
    forall e | e in RowMarks(game, rows, account, row)
      ensures exists col :: 4 <= col < |row| && Marked(row, col) && ColumnHeader(rows, col).Some?
                            && e == EntryFor(game, account, ColumnHeader(rows, col).value)
    {
      var col :| 4 <= col < |row| && read(col) == Some(e);
    }
  }

  /** Whether a row is an account row of the marks loop, and its account name */
  function MarkRowAccount(row: Row): Option<string> {
    if Truthy(At(row, 0)) then Some(TrimmedOrEmpty(At(row, 0))) else None
  }

  /** The header list the code indexes, taken from the rows above the account header */
  function HeaderList(rows: seq<Row>, h: nat): seq<ColHeader> {
    ColHeaders(rows, 4, MaxWidth(if h <= |rows| then rows[..h] else rows))
  }

  /** The entries of each account row as the code reads them */
  function AccountMarksAsWritten(game: string, rows: seq<Row>, headers: seq<ColHeader>): nat -> seq<ProgressEntry> {
    (i: nat) => if i >= |rows| then []
      else match MarkRowAccount(rows[i])
        case None => []
        case Some(account) => Scan.Gather(MarksAsWritten(game, headers, account, rows[i]), 4, |rows[i]|)
  }

  /** The entries of each account row */
  function AccountMarks(game: string, rows: seq<Row>): nat -> seq<ProgressEntry> {
    (i: nat) => if i >= |rows| then []
      else match MarkRowAccount(rows[i])
        case None => []
        case Some(account) => RowMarks(game, rows, account, rows[i])
  }

  /** The marks of the account rows below header row h as the code reads them */
  function MatrixProgressAsWritten(game: string, rows: seq<Row>, h: nat): seq<ProgressEntry> {
    Scan.Flatten(AccountMarksAsWritten(game, rows, HeaderList(rows, h)), h + 1, |rows|)
  }

  /** The marks of the account rows below header row h, each under its own column's header */
  function MatrixProgress(game: string, rows: seq<Row>, h: nat): seq<ProgressEntry> {
    Scan.Flatten(AccountMarks(game, rows), h + 1, |rows|)
  }

  /** Each row's entries, read by `read`, complete the sheet's game for that row's account. */
  ghost predicate RowsComplete(read: nat -> seq<ProgressEntry>, game: string, rows: seq<Row>) {
    forall i: nat, e :: i < |rows| && e in read(i) ==>
      e.isCompleted && e.gameName == game && MarkRowAccount(rows[i]) == Some(e.accountName)
  }

  lemma AccountMarksComplete(game: string, rows: seq<Row>)
    ensures RowsComplete(AccountMarks(game, rows), game, rows)
  {
    forall i: nat | i < |rows| {
      AccountRowComplete(game, rows, i);
    }
  }

  lemma AccountRowComplete(game: string, rows: seq<Row>, i: nat)
    requires i < |rows|
    ensures forall e :: e in AccountMarks(game, rows)(i) ==>
              e.isCompleted && e.gameName == game && MarkRowAccount(rows[i]) == Some(e.accountName)
  {
    forall e | e in AccountMarks(game, rows)(i)
      ensures e.isCompleted && e.gameName == game && MarkRowAccount(rows[i]) == Some(e.accountName)
    {
      AccountRowEntry(game, rows, i, e);
    }
  }

  lemma FlattenComplete(read: nat -> seq<ProgressEntry>, game: string, rows: seq<Row>, h: nat)
    requires RowsComplete(read, game, rows)
    ensures forall e :: e in Scan.Flatten(read, h + 1, |rows|) ==>
              e.isCompleted && e.gameName == game
              && exists i :: h < i < |rows| && MarkRowAccount(rows[i]) == Some(e.accountName)
  {
    Scan.FlattenMembers(read, h + 1, |rows|);
    forall e | e in Scan.Flatten(read, h + 1, |rows|)
      ensures e.isCompleted && e.gameName == game
              && exists i :: h < i < |rows| && MarkRowAccount(rows[i]) == Some(e.accountName)
    {
      var i :| h + 1 <= i < |rows| && e in read(i);
      assert h < i < |rows| && MarkRowAccount(rows[i]) == Some(e.accountName);
    }
  }

  /** Every entry of the matrix is a completion of the sheet's game by one of its account rows. */
  lemma MatrixProgressAccounts(game: string, rows: seq<Row>, h: nat)
    ensures forall e :: e in MatrixProgress(game, rows, h) ==>
              e.isCompleted && e.gameName == game
              && exists i :: h < i < |rows| && MarkRowAccount(rows[i]) == Some(e.accountName)
  {
    AccountMarksComplete(game, rows);
    FlattenComplete(AccountMarks(game, rows), game, rows, h);
  }

  /** An entry of account row i completes the sheet's game for that row's account. */
  lemma AccountRowEntry(game: string, rows: seq<Row>, i: nat, e: ProgressEntry)
    requires i < |rows| && e in AccountMarks(game, rows)(i)
    ensures e.isCompleted && e.gameName == game && MarkRowAccount(rows[i]) == Some(e.accountName)
  {
    var account := MarkRowAccount(rows[i]);
    assert AccountMarks(game, rows)(i) == if account.Some? then RowMarks(game, rows, account.value, rows[i]) else [];
    RowMarksExact(game, rows, account.value, rows[i]);
    var col :| 4 <= col < |rows[i]| && Marked(rows[i], col) && ColumnHeader(rows, col).Some?
               && e == EntryFor(game, account.value, ColumnHeader(rows, col).value);
  }

  /** The marks loop of one account row */
  method ExtractRowMarks(game: string, rows: seq<Row>, account: string, row: Row) returns (entries: seq<ProgressEntry>)
    ensures entries == RowMarks(game, rows, account, row)
  {
    entries := [];
    if |row| <= 4 {
      return;
    }
    var col := 4;
    while col < |row|
      invariant 4 <= col <= |row|
      invariant entries == Scan.Gather(Marks(game, rows, account, row), 4, col)
    {
      var header := ColumnHeader(rows, col);
      if Marked(row, col) && header.Some? {
        entries := entries + [EntryFor(game, account, header.value)];
      }
      col := col + 1;
    }
  }

  /** One more account row in the marks loop */
  lemma AccountMarksAt(game: string, rows: seq<Row>, h: nat, i: nat)
    requires h + 1 <= i < |rows|
    ensures Scan.Flatten(AccountMarks(game, rows), h + 1, i + 1) == Scan.Flatten(AccountMarks(game, rows), h + 1, i)
              + (if MarkRowAccount(rows[i]).Some? then RowMarks(game, rows, MarkRowAccount(rows[i]).value, rows[i]) else [])
  {
  }

  /** The marks loop over the account rows below header row h */
  method ExtractProgress(game: string, rows: seq<Row>, h: nat) returns (entries: seq<ProgressEntry>)
    ensures entries == MatrixProgress(game, rows, h)
  {
    entries := [];
    if |rows| <= h + 1 {
      return;
    }
    var i := h + 1;
    while i < |rows|
      invariant h + 1 <= i <= |rows|
      invariant entries == Scan.Flatten(AccountMarks(game, rows), h + 1, i)
    {
      var row := rows[i];
      var account := MarkRowAccount(row);
      AccountMarksAt(game, rows, h, i);
      if account.Some? {
        var marks := ExtractRowMarks(game, rows, account.value, row);
        entries := entries + marks;
      }
      i := i + 1;
    }
  }

  /** A text that `trim()` leaves as it is and that is not empty */
  predicate Trimmed(s: string) {
    s != [] && !IsSpace(s[0]) && !IsSpace(s[|s| - 1])
  }

  /** A matrix sheet whose column 4 has no token and whose column 5 has token t and name n; account
      a marks column 4 and account b marks column 5, both with the mark text m */
  function GapSheet(t: string, n: string, a: string, b: string, m: string): seq<Row> {
    [[Blank, Blank, Blank, Blank, Blank, Text(t)],
     [Blank, Blank, Blank, Blank, Blank, Text(n)],
     [], [],
     [Text("Account")],
     [Text(a), Blank, Blank, Blank, Text(m), Blank],
     [Text(b), Blank, Blank, Blank, Blank, Text(m)]]
  }

  lemma GapWidth(t: string, n: string, a: string, b: string, m: string)
    ensures MaxWidth(GapSheet(t, n, a, b, m)[..4]) == 6
  {
    var top := GapSheet(t, n, a, b, m)[..4];
    assert top[..1][..0] == [];
    assert top[..2][..1] == top[..1];
    assert top[..3][..2] == top[..2];
    assert top[..3] == top[..4][..3];
    assert MaxWidth(top[..1]) == 6;
    assert MaxWidth(top[..2]) == 6;
    assert MaxWidth(top[..3]) == 6;
  }

  lemma GapColumns(t: string, n: string, a: string, b: string, m: string)
    requires Trimmed(t) && Trimmed(n)
    ensures var rows := GapSheet(t, n, a, b, m);
      ColumnHeader(rows, 4) == None && ColumnHeader(rows, 5) == Some(ColHeader(n, t, n == "$$$"))
  {
    var rows := GapSheet(t, n, a, b, m);
    TrimOfTrimmed(t);
    TrimOfTrimmed(n);
    assert HeaderCell(rows, 0, 4) == Blank && HeaderCell(rows, 0, 5) == Text(t) && HeaderCell(rows, 1, 5) == Text(n);
  }

  lemma GapHeaders(t: string, n: string, a: string, b: string, m: string)
    requires Trimmed(t) && Trimmed(n)
    ensures HeaderList(GapSheet(t, n, a, b, m), 4) == [ColHeader(n, t, n == "$$$")]
  {
    var rows := GapSheet(t, n, a, b, m);
    GapWidth(t, n, a, b, m);
    GapFirstHeader(t, n, a, b, m);
    assert HeaderList(rows, 4) == ColHeaders(rows, 4, 6);
  }

  lemma GapFirstHeader(t: string, n: string, a: string, b: string, m: string)
    requires Trimmed(t) && Trimmed(n)
    ensures ColHeaders(GapSheet(t, n, a, b, m), 4, 6) == [ColHeader(n, t, n == "$$$")]
  {
    GapColumns(t, n, a, b, m);
    SecondColumnOnly(GapSheet(t, n, a, b, m), ColHeader(n, t, n == "$$$"));
  }

  /** Columns 4 and 5, of which only 5 has a token, give one header. */
  lemma SecondColumnOnly(rows: seq<Row>, hd: ColHeader)
    requires ColumnHeader(rows, 4) == None && ColumnHeader(rows, 5) == Some(hd)
    ensures ColHeaders(rows, 4, 6) == [hd]
  {
    assert ColHeaders(rows, 4, 5) == [];
  }

  lemma GapAccounts(t: string, n: string, a: string, b: string, m: string)
    requires Trimmed(a) && Trimmed(b)
    ensures var rows := GapSheet(t, n, a, b, m);
      MarkRowAccount(rows[5]) == Some(a) && MarkRowAccount(rows[6]) == Some(b)
  {
    TrimOfTrimmed(a);
    TrimOfTrimmed(b);
  }

  lemma GapMarks(t: string, n: string, a: string, b: string, m: string)
    requires Trimmed(m) && EndsWith(m, "(C)")
    ensures var rows := GapSheet(t, n, a, b, m);
      Marked(rows[5], 4) && !Marked(rows[5], 5) && !Marked(rows[6], 4) && Marked(rows[6], 5)
  {
    var rows := GapSheet(t, n, a, b, m);
    MarkedText(rows[5], 4, m);
    MarkedText(rows[6], 5, m);
    UnmarkedBlank(rows[5], 5);
    UnmarkedBlank(rows[6], 4);
  }

  lemma MarkedText(row: Row, col: int, m: string)
    requires At(row, col) == Text(m) && Trimmed(m) && EndsWith(m, "(C)")
    ensures Marked(row, col)
  {
    TrimOfTrimmed(m);
  }

  lemma UnmarkedBlank(row: Row, col: int)
    requires At(row, col) == Blank
    ensures !Marked(row, col)
  {
  }

  /** The marks readings of a sheet with two account rows below header row 4, from facts about
      its cells alone */
  lemma TwoRowsAsWritten(game: string, rows: seq<Row>, hd: ColHeader, a: string, b: string)
    requires |rows| == 7 && |rows[5]| == 6 && |rows[6]| == 6 && HeaderList(rows, 4) == [hd]
    requires MarkRowAccount(rows[5]) == Some(a) && MarkRowAccount(rows[6]) == Some(b)
    requires Marked(rows[5], 4) && !Marked(rows[5], 5) && !Marked(rows[6], 4)
    ensures MatrixProgressAsWritten(game, rows, 4) == [EntryFor(game, a, hd)]
  {
    FirstMarkAsWritten(game, hd, a, rows[5]);
    SecondMarkAsWritten(game, hd, b, rows[6]);
  }

  lemma TwoRows(game: string, rows: seq<Row>, hd: ColHeader, a: string, b: string)
    requires |rows| == 7 && |rows[5]| == 6 && |rows[6]| == 6
    requires ColumnHeader(rows, 4) == None && ColumnHeader(rows, 5) == Some(hd)
    requires MarkRowAccount(rows[5]) == Some(a) && MarkRowAccount(rows[6]) == Some(b)
    requires !Marked(rows[5], 5) && !Marked(rows[6], 4) && Marked(rows[6], 5)
    ensures MatrixProgress(game, rows, 4) == [EntryFor(game, b, hd)]
  {
    FirstMark(game, rows, a, rows[5]);
    SecondMark(game, rows, hd, b, rows[6]);
  }

  lemma FirstMarkAsWritten(game: string, hd: ColHeader, account: string, row: Row)
    requires Marked(row, 4) && !Marked(row, 5)
    ensures Scan.Gather(MarksAsWritten(game, [hd], account, row), 4, 6) == [EntryFor(game, account, hd)]
  {
    assert Scan.Gather(MarksAsWritten(game, [hd], account, row), 4, 5) == [EntryFor(game, account, hd)];
  }

  lemma SecondMarkAsWritten(game: string, hd: ColHeader, account: string, row: Row)
    requires !Marked(row, 4)
    ensures Scan.Gather(MarksAsWritten(game, [hd], account, row), 4, 6) == []
  {
    assert Scan.Gather(MarksAsWritten(game, [hd], account, row), 4, 5) == [];
  }

  lemma FirstMark(game: string, rows: seq<Row>, account: string, row: Row)
    requires ColumnHeader(rows, 4) == None && !Marked(row, 5)
    ensures Scan.Gather(Marks(game, rows, account, row), 4, 6) == []
  {
    assert Scan.Gather(Marks(game, rows, account, row), 4, 5) == [];
  }

  lemma SecondMark(game: string, rows: seq<Row>, hd: ColHeader, account: string, row: Row)
    requires !Marked(row, 4) && Marked(row, 5) && ColumnHeader(rows, 5) == Some(hd)
    ensures Scan.Gather(Marks(game, rows, account, row), 4, 6) == [EntryFor(game, account, hd)]
  {
    assert Scan.Gather(Marks(game, rows, account, row), 4, 5) == [];
  }

  /** For every such sheet, the code records a's mark under column 5's header and drops b's; the
      corrected reading records b's mark and nothing for a. */
  lemma MarksMisplacedAsWritten(game: string, t: string, n: string, a: string, b: string, m: string)
    requires Trimmed(t) && Trimmed(n) && Trimmed(a) && Trimmed(b) && Trimmed(m) && EndsWith(m, "(C)")
    ensures MatrixProgressAsWritten(game, GapSheet(t, n, a, b, m), 4) == [EntryFor(game, a, ColHeader(n, t, n == "$$$"))]
    ensures MatrixProgress(game, GapSheet(t, n, a, b, m), 4) == [EntryFor(game, b, ColHeader(n, t, n == "$$$"))]
  {
    GapHeaders(t, n, a, b, m);
    GapColumns(t, n, a, b, m);
    GapAccounts(t, n, a, b, m);
    GapMarks(t, n, a, b, m);
    TwoRowsAsWritten(game, GapSheet(t, n, a, b, m), ColHeader(n, t, n == "$$$"), a, b);
    TwoRows(game, GapSheet(t, n, a, b, m), ColHeader(n, t, n == "$$$"), a, b);
  }

  // ---- the workbook ----

  /** A decoded sheet */
  datatype Sheet = Sheet(name: string, rows: seq<Row>)

  /** `ImportData` without the completion-records sheet, which the model leaves out */
  datatype ImportData = ImportData(
    levels: seq<PartialLevel>,
    purchaseEvents: seq<PartialPurchaseEvent>,
    accounts: seq<PartialAccount>,
    progress: seq<ProgressEntry>)

  const EMPTY := ImportData([], [], [], [])

  function Join(a: ImportData, b: ImportData): ImportData {
    ImportData(a.levels + b.levels, a.purchaseEvents + b.purchaseEvents, a.accounts + b.accounts, a.progress + b.progress)
  }

  /** The game of a sheet: the name without its `_Lvl` / `_Evt` suffix */
  function SheetGameName(name: string): (g: string)
    ensures EndsWith(name, "_Lvl") || EndsWith(name, "_Evt") ==> |g| == |name| - 4 && name == g + name[|name| - 4..]
    ensures !EndsWith(name, "_Lvl") && !EndsWith(name, "_Evt") ==> g == name
  {
    if EndsWith(name, "_Lvl") || EndsWith(name, "_Evt") then name[..|name| - 4] else name
  }

  function TagLevels(ls: seq<PartialLevel>, game: string): (r: seq<PartialLevel>)
    ensures |r| == |ls|
    ensures forall i :: 0 <= i < |r| ==> r[i] == ls[i].(gameName := Some(game))
  {
    seq(|ls|, i requires 0 <= i < |ls| => ls[i].(gameName := Some(game)))
  }

  function TagPurchases(es: seq<PartialPurchaseEvent>, game: string): (r: seq<PartialPurchaseEvent>)
    ensures |r| == |es|
    ensures forall i :: 0 <= i < |r| ==> r[i] == es[i].(gameName := Some(game))
  {
    seq(|es|, i requires 0 <= i < |es| => es[i].(gameName := Some(game)))
  }

  function TagAccounts(as_: seq<PartialAccount>, game: string): (r: seq<PartialAccount>)
    ensures |r| == |as_|
    ensures forall i :: 0 <= i < |r| ==> r[i] == as_[i].(gameName := Some(game))
  {
    seq(|as_|, i requires 0 <= i < |as_| => as_[i].(gameName := Some(game)))
  }

  predicate IsDetailFormat(rows: seq<Row>) {
    |rows| >= 6 && exists i :: 4 <= i < 8 && i < |rows| && IsAccountHeader(rows[i])
  }

  /** What one sheet adds. `sheetCount` is the number of sheets in the workbook; `first` tells the
      first pass of the reader, which skips the completion-records sheet and collects the marks;
      `asWritten` picks the marks reading of the code over the corrected one. */
  function SheetData(sheet: Sheet, sheetCount: nat, first: bool, asWritten: bool, isoParses: string -> bool): ImportData {
    var name := sheet.name;
    var rows := sheet.rows;
    if first && name == "Completion_Info" then EMPTY
    else if EndsWith(name, "_Lvl") then ImportData(TagLevels(LevelsRead(rows, false), SheetGameName(name)), [], [], [])
    else if EndsWith(name, "_Evt") then ImportData([], TagPurchases(PurchasesRead(rows), SheetGameName(name)), [], [])
    else if name == "Levels" then ImportData(LevelsRead(rows, false), [], [], [])
    else if name == "Purchase Events" then ImportData([], PurchasesRead(rows), [], [])
    else if name == "Accounts" then ImportData([], [], AccountsRead(rows), [])
    else if IsDetailFormat(rows) then
      var d := DetailLayout(rows, isoParses);
      var h := AccountHeaderRow(rows, 4);
      ImportData(if sheetCount == 1 then d.levels else [], if sheetCount == 1 then d.purchaseEvents else [],
        TagAccounts(d.accounts, name),
        if !first || h < 0 then []
        else if asWritten then MatrixProgressAsWritten(name, rows, h)
        else MatrixProgress(name, rows, h))
    else EMPTY
  }

  /** One pass over the first n sheets */
  function Pass(sheets: seq<Sheet>, n: nat, first: bool, asWritten: bool, isoParses: string -> bool): ImportData
    requires n <= |sheets|
  {
    if n == 0 then EMPTY
    else Join(Pass(sheets, n - 1, first, asWritten, isoParses), SheetData(sheets[n - 1], |sheets|, first, asWritten, isoParses))
  }

  /** One more sheet in a pass */
  lemma PassStep(sheets: seq<Sheet>, i: nat, first: bool, asWritten: bool, isoParses: string -> bool)
    requires i < |sheets|
    ensures Pass(sheets, i + 1, first, asWritten, isoParses)
         == Join(Pass(sheets, i, first, asWritten, isoParses), SheetData(sheets[i], |sheets|, first, asWritten, isoParses))
  {
  }

  /** The body of the sheet loop */
  method ReadSheet(sheet: Sheet, sheetCount: nat, first: bool, asWritten: bool, isoParses: string -> bool)
    returns (d: ImportData)
    ensures d == SheetData(sheet, sheetCount, first, asWritten, isoParses)
  {
    var name := sheet.name;
    var rows := sheet.rows;
    if first && name == "Completion_Info" {
      return EMPTY;
    }
    if EndsWith(name, "_Lvl") {
      var levels := ReadLevelRows(rows, false);
      return ImportData(TagLevels(levels, SheetGameName(name)), [], [], []);
    } else if EndsWith(name, "_Evt") {
      var events := ReadPurchaseRows(rows);
      return ImportData([], TagPurchases(events, SheetGameName(name)), [], []);
    } else if name == "Levels" {
      var levels := ReadLevelRows(rows, false);
      return ImportData(levels, [], [], []);
    } else if name == "Purchase Events" {
      var events := ReadPurchaseRows(rows);
      return ImportData([], events, [], []);
    } else if name == "Accounts" {
      var accounts := ReadAccountRows(rows);
      return ImportData([], [], accounts, []);
    }
    var isDetail := IsAccountsDetailFormat(rows);
    if !isDetail {
      return EMPTY;
    }
    var layout := ParseAccountsDetailVerticalLayout(rows, isoParses);
    d := ImportData([], [], TagAccounts(layout.accounts, name), []);
    if sheetCount == 1 {
      d := d.(levels := layout.levels, purchaseEvents := layout.purchaseEvents);
    }
    if first {
      var h := FindAccountHeaderRow(rows);
      if h >= 0 {
        var progress;
        if asWritten {
          progress := MatrixProgressAsWritten(name, rows, h);
        } else {
          progress := ExtractProgress(name, rows, h);
        }
        d := d.(progress := progress);
      }
    }
  }

  /** One run of the sheet loop */
  method ReadPass(sheets: seq<Sheet>, first: bool, asWritten: bool, isoParses: string -> bool) returns (result: ImportData)
    ensures result == Pass(sheets, |sheets|, first, asWritten, isoParses)
  {
    result := EMPTY;
    var i := 0;
    while i < |sheets|
      invariant 0 <= i <= |sheets|
      invariant result == Pass(sheets, i, first, asWritten, isoParses)
    {
      var d := ReadSheet(sheets[i], |sheets|, first, asWritten, isoParses);
      PassStep(sheets, i, first, asWritten, isoParses);
      result := Join(result, d);
      i := i + 1;
    }
  }

  /** `parseExcelFile` as written: the sheet loop runs a second time, without the completion
      marks, and appends everything it reads once more. */
  method ParseExcelFileAsWritten(sheets: seq<Sheet>, isoParses: string -> bool) returns (result: ImportData)
    ensures result == Join(Pass(sheets, |sheets|, true, true, isoParses), Pass(sheets, |sheets|, false, true, isoParses))
  {
    var firstPass := ReadPass(sheets, true, true, isoParses);
    var secondPass := ReadPass(sheets, false, true, isoParses);
    result := Join(firstPass, secondPass);
  }

  /** `parseExcelFile` with one pass over the sheets and each mark under its own column */
  method ParseExcelFile(sheets: seq<Sheet>, isoParses: string -> bool) returns (result: ImportData)
    ensures result == Pass(sheets, |sheets|, true, false, isoParses)
  {
    result := ReadPass(sheets, true, false, isoParses);
  }

  /** What a `_Lvl` sheet adds, on either pass */
  lemma LevelsSheetData(sheet: Sheet, sheetCount: nat, first: bool, asWritten: bool, isoParses: string -> bool)
    requires EndsWith(sheet.name, "_Lvl") && sheet.name != "Completion_Info"
    ensures SheetData(sheet, sheetCount, first, asWritten, isoParses)
         == ImportData(TagLevels(LevelsRead(sheet.rows, false), SheetGameName(sheet.name)), [], [], [])
  {
  }

  lemma LevelsSheetName(game: string)
    ensures EndsWith(game + "_Lvl", "_Lvl") && game + "_Lvl" != "Completion_Info"
    ensures SheetGameName(game + "_Lvl") == game
  {
    var name := game + "_Lvl";
    assert name[|name| - 4..] == "_Lvl";
    assert name[|name| - 1] == 'l';
  }

  /** A workbook holding only a levels sheet of one game: the code lists its levels twice, the
      corrected reader once, each tagged with the game. */
  lemma LevelsSheetTwice(game: string, rows: seq<Row>, isoParses: string -> bool)
    ensures var sheets := [Sheet(game + "_Lvl", rows)];
      var ls := TagLevels(LevelsRead(rows, false), game);
      Join(Pass(sheets, 1, true, true, isoParses), Pass(sheets, 1, false, true, isoParses)).levels == ls + ls
      && Pass(sheets, 1, true, false, isoParses).levels == ls
  {
    var sheet := Sheet(game + "_Lvl", rows);
    LevelsSheetName(game);
    OneLevelsSheetPass(sheet, true, true, isoParses);
    OneLevelsSheetPass(sheet, false, true, isoParses);
    OneLevelsSheetPass(sheet, true, false, isoParses);
  }

  /** A pass over a workbook of one levels sheet reads that sheet's levels. */
  lemma OneLevelsSheetPass(sheet: Sheet, first: bool, asWritten: bool, isoParses: string -> bool)
    requires EndsWith(sheet.name, "_Lvl") && sheet.name != "Completion_Info"
    ensures Pass([sheet], 1, first, asWritten, isoParses).levels
         == TagLevels(LevelsRead(sheet.rows, false), SheetGameName(sheet.name))
  {
    LevelsSheetData(sheet, 1, first, asWritten, isoParses);
    var ls := TagLevels(LevelsRead(sheet.rows, false), SheetGameName(sheet.name));
    assert Pass([sheet], 1, first, asWritten, isoParses).levels == [] + ls;
    assert [] + ls == ls;
  }
}
