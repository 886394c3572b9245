// The progress tables of the backend: one row per (account, level) and one per (account, purchase
// event), with the create, update and get operations of the progress service. Each table is a
// map from its key to the row's other columns; each SQL statement is one map update. The current
// time is an input, as the RFC 3339 text the service would write.

module ProgressService {
  import opened Options

  /** The columns of `account_level_progress` besides its key */
  datatype LevelRow = LevelRow(isCompleted: bool, completedAt: Option<string>)

  /** The columns of `account_purchase_event_progress` besides its key */
  datatype PurchaseRow = PurchaseRow(isCompleted: bool, daysOffset: int, timeSpent: int, completedAt: Option<string>)

  /** Rows as the get operations return them */
  datatype AccountLevelProgress = AccountLevelProgress(
    accountId: int, levelId: int, isCompleted: bool, completedAt: Option<string>)

  datatype AccountPurchaseEventProgress = AccountPurchaseEventProgress(
    accountId: int, purchaseEventId: int, isCompleted: bool, daysOffset: int, timeSpent: int,
    completedAt: Option<string>)

  datatype UpdatePurchaseRequest = UpdatePurchaseRequest(
    accountId: int, purchaseEventId: int,
    isCompleted: Option<bool>, daysOffset: Option<int>, timeSpent: Option<int>)

  type LevelTable = map<(int, int), LevelRow>
  type PurchaseTable = map<(int, int), PurchaseRow>

  // ---------------------------------------------------------------------------------------------
  // Level progress

  /** `INSERT ... VALUES (?1, ?2, 0) ON CONFLICT DO NOTHING` */
  function CreateLevel(t: LevelTable, accountId: int, levelId: int): LevelTable {
    if (accountId, levelId) in t then t else t[(accountId, levelId) := LevelRow(false, None)]
  }

  /** Creating a row twice is creating it once; afterwards the row exists, a row that existed is
      untouched, a new row is not completed and has no completion time, and no other key changes. */
  lemma CreateLevelIdempotent(t: LevelTable, accountId: int, levelId: int)
    ensures CreateLevel(CreateLevel(t, accountId, levelId), accountId, levelId) == CreateLevel(t, accountId, levelId)
    ensures var t' := CreateLevel(t, accountId, levelId);
      (accountId, levelId) in t'
      && t'[(accountId, levelId)] == (if (accountId, levelId) in t then t[(accountId, levelId)] else LevelRow(false, None))
      && t'.Keys == t.Keys + {(accountId, levelId)}
      && forall k :: k in t && k != (accountId, levelId) ==> t'[k] == t[k]
  {
  }

  /** `UPDATE ... SET is_completed, completed_at WHERE key`, answering whether a row changed */
  function UpdateLevel(t: LevelTable, accountId: int, levelId: int, completed: bool, now: string): (bool, LevelTable) {
    var key := (accountId, levelId);
    if key in t then (true, t[key := LevelRow(completed, if completed then Some(now) else None)])
    else (false, t)
  }

  /** The update answers true exactly when the row existed; the row then has the new state and a
      completion time exactly when completed; no other row and no key changes. */
  lemma UpdateLevelEffect(t: LevelTable, accountId: int, levelId: int, completed: bool, now: string)
    ensures var (changed, t') := UpdateLevel(t, accountId, levelId, completed, now);
      var key := (accountId, levelId);
      (changed <==> key in t)
      && t'.Keys == t.Keys
      && (forall k :: k in t && k != key ==> t'[k] == t[k])
      && (key in t ==> t'[key].isCompleted == completed && (t'[key].completedAt.Some? <==> completed)
                       && (completed ==> t'[key].completedAt == Some(now)))
  {
  }

  /** Marking a row completed after creating it always succeeds. */
  lemma CreateThenUpdateLevel(t: LevelTable, accountId: int, levelId: int, now: string)
    ensures var (changed, t') := UpdateLevel(CreateLevel(t, accountId, levelId), accountId, levelId, true, now);
      changed && t'[(accountId, levelId)] == LevelRow(true, Some(now))
  {
  }

  // ---------------------------------------------------------------------------------------------
  // Purchase event progress

  /** `INSERT ... VALUES (?1, ?2, 0, ?3, ?4) ON CONFLICT DO UPDATE SET days_offset, time_spent` */
  function CreatePurchase(t: PurchaseTable, accountId: int, purchaseEventId: int, daysOffset: int, timeSpent: int): PurchaseTable {
    var key := (accountId, purchaseEventId);
    if key in t then t[key := t[key].(daysOffset := daysOffset, timeSpent := timeSpent)]
    else t[key := PurchaseRow(false, daysOffset, timeSpent, None)]
  }

  /** The upsert leaves the row with the given day offset and time; a row that existed keeps its
      completion state and time, a new one is not completed; no other row changes. */
  lemma CreatePurchaseEffect(t: PurchaseTable, accountId: int, purchaseEventId: int, daysOffset: int, timeSpent: int)
    ensures var t' := CreatePurchase(t, accountId, purchaseEventId, daysOffset, timeSpent);
      var key := (accountId, purchaseEventId);
      t'.Keys == t.Keys + {key}
      && t'[key].daysOffset == daysOffset && t'[key].timeSpent == timeSpent
      && (key in t ==> t'[key].isCompleted == t[key].isCompleted && t'[key].completedAt == t[key].completedAt)
      && (key !in t ==> !t'[key].isCompleted && t'[key].completedAt == None)
      && (forall k :: k in t && k != key ==> t'[k] == t[k])
    ensures CreatePurchase(CreatePurchase(t, accountId, purchaseEventId, daysOffset, timeSpent), accountId, purchaseEventId, daysOffset, timeSpent)
      == CreatePurchase(t, accountId, purchaseEventId, daysOffset, timeSpent)
  {
  }

  /** The row after the partial update: each given field is set, and completing stamps the time */
  function UpdatedRow(row: PurchaseRow, req: UpdatePurchaseRequest, now: string): PurchaseRow {
    PurchaseRow(
      if req.isCompleted.Some? then req.isCompleted.value else row.isCompleted,
      if req.daysOffset.Some? then req.daysOffset.value else row.daysOffset,
      if req.timeSpent.Some? then req.timeSpent.value else row.timeSpent,
      if req.isCompleted == Some(true) then Some(now) else row.completedAt)
  }

  predicate NoFields(req: UpdatePurchaseRequest) {
    req.isCompleted.None? && req.daysOffset.None? && req.timeSpent.None?
  }

  /** `update_purchase_event_progress`: nothing to set answers false; otherwise the row, if any,
      is updated and the answer is whether it existed. */
  function UpdatePurchase(t: PurchaseTable, req: UpdatePurchaseRequest, now: string): (bool, PurchaseTable) {
    var key := (req.accountId, req.purchaseEventId);
    if NoFields(req) then (false, t)
    else if key in t then (true, t[key := UpdatedRow(t[key], req, now)])
    else (false, t)
  }

  /** The update changes only the fields given; `Some(true)` also stamps the completion time and
      `Some(false)` keeps the old one; with no field given nothing happens; the answer is true
      exactly when some field was given and the row exists; no other row changes. */
  lemma UpdatePurchaseEffect(t: PurchaseTable, req: UpdatePurchaseRequest, now: string)
    ensures var (changed, t') := UpdatePurchase(t, req, now);
      var key := (req.accountId, req.purchaseEventId);
      (changed <==> !NoFields(req) && key in t)
      && (NoFields(req) ==> t' == t)
      && t'.Keys == t.Keys
      && (forall k :: k in t && k != key ==> t'[k] == t[k])
      && (changed ==>
            t'[key].isCompleted == (if req.isCompleted.Some? then req.isCompleted.value else t[key].isCompleted)
            && t'[key].daysOffset == (if req.daysOffset.Some? then req.daysOffset.value else t[key].daysOffset)
            && t'[key].timeSpent == (if req.timeSpent.Some? then req.timeSpent.value else t[key].timeSpent)
            && (req.isCompleted == Some(true) ==> t'[key].completedAt == Some(now))
            && (req.isCompleted != Some(true) ==> t'[key].completedAt == t[key].completedAt))
  {
  }

  /** One entry of the SET list the update builds */
  datatype Column = IsCompleted(flag: bool) | CompletedAt(stamp: string) | DaysOffset(days: int) | TimeSpent(spent: int)

  function ColumnText(c: Column): string {
    match c
    case IsCompleted(_) => "is_completed = ?"
    case CompletedAt(_) => "completed_at = ?"
    case DaysOffset(_) => "days_offset = ?"
    case TimeSpent(_) => "time_spent = ?"
  }

  function SetColumn(row: PurchaseRow, c: Column): PurchaseRow {
    match c
    case IsCompleted(flag) => row.(isCompleted := flag)
    case CompletedAt(stamp) => row.(completedAt := Some(stamp))
    case DaysOffset(days) => row.(daysOffset := days)
    case TimeSpent(spent) => row.(timeSpent := spent)
  }

  /** The row after the assignments of a SET list, left to right */
  function SetColumns(row: PurchaseRow, cs: seq<Column>): PurchaseRow
    decreases |cs|
  {
    if cs == [] then row else SetColumns(SetColumn(row, cs[0]), cs[1..])
  }

  lemma {:induction false} SetColumnsSnoc(row: PurchaseRow, cs: seq<Column>, c: Column)
    ensures SetColumns(row, cs + [c]) == SetColumn(SetColumns(row, cs), c)
    decreases |cs|
  {
    if cs != [] {
      assert (cs + [c])[1..] == cs[1..] + [c];
      SetColumnsSnoc(SetColumn(row, cs[0]), cs[1..], c);
    }
  }

  /** The SET list the partial update pushes, in its order */
  function SetList(req: UpdatePurchaseRequest, now: string): seq<Column> {
    (if req.isCompleted.Some? then [IsCompleted(req.isCompleted.value)] else [])
    + (if req.isCompleted == Some(true) then [CompletedAt(now)] else [])
    + (if req.daysOffset.Some? then [DaysOffset(req.daysOffset.value)] else [])
    + (if req.timeSpent.Some? then [TimeSpent(req.timeSpent.value)] else [])
  }

  /** Running the SET list on a row gives the field-wise update, and the list is empty exactly
      when no field is given. */
  lemma SetListApplies(row: PurchaseRow, req: UpdatePurchaseRequest, now: string)
    ensures SetColumns(row, SetList(req, now)) == UpdatedRow(row, req, now)
    ensures SetList(req, now) == [] <==> NoFields(req)
  {
    var a := if req.isCompleted.Some? then [IsCompleted(req.isCompleted.value)] else [];
    var b := if req.isCompleted == Some(true) then [CompletedAt(now)] else [];
    var c := if req.daysOffset.Some? then [DaysOffset(req.daysOffset.value)] else [];
    var d := if req.timeSpent.Some? then [TimeSpent(req.timeSpent.value)] else [];
    SetColumnsConcat(row, a, b);
    SetColumnsConcat(row, a + b, c);
    SetColumnsConcat(row, a + b + c, d);
  }

  lemma {:induction false} SetColumnsConcat(row: PurchaseRow, cs: seq<Column>, ds: seq<Column>)
    ensures SetColumns(row, cs + ds) == SetColumns(SetColumns(row, cs), ds)
    decreases |cs|
  {
    if cs != [] {
      assert (cs + ds)[1..] == cs[1..] + ds;
      SetColumnsConcat(SetColumn(row, cs[0]), cs[1..], ds);
    } else {
      assert cs + ds == ds;
    }
  }

  /** `updates.join(", ")` */
  function JoinColumns(cs: seq<Column>): string {
    if cs == [] then ""
    else if |cs| == 1 then ColumnText(cs[0])
    else ColumnText(cs[0]) + ", " + JoinColumns(cs[1..])
  }

  /** The SQL text of the partial update */
  function UpdateSql(cs: seq<Column>): string {
    "UPDATE account_purchase_event_progress SET " + JoinColumns(cs) + " WHERE account_id = ? AND purchase_event_id = ?"
  }

  // ---------------------------------------------------------------------------------------------
  // Reading the rows of one account

  function LevelView(k: (int, int), row: LevelRow): AccountLevelProgress {
    AccountLevelProgress(k.0, k.1, row.isCompleted, row.completedAt)
  }

  function PurchaseView(k: (int, int), row: PurchaseRow): AccountPurchaseEventProgress {
    AccountPurchaseEventProgress(k.0, k.1, row.isCompleted, row.daysOffset, row.timeSpent, row.completedAt)
  }

  /** The keys of one account's rows */
  function KeysOf<R>(t: map<(int, int), R>, accountId: int): set<(int, int)> {
    set k | k in t && k.0 == accountId
  }

  // ---------------------------------------------------------------------------------------------
  // The service

  class ProgressStore {
    var levels: LevelTable
    var purchases: PurchaseTable

    constructor(levels: LevelTable, purchases: PurchaseTable)
      ensures this.levels == levels && this.purchases == purchases
    {
      this.levels := levels;
      this.purchases := purchases;
    }

    method CreateOrUpdateLevelProgress(accountId: int, levelId: int)
      modifies this
      ensures levels == CreateLevel(old(levels), accountId, levelId)
      ensures purchases == old(purchases)
    {
      if (accountId, levelId) !in levels {
        levels := levels[(accountId, levelId) := LevelRow(false, None)];
      }
    }

    method UpdateLevelProgress(accountId: int, levelId: int, isCompleted: bool, now: string) returns (changed: bool)
      modifies this
      ensures (changed, levels) == UpdateLevel(old(levels), accountId, levelId, isCompleted, now)
      ensures purchases == old(purchases)
    {
      var completedAt := if isCompleted then Some(now) else None;
      changed := (accountId, levelId) in levels;
      if changed {
        levels := levels[(accountId, levelId) := LevelRow(isCompleted, completedAt)];
      }
    }

    method CreateOrUpdatePurchaseEventProgress(accountId: int, purchaseEventId: int, daysOffset: int, timeSpent: int)
      modifies this
      ensures purchases == CreatePurchase(old(purchases), accountId, purchaseEventId, daysOffset, timeSpent)
      ensures levels == old(levels)
    {
      var key := (accountId, purchaseEventId);
      if key in purchases {
        purchases := purchases[key := purchases[key].(daysOffset := daysOffset, timeSpent := timeSpent)];
      } else {
        purchases := purchases[key := PurchaseRow(false, daysOffset, timeSpent, None)];
      }
    }

    /** The pushes onto `updates`, field by field */
    static method BuildSetList(req: UpdatePurchaseRequest, now: string) returns (updates: seq<Column>)
      ensures updates == SetList(req, now)
    {
      updates := [];
      if req.isCompleted.Some? {
        updates := updates + [IsCompleted(req.isCompleted.value)];
        if req.isCompleted.value {
          updates := updates + [CompletedAt(now)];
        }
      }
      if req.daysOffset.Some? {
        updates := updates + [DaysOffset(req.daysOffset.value)];
      }
      if req.timeSpent.Some? {
        updates := updates + [TimeSpent(req.timeSpent.value)];
      }
    }

    /** The assignments of the SET list, one after the other */
    static method ApplySetList(before: PurchaseRow, updates: seq<Column>) returns (row: PurchaseRow)
      ensures row == SetColumns(before, updates)
    {
      row := before;
      var i := 0;
      while i < |updates|
        invariant 0 <= i <= |updates|
        invariant row == SetColumns(before, updates[..i])
      {
        SetColumnsSnoc(before, updates[..i], updates[i]);
        assert updates[..i + 1] == updates[..i] + [updates[i]];
        row := SetColumn(row, updates[i]);
        i := i + 1;
      }
      assert updates[..i] == updates;
    }

    /** `update_purchase_event_progress`: builds the SET list, answers false when it is empty, and
        otherwise runs it on the matching row and answers whether there was one. */
    method UpdatePurchaseEventProgress(req: UpdatePurchaseRequest, now: string) returns (changed: bool, sql: string)
      modifies this
      ensures (changed, purchases) == UpdatePurchase(old(purchases), req, now)
      ensures levels == old(levels)
      ensures !NoFields(req) ==> sql == UpdateSql(SetList(req, now))
    {
      var updates := BuildSetList(req, now);
      SetListApplies(PurchaseRow(false, 0, 0, None), req, now);
      if updates == [] {
        return false, "";
      }
      sql := UpdateSql(updates);
      var key := (req.accountId, req.purchaseEventId);
      changed := key in purchases;
      if changed {
        var row := ApplySetList(purchases[key], updates);
        SetListApplies(purchases[key], req, now);
        purchases := purchases[key := row];
      }
    }

    /** `SELECT ... WHERE account_id = ?1`: every row of the account once, in no fixed order */
    method GetAccountLevelProgress(accountId: int) returns (rows: seq<AccountLevelProgress>)
      ensures forall r :: r in rows ==>
        (r.accountId == accountId && (r.accountId, r.levelId) in levels
         && r == LevelView((r.accountId, r.levelId), levels[(r.accountId, r.levelId)]))
      ensures forall k :: k in KeysOf(levels, accountId) ==> exists r :: r in rows && r.levelId == k.1
      ensures forall i, j :: 0 <= i < j < |rows| ==> rows[i].levelId != rows[j].levelId
    {
      rows := [];
      var left := KeysOf(levels, accountId);
      while left != {}
        invariant left <= KeysOf(levels, accountId)
        invariant forall r :: r in rows ==>
          (r.accountId == accountId && (r.accountId, r.levelId) in levels && (r.accountId, r.levelId) !in left
           && r == LevelView((r.accountId, r.levelId), levels[(r.accountId, r.levelId)]))
        invariant forall k :: k in KeysOf(levels, accountId) && k !in left ==> exists r :: r in rows && r.levelId == k.1
        invariant forall i, j :: 0 <= i < j < |rows| ==> rows[i].levelId != rows[j].levelId
        decreases |left|
      {
        var k :| k in left;
        var row := LevelView(k, levels[k]);
        rows := rows + [row];
        assert row in rows;
        left := left - {k};
      }
    }

    /** `SELECT ... WHERE account_id = ?1` on the purchase table */
    method GetAccountPurchaseEventProgress(accountId: int) returns (rows: seq<AccountPurchaseEventProgress>)
      ensures forall r :: r in rows ==>
        (r.accountId == accountId && (r.accountId, r.purchaseEventId) in purchases
         && r == PurchaseView((r.accountId, r.purchaseEventId), purchases[(r.accountId, r.purchaseEventId)]))
      ensures forall k :: k in KeysOf(purchases, accountId) ==> exists r :: r in rows && r.purchaseEventId == k.1
      ensures forall i, j :: 0 <= i < j < |rows| ==> rows[i].purchaseEventId != rows[j].purchaseEventId
    {
      rows := [];
      var left := KeysOf(purchases, accountId);
      while left != {}
        invariant left <= KeysOf(purchases, accountId)
        invariant forall r :: r in rows ==>
          (r.accountId == accountId && (r.accountId, r.purchaseEventId) in purchases && (r.accountId, r.purchaseEventId) !in left
           && r == PurchaseView((r.accountId, r.purchaseEventId), purchases[(r.accountId, r.purchaseEventId)]))
        invariant forall k :: k in KeysOf(purchases, accountId) && k !in left ==> exists r :: r in rows && r.purchaseEventId == k.1
        invariant forall i, j :: 0 <= i < j < |rows| ==> rows[i].purchaseEventId != rows[j].purchaseEventId
        decreases |left|
      {
        var k :| k in left;
        var row := PurchaseView(k, purchases[k]);
        rows := rows + [row];
        assert row in rows;
        left := left - {k};
      }
    }
  }
}
