// The bookkeeping done when the user completes one request of a daily task: how the request is
// classified (purchase or level event), how the index is marked completed on the account's tasks,
// when the task leaves its batch, and when a Session+Event group counts as complete. The progress
// service calls are an input: their failure message, or the reply of the level update.

module TaskCompletion {
  import opened Options
  import opened JsText
  import opened TaskTypes
  import TaskBatching

  // ---------------------------------------------------------------------------------------------
  // Classifying the request

  /** `request.event_token && request.event_token.trim() !== '' && request.level_id == null` */
  predicate IsPurchaseEvent(r: DailyRequest) {
    r.eventToken.Some? && !IsBlank(r.eventToken.value) && r.levelId.None?
  }

  /** A purchase event is a request without a level id whose token holds a character that is not
      white space. */
  lemma PurchaseEventIff(r: DailyRequest)
    ensures IsPurchaseEvent(r) <==>
      r.levelId.None? && r.eventToken.Some?
      && exists i :: 0 <= i < |r.eventToken.value| && !IsSpace(r.eventToken.value[i])
  {
    if r.eventToken.Some? {
      BlankIffAllSpace(r.eventToken.value);
    }
  }

  datatype RequestKind = Purchase(token: string) | Level(levelId: int) | Unidentified

  /** The branch `completeTask` takes for a request; a level id of 0 is as falsy as a missing one. */
  function Classify(r: DailyRequest): (k: RequestKind)
    ensures k.Purchase? ==> IsPurchaseEvent(r) && r.eventToken == Some(k.token)
    ensures k.Level? ==> r.levelId == Some(k.levelId) && k.levelId != 0
  {
    if IsPurchaseEvent(r) then Purchase(r.eventToken.value)
    else if r.levelId.Some? && r.levelId.value != 0 then Level(r.levelId.value)
    else Unidentified
  }

  /** The request is refused exactly when it has a level id of 0, or has no level id and no token
      with a visible character. */
  lemma UnidentifiedIff(r: DailyRequest)
    ensures Classify(r).Unidentified? <==>
      r.levelId == Some(0)
      || (r.levelId.None? && (r.eventToken.None? || AllSpace(r.eventToken.value)))
  {
    if r.eventToken.Some? {
      BlankIffAllSpace(r.eventToken.value);
    }
  }

  // ---------------------------------------------------------------------------------------------
  // The request type written to the completion list

  const CanonicalTypes: set<string> :=
    {"Session Only", "Level Session", "Level Event", "Purchase Session", "Purchase Event"}

  /** `deriveType` of the purchase branch */
  function DeriveType(requestType: string): (r: string)
    ensures r == "Purchase Session" || r == "Purchase Event"
    ensures r == "Purchase Session" <==> Includes(ToLower(requestType), "session")
  {
    if Includes(ToLower(requestType), "session") then "Purchase Session" else "Purchase Event"
  }

  /** `deriveFinalType`: canonical types are kept, others are guessed from their words. */
  function DeriveFinalType(requestType: string): (r: string)
    ensures r in CanonicalTypes
    ensures requestType in CanonicalTypes ==> r == requestType
  {
    if requestType in CanonicalTypes then requestType
    else if Includes(requestType, "Purchase") then
      (if Includes(requestType, "Session") then "Purchase Session" else "Purchase Event")
    else if Includes(requestType, "Event") then "Level Event"
    else "Session Only"
  }

  /** Deriving the final type twice changes nothing, and a purchase type from `deriveType` is
      already final. */
  lemma DeriveFinalTypeIdempotent(requestType: string)
    ensures DeriveFinalType(DeriveFinalType(requestType)) == DeriveFinalType(requestType)
    ensures DeriveFinalType(DeriveType(requestType)) == DeriveType(requestType)
  {
  }

  /** A type outside the canonical five maps by its words, case-sensitively. */
  lemma DeriveFinalTypeFallback(requestType: string)
    requires requestType !in CanonicalTypes
    ensures Includes(requestType, "Purchase") ==>
      DeriveFinalType(requestType) == (if Includes(requestType, "Session") then "Purchase Session" else "Purchase Event")
    ensures !Includes(requestType, "Purchase") && Includes(requestType, "Event") ==>
      DeriveFinalType(requestType) == "Level Event"
    ensures !Includes(requestType, "Purchase") && !Includes(requestType, "Event") ==>
      DeriveFinalType(requestType) == "Session Only"
  {
  }

  // ---------------------------------------------------------------------------------------------
  // Finding the task

  /** `tasks.find(t => t.account.id === id)` */
  function FindTask(ts: seq<DailyTask>, id: int): (r: Option<DailyTask>)
    ensures r.Some? ==> r.value in ts && r.value.account.id == id
    ensures r.None? <==> forall t :: t in ts ==> t.account.id != id
  {
    if ts == [] then None
    else if ts[0].account.id == id then Some(ts[0])
    else FindTask(ts[1..], id)
  }

  /** `batches.find(b => b.batchIndex === k)` */
  function FindBatch(bs: seq<GameBatch>, k: int): (r: Option<GameBatch>)
    ensures r.Some? ==> r.value in bs && r.value.batchIndex == k
    ensures r.None? <==> forall b :: b in bs ==> b.batchIndex != k
  {
    if bs == [] then None
    else if bs[0].batchIndex == k then Some(bs[0])
    else FindBatch(bs[1..], k)
  }

  /** `batches.find(b => b.batchIndex === k)?.tasks.find(t => t.account.id === id)` */
  function Lookup(bs: seq<GameBatch>, k: int, id: int): Option<DailyTask> {
    match FindBatch(bs, k)
    case None => None
    case Some(b) => FindTask(b.tasks, id)
  }

  /** The search at the head of `completeTask`, from batch `b` on: the position of the first batch
      that holds a task of the account, and that batch's first such task. */
  function FoundFrom(bs: seq<GameBatch>, b: nat, id: int): (r: Option<(nat, DailyTask)>)
    requires b <= |bs|
    ensures r.Some? ==>
      b <= r.value.0 < |bs| && FindTask(bs[r.value.0].tasks, id) == Some(r.value.1)
      && forall p :: b <= p < r.value.0 ==> FindTask(bs[p].tasks, id).None?
    ensures r.None? <==> forall p :: b <= p < |bs| ==> FindTask(bs[p].tasks, id).None?
    decreases |bs| - b
  {
    if b == |bs| then None
    else match FindTask(bs[b].tasks, id)
      case Some(t) => Some((b, t))
      case None => FoundFrom(bs, b + 1, id)
  }

  function FoundTask(bs: seq<GameBatch>, id: int): Option<(nat, DailyTask)> {
    FoundFrom(bs, 0, id)
  }

  // ---------------------------------------------------------------------------------------------
  // Marking an index completed

  function MarkTask(t: DailyTask, id: int, i: nat): DailyTask {
    if t.account.id == id then t.(completedTasks := t.completedTasks + {i}) else t
  }

  function MarkTasks(ts: seq<DailyTask>, id: int, i: nat): (r: seq<DailyTask>)
    ensures |r| == |ts|
    ensures forall j :: 0 <= j < |ts| ==> r[j] == MarkTask(ts[j], id, i)
  {
    if ts == [] then [] else [MarkTask(ts[0], id, i)] + MarkTasks(ts[1..], id, i)
  }

  /** The `batches.map(... tasks.map(...))` that adds index `i` to the account's tasks: the batches
      keep their order, numbers and tasks; only the completed set of the account's tasks grows,
      by exactly `i`. */
  function MarkCompleted(bs: seq<GameBatch>, id: int, i: nat): (r: seq<GameBatch>)
    ensures |r| == |bs|
    ensures forall b :: 0 <= b < |bs| ==>
      r[b].batchIndex == bs[b].batchIndex && |r[b].tasks| == |bs[b].tasks|
    ensures forall b, j :: 0 <= b < |bs| && 0 <= j < |bs[b].tasks| ==>
      var t, t' := bs[b].tasks[j], r[b].tasks[j];
      t'.account == t.account && t'.requests == t.requests && t'.requestGroups == t.requestGroups
      && t'.targetDate == t.targetDate
      && t'.completedTasks == if t.account.id == id then t.completedTasks + {i} else t.completedTasks
  {
    if bs == [] then []
    else [GameBatch(bs[0].batchIndex, MarkTasks(bs[0].tasks, id, i))] + MarkCompleted(bs[1..], id, i)
  }

  /** Completing the same index twice is the same as completing it once. */
  lemma {:induction false} MarkCompletedIdempotent(bs: seq<GameBatch>, id: int, i: nat)
    ensures MarkCompleted(MarkCompleted(bs, id, i), id, i) == MarkCompleted(bs, id, i)
  {
    var once := MarkCompleted(bs, id, i);
    var twice := MarkCompleted(once, id, i);
    forall b | 0 <= b < |bs| ensures twice[b] == once[b] {
      assert twice[b].tasks == once[b].tasks;
    }
  }

  /** A batch found by number after marking is the marked batch found before, and the account's
      task in it is the found task with `i` added. */
  lemma {:induction false} LookupAfterMark(bs: seq<GameBatch>, k: int, id: int, i: nat)
    ensures Lookup(MarkCompleted(bs, id, i), k, id) ==
      match Lookup(bs, k, id)
      case None => None
      case Some(t) => Some(t.(completedTasks := t.completedTasks + {i}))
  {
    if bs != [] {
      var m := MarkCompleted(bs, id, i);
      assert m[1..] == MarkCompleted(bs[1..], id, i);
      if bs[0].batchIndex == k {
        FindTaskAfterMark(bs[0].tasks, id, i);
      } else {
        LookupAfterMark(bs[1..], k, id, i);
      }
    }
  }

  lemma {:induction false} FindTaskAfterMark(ts: seq<DailyTask>, id: int, i: nat)
    ensures FindTask(MarkTasks(ts, id, i), id) ==
      match FindTask(ts, id)
      case None => None
      case Some(t) => Some(t.(completedTasks := t.completedTasks + {i}))
  {
    if ts != [] && ts[0].account.id != id {
      assert MarkTasks(ts, id, i)[1..] == MarkTasks(ts[1..], id, i);
      FindTaskAfterMark(ts[1..], id, i);
    }
  }

  // ---------------------------------------------------------------------------------------------
  // Removing a finished task

  /** `tasks.filter(task => task.account.id !== id)` */
  function DropAccount(ts: seq<DailyTask>, id: int): seq<DailyTask> {
    if ts == [] then []
    else (if ts[0].account.id == id then [] else [ts[0]]) + DropAccount(ts[1..], id)
  }

  /** The account's tasks leave every batch numbered `k`, and then every batch left without tasks
      is dropped. */
  function RemoveTask(bs: seq<GameBatch>, k: int, id: int): seq<GameBatch> {
    if bs == [] then []
    else
      var b := if bs[0].batchIndex == k then GameBatch(k, DropAccount(bs[0].tasks, id)) else bs[0];
      (if b.tasks == [] then [] else [b]) + RemoveTask(bs[1..], k, id)
  }

  /** The tasks of a list of batches, each with its batch number, in order. */
  function Tagged(k: int, ts: seq<DailyTask>): seq<(int, DailyTask)> {
    if ts == [] then [] else [(k, ts[0])] + Tagged(k, ts[1..])
  }

  function Entries(bs: seq<GameBatch>): seq<(int, DailyTask)> {
    if bs == [] then [] else Tagged(bs[0].batchIndex, bs[0].tasks) + Entries(bs[1..])
  }

  /** The entries without the account's tasks in batch `k` */
  function DropEntries(es: seq<(int, DailyTask)>, k: int, id: int): seq<(int, DailyTask)> {
    if es == [] then []
    else (if es[0].0 == k && es[0].1.account.id == id then [] else [es[0]]) + DropEntries(es[1..], k, id)
  }

  lemma {:induction false} DropEntriesConcat(a: seq<(int, DailyTask)>, b: seq<(int, DailyTask)>, k: int, id: int)
    ensures DropEntries(a + b, k, id) == DropEntries(a, k, id) + DropEntries(b, k, id)
  {
    if a != [] {
      DropEntriesConcat(a[1..], b, k, id);
      var h := if a[0].0 == k && a[0].1.account.id == id then [] else [a[0]];
      calc {
        DropEntries(a + b, k, id);
        { assert (a + b)[0] == a[0]; }
        h + DropEntries((a + b)[1..], k, id);
        { assert (a + b)[1..] == a[1..] + b; }
        h + (DropEntries(a[1..], k, id) + DropEntries(b, k, id));
        (h + DropEntries(a[1..], k, id)) + DropEntries(b, k, id);
        DropEntries(a, k, id) + DropEntries(b, k, id);
      }
    } else {
      assert a + b == b;
    }
  }

  lemma {:induction false} TaggedDrop(j: int, ts: seq<DailyTask>, k: int, id: int)
    ensures DropEntries(Tagged(j, ts), k, id) ==
      if j == k then Tagged(j, DropAccount(ts, id)) else Tagged(j, ts)
  {
    if ts != [] {
      TaggedDrop(j, ts[1..], k, id);
      if j == k {
        var d := DropAccount(ts[1..], id);
        if ts[0].account.id == id {
          assert DropAccount(ts, id) == d;
        } else {
          assert DropAccount(ts, id) == [ts[0]] + d;
          assert ([ts[0]] + d)[1..] == d;
        }
      }
    }
  }

  /** Removal loses exactly the account's tasks in batch `k`: every other task keeps its batch
      number and its order, and no batch is left empty. */
  lemma {:induction false} RemoveTaskEntries(bs: seq<GameBatch>, k: int, id: int)
    ensures Entries(RemoveTask(bs, k, id)) == DropEntries(Entries(bs), k, id)
    ensures forall b :: b in RemoveTask(bs, k, id) ==> b.tasks != []
  {
    if bs != [] {
      var rest := RemoveTask(bs[1..], k, id);
      RemoveTaskEntries(bs[1..], k, id);
      DropEntriesConcat(Tagged(bs[0].batchIndex, bs[0].tasks), Entries(bs[1..]), k, id);
      TaggedDrop(bs[0].batchIndex, bs[0].tasks, k, id);
      var b := if bs[0].batchIndex == k then GameBatch(k, DropAccount(bs[0].tasks, id)) else bs[0];
      assert DropEntries(Tagged(bs[0].batchIndex, bs[0].tasks), k, id) == Tagged(b.batchIndex, b.tasks);
      if b.tasks != [] {
        assert RemoveTask(bs, k, id) == [b] + rest;
        assert ([b] + rest)[1..] == rest;
      } else {
        assert RemoveTask(bs, k, id) == rest;
      }
    }
  }

  lemma {:induction false} DropEntriesMembers(es: seq<(int, DailyTask)>, k: int, id: int)
    ensures forall e :: e in DropEntries(es, k, id) <==> e in es && !(e.0 == k && e.1.account.id == id)
  {
    if es != [] {
      DropEntriesMembers(es[1..], k, id);
      assert es == [es[0]] + es[1..];
    }
  }

  lemma {:induction false} TaggedMembers(j: int, ts: seq<DailyTask>)
    ensures forall e :: e in Tagged(j, ts) <==> e.0 == j && e.1 in ts
  {
    if ts != [] {
      TaggedMembers(j, ts[1..]);
      assert ts == [ts[0]] + ts[1..];
    }
  }

  /** After marking, every task of the account anywhere in the batches holds `i`. */
  lemma {:induction false} MarkedEntries(bs: seq<GameBatch>, id: int, i: nat)
    ensures forall e :: e in Entries(MarkCompleted(bs, id, i)) && e.1.account.id == id ==> i in e.1.completedTasks
  {
    if bs != [] {
      var m := MarkCompleted(bs, id, i);
      assert m[1..] == MarkCompleted(bs[1..], id, i);
      MarkedEntries(bs[1..], id, i);
      TaggedMembers(m[0].batchIndex, m[0].tasks);
    }
  }

  // ---------------------------------------------------------------------------------------------
  // Session+Event group completion

  /** `requests.indexOf(r)`; the source compares objects, this compares values. */
  function IndexIn(rs: seq<DailyRequest>, r: DailyRequest): (p: int)
    ensures -1 <= p < |rs|
    ensures p >= 0 ==> rs[p] == r && forall q :: 0 <= q < p ==> rs[q] != r
    ensures p < 0 <==> r !in rs
  {
    if rs == [] then -1
    else if rs[0] == r then 0
    else var p := IndexIn(rs[1..], r); if p < 0 then -1 else p + 1
  }

  /** `completedTasks.has(idx.toString())` on the task found again after the update; `-1` is never
      a completed index. */
  predicate IndexDone(t: Option<DailyTask>, idx: int) {
    t.Some? && idx >= 0 && idx in t.value.completedTasks
  }

  /** The group's indices in the task are all completed in the updated task found in batch `k`,
      and the completed request is one of them. */
  predicate GroupDone(updated: seq<GameBatch>, k: int, id: int, task: DailyTask, g: RequestGroup, i: int) {
    (forall r :: r in g.requests ==> IndexDone(Lookup(updated, k, id), IndexIn(task.requests, r)))
    && exists r :: r in g.requests && IndexIn(task.requests, r) == i
  }

  /** The first group of the task that the completion finishes */
  function FirstDoneGroup(groups: seq<RequestGroup>, updated: seq<GameBatch>, k: int, id: int, task: DailyTask, i: int): (r: Option<RequestGroup>)
    ensures r.Some? ==> r.value in groups && GroupDone(updated, k, id, task, r.value, i)
    ensures r.None? <==> forall g :: g in groups ==> !GroupDone(updated, k, id, task, g, i)
  {
    if groups == [] then None
    else if GroupDone(updated, k, id, task, groups[0], i) then Some(groups[0])
    else FirstDoneGroup(groups[1..], updated, k, id, task, i)
  }

  /** When the batch numbered like the task's batch is that batch, a group is finished by
      completing index `i` exactly when each of its requests is in the task at an index that was
      completed before or is `i`, and one of them is at `i`. */
  lemma GroupDoneIff(bs: seq<GameBatch>, k: int, id: int, task: DailyTask, g: RequestGroup, i: nat)
    requires Lookup(bs, k, id) == Some(task)
    ensures GroupDone(MarkCompleted(bs, id, i), k, id, task, g, i) <==>
      (forall r :: r in g.requests ==> r in task.requests && IndexIn(task.requests, r) in task.completedTasks + {i})
      && exists r :: r in g.requests && IndexIn(task.requests, r) == i
  {
    LookupAfterMark(bs, k, id, i);
  }

  // ---------------------------------------------------------------------------------------------
  // The whole completion

  /** The progress update's reply: a bare boolean or an API response */
  datatype Reply = Flag(ok: bool) | Api(success: bool, error: Option<string>)

  /** What the progress service calls produce. `purchaseFailure` is the error thrown while looking
      up the account, the purchase event and its progress row; the purchase branch does not look
      at its own update's reply. */
  datatype Backend = Backend(purchaseFailure: Option<string>, levelReply: Reply)

  datatype Outcome = Completed | NoTask | Failed(message: string)

  /** The state the handler changes through its setters */
  datatype Ledger = Ledger(
    batches: seq<GameBatch>, records: map<int, CompletionRecord>,
    assignments: map<int, seq<TaskBatching.Assignment>>)

  const UNDEFINED_REQUEST := "Cannot read properties of undefined"
  const UNIDENTIFIED_REQUEST := "Task completion error"
  const UPDATE_FAILED := "Failed to update progress"

  /** `result === true || (result && typeof result === 'object' && result.success)` */
  predicate Succeeded(reply: Reply) {
    reply == Flag(true) || (reply.Api? && reply.success)
  }

  function ReplyError(reply: Reply): string {
    if reply.Api? && reply.error.Some? && reply.error.value != "" then reply.error.value else UPDATE_FAILED
  }

  /** Every request index of the task is completed */
  predicate AllDone(t: DailyTask) {
    forall idx :: 0 <= idx < |t.requests| ==> idx in t.completedTasks
  }

  /** `completeTask(accountId, requestIndex, batchIndex)` on the ledger, at the instant `now` */
  function Complete(l: Ledger, accountId: int, requestIndex: int, batchIndex: int, backend: Backend, now: int): (Outcome, Ledger) {
    match FoundTask(l.batches, accountId)
    case None => (NoTask, l)
    case Some(found) =>
      if 0 <= requestIndex < |found.1.requests| then
        CompleteRequest(l, accountId, found.0, found.1, requestIndex, batchIndex, backend, now)
      else
        (Failed(UNDEFINED_REQUEST), l)
  }

  /** The completion of request `i` of `task`, found in batch position `pos` */
  function CompleteRequest(l: Ledger, accountId: int, pos: nat, task: DailyTask, i: nat, batchIndex: int, backend: Backend, now: int): (Outcome, Ledger)
    requires pos < |l.batches| && i < |task.requests|
  {
    var r := task.requests[i];
    match Classify(r)
    case Unidentified => (Failed(UNIDENTIFIED_REQUEST), l)
    case Purchase(token) =>
      if backend.purchaseFailure.Some? then (Failed(backend.purchaseFailure.value), l)
      else (Completed, CompletePurchase(l, accountId, i, batchIndex, r.timeSpent, token, now))
    case Level(levelId) =>
      if !Succeeded(backend.levelReply) then (Failed(ReplyError(backend.levelReply)), l)
      else (Completed, CompleteLevel(l, accountId, l.batches[pos].batchIndex, task, i, batchIndex, r, levelId, now))
  }

  /** The purchase branch: mark, record with level id 0, and remove the task from batch
      `batchIndex` if all its indices are then completed. */
  function CompletePurchase(l: Ledger, accountId: int, i: nat, batchIndex: int, timeSpent: int, token: string, now: int): Ledger {
    var updated := MarkCompleted(l.batches, accountId, i);
    var record := CompletionRecord(accountId, timeSpent, now, 0, token);
    var done := Lookup(updated, batchIndex, accountId);
    var after := if done.Some? && AllDone(done.value) then RemoveTask(updated, batchIndex, accountId) else updated;
    Ledger(after, l.records[accountId := record], l.assignments)
  }

  /** The level branch after a successful update: a finished group gives the group's record,
      clears the account's assignments and removes the task; otherwise only the mark and the
      request's record. */
  function CompleteLevel(l: Ledger, accountId: int, k: int, task: DailyTask, i: nat, batchIndex: int, r: DailyRequest, levelId: int, now: int): Ledger {
    var updated := MarkCompleted(l.batches, accountId, i);
    var pair := if task.requestGroups.None? then None else FirstDoneGroup(task.requestGroups.value, updated, k, accountId, task, i);
    match pair
    case Some(g) =>
      var record := CompletionRecord(accountId, g.timeSpent, now, levelId, g.eventToken);
      Ledger(RemoveTask(updated, batchIndex, accountId), l.records[accountId := record], l.assignments[accountId := []])
    case None =>
      var record := CompletionRecord(accountId, r.timeSpent, now, levelId, r.eventToken.GetOr(""));
      Ledger(updated, l.records[accountId := record], l.assignments)
  }

  /** What every successful completion does: the account's record is replaced by one at `now`
      and no other account's record or assignments change; every task of the account still in a
      batch has index `i` completed; and the tasks that remain are those after marking, less at
      most the account's tasks in batch `batchIndex`. */
  ghost predicate CompletionEffect(l: Ledger, l': Ledger, accountId: int, i: nat, batchIndex: int, now: int) {
    && accountId in l'.records && l'.records[accountId].accountId == accountId
    && l'.records[accountId].completionTime == now
    && l'.records == l.records[accountId := l'.records[accountId]]
    && (l'.assignments == l.assignments || l'.assignments == l.assignments[accountId := []])
    && (forall e :: e in Entries(l'.batches) && e.1.account.id == accountId ==> i in e.1.completedTasks)
    && (l'.batches == MarkCompleted(l.batches, accountId, i)
        || Entries(l'.batches) == DropEntries(Entries(MarkCompleted(l.batches, accountId, i)), batchIndex, accountId))
  }

  lemma RemovalEffect(bs: seq<GameBatch>, accountId: int, i: nat, batchIndex: int)
    ensures var updated := MarkCompleted(bs, accountId, i);
      (forall e :: e in Entries(updated) && e.1.account.id == accountId ==> i in e.1.completedTasks)
      && (forall e :: e in Entries(RemoveTask(updated, batchIndex, accountId)) && e.1.account.id == accountId ==> i in e.1.completedTasks)
      && Entries(RemoveTask(updated, batchIndex, accountId)) == DropEntries(Entries(updated), batchIndex, accountId)
  {
    var updated := MarkCompleted(bs, accountId, i);
    MarkedEntries(bs, accountId, i);
    RemoveTaskEntries(updated, batchIndex, accountId);
    DropEntriesMembers(Entries(updated), batchIndex, accountId);
  }

  /** A ledger with the account's new record, its assignments kept or cleared, and the marked
      batches less at most the account's task in batch `batchIndex` */
  lemma LedgerEffect(l: Ledger, after: seq<GameBatch>, record: CompletionRecord, asg: map<int, seq<TaskBatching.Assignment>>,
                     accountId: int, i: nat, batchIndex: int, now: int)
    requires record.accountId == accountId && record.completionTime == now
    requires asg == l.assignments || asg == l.assignments[accountId := []]
    requires after == MarkCompleted(l.batches, accountId, i)
      || after == RemoveTask(MarkCompleted(l.batches, accountId, i), batchIndex, accountId)
    ensures CompletionEffect(l, Ledger(after, l.records[accountId := record], asg), accountId, i, batchIndex, now)
  {
    RemovalEffect(l.batches, accountId, i, batchIndex);
  }

  lemma PurchaseEffect(l: Ledger, accountId: int, i: nat, batchIndex: int, timeSpent: int, token: string, now: int)
    ensures CompletionEffect(l, CompletePurchase(l, accountId, i, batchIndex, timeSpent, token, now), accountId, i, batchIndex, now)
  {
    var updated := MarkCompleted(l.batches, accountId, i);
    var record := CompletionRecord(accountId, timeSpent, now, 0, token);
    var done := Lookup(updated, batchIndex, accountId);
    var after := if done.Some? && AllDone(done.value) then RemoveTask(updated, batchIndex, accountId) else updated;
    LedgerEffect(l, after, record, l.assignments, accountId, i, batchIndex, now);
  }

  lemma LevelEffect(l: Ledger, accountId: int, k: int, task: DailyTask, i: nat, batchIndex: int, r: DailyRequest, levelId: int, now: int)
    ensures CompletionEffect(l, CompleteLevel(l, accountId, k, task, i, batchIndex, r, levelId, now), accountId, i, batchIndex, now)
  {
    var updated := MarkCompleted(l.batches, accountId, i);
    var pair := if task.requestGroups.None? then None else FirstDoneGroup(task.requestGroups.value, updated, k, accountId, task, i);
    match pair
    case Some(g) =>
      var record := CompletionRecord(accountId, g.timeSpent, now, levelId, g.eventToken);
      LedgerEffect(l, RemoveTask(updated, batchIndex, accountId), record, l.assignments[accountId := []], accountId, i, batchIndex, now);
    case None =>
      var record := CompletionRecord(accountId, r.timeSpent, now, levelId, r.eventToken.GetOr(""));
      LedgerEffect(l, updated, record, l.assignments, accountId, i, batchIndex, now);
  }

  /** A completion that fails or finds no task changes nothing; one that succeeds has the
      effects of `CompletionEffect`. */
  lemma CompleteEffect(l: Ledger, accountId: int, requestIndex: int, batchIndex: int, backend: Backend, now: int)
    ensures var (outcome, l') := Complete(l, accountId, requestIndex, batchIndex, backend, now);
      (outcome != Completed ==> l' == l)
      && (outcome == Completed ==> 0 <= requestIndex && CompletionEffect(l, l', accountId, requestIndex, batchIndex, now))
  {
    match FoundTask(l.batches, accountId)
    case None =>
    case Some(found) =>
      if 0 <= requestIndex < |found.1.requests| {
        RequestEffect(l, accountId, found.0, found.1, requestIndex, batchIndex, backend, now);
      }
  }

  lemma RequestEffect(l: Ledger, accountId: int, pos: nat, task: DailyTask, i: nat, batchIndex: int, backend: Backend, now: int)
    requires pos < |l.batches| && i < |task.requests|
    ensures var (outcome, l') := CompleteRequest(l, accountId, pos, task, i, batchIndex, backend, now);
      (outcome != Completed ==> l' == l)
      && (outcome == Completed ==> CompletionEffect(l, l', accountId, i, batchIndex, now))
  {
    var r := task.requests[i];
    match Classify(r)
    case Unidentified =>
    case Purchase(token) =>
      PurchaseEffect(l, accountId, i, batchIndex, r.timeSpent, token, now);
    case Level(levelId) =>
      LevelEffect(l, accountId, l.batches[pos].batchIndex, task, i, batchIndex, r, levelId, now);
  }

  /** Tasks built by the round-robin carry no request groups, so completing one of their level
      requests only marks the index: such a task never leaves its batch. */
  lemma LevelTaskStays(l: Ledger, accountId: int, requestIndex: int, batchIndex: int, backend: Backend, now: int)
    requires FoundTask(l.batches, accountId).Some?
    requires FoundTask(l.batches, accountId).value.1.requestGroups.None?
    requires 0 <= requestIndex < |FoundTask(l.batches, accountId).value.1.requests|
    requires Classify(FoundTask(l.batches, accountId).value.1.requests[requestIndex]).Level?
    ensures var (outcome, l') := Complete(l, accountId, requestIndex, batchIndex, backend, now);
      outcome == Completed <==> Succeeded(backend.levelReply)
    ensures var (outcome, l') := Complete(l, accountId, requestIndex, batchIndex, backend, now);
      outcome == Completed ==>
        l'.batches == MarkCompleted(l.batches, accountId, requestIndex) && l'.assignments == l.assignments
  {
  }

  /** A purchase completion removes the account's task from batch `batchIndex` exactly when that
      task has every request index completed after the mark. */
  lemma PurchaseRemovesWhenDone(l: Ledger, accountId: int, i: nat, batchIndex: int, timeSpent: int, token: string, now: int)
    ensures var l' := CompletePurchase(l, accountId, i, batchIndex, timeSpent, token, now);
      var done := Lookup(l.batches, batchIndex, accountId);
      (done.Some? && AllDone(done.value.(completedTasks := done.value.completedTasks + {i})) ==>
         forall e :: e in Entries(l'.batches) ==> !(e.0 == batchIndex && e.1.account.id == accountId))
      && (done.None? || !AllDone(done.value.(completedTasks := done.value.completedTasks + {i})) ==>
         l'.batches == MarkCompleted(l.batches, accountId, i))
  {
    var updated := MarkCompleted(l.batches, accountId, i);
    LookupAfterMark(l.batches, batchIndex, accountId, i);
    RemoveTaskEntries(updated, batchIndex, accountId);
    DropEntriesMembers(Entries(updated), batchIndex, accountId);
  }

  // ---------------------------------------------------------------------------------------------
  // The handler

  class TaskCompletionHandler {
    var batches: seq<GameBatch>
    var records: map<int, CompletionRecord>
    var assignments: map<int, seq<TaskBatching.Assignment>>

    function State(): Ledger
      reads this
    {
      Ledger(batches, records, assignments)
    }

    constructor(batches: seq<GameBatch>, records: map<int, CompletionRecord>, assignments: map<int, seq<TaskBatching.Assignment>>)
      ensures State() == Ledger(batches, records, assignments)
    {
      this.batches := batches;
      this.records := records;
      this.assignments := assignments;
    }

    /** The search loop over the batches, with `find` on each batch's tasks */
    static method FindAccountTask(bs: seq<GameBatch>, accountId: int) returns (found: Option<(nat, DailyTask)>)
      ensures found == FoundTask(bs, accountId)
    {
      var b := 0;
      while b < |bs|
        invariant 0 <= b <= |bs|
        invariant FoundTask(bs, accountId) == FoundFrom(bs, b, accountId)
        decreases |bs| - b
      {
        var t := FindTask(bs[b].tasks, accountId);
        if t.Some? {
          return Some((b, t.value));
        }
        b := b + 1;
      }
      return None;
    }

    /** `groupIndices.every(...)` and `groupIndices.includes(requestIndex)` for one group */
    static method GroupFinished(updated: seq<GameBatch>, k: int, id: int, task: DailyTask, g: RequestGroup, i: int)
      returns (finished: bool)
      ensures finished == GroupDone(updated, k, id, task, g, i)
    {
      var done := Lookup(updated, k, id);
      var allGroupCompleted := true;
      var includes := false;
      var j := 0;
      while j < |g.requests|
        invariant 0 <= j <= |g.requests|
        invariant allGroupCompleted <==> AllIndicesDone(done, task, g.requests[..j])
        invariant includes <==> HitsIndex(task, g.requests[..j], i)
      {
        var idx := IndexIn(task.requests, g.requests[j]);
        PrefixStep(done, task, g.requests, j, i);
        allGroupCompleted := allGroupCompleted && IndexDone(done, idx);
        includes := includes || idx == i;
        j := j + 1;
      }
      assert g.requests[..j] == g.requests;
      return allGroupCompleted && includes;
    }

    static ghost predicate AllIndicesDone(done: Option<DailyTask>, task: DailyTask, rs: seq<DailyRequest>) {
      forall r :: r in rs ==> IndexDone(done, IndexIn(task.requests, r))
    }

    static ghost predicate HitsIndex(task: DailyTask, rs: seq<DailyRequest>, i: int) {
      exists r :: r in rs && IndexIn(task.requests, r) == i
    }

    static lemma PrefixStep(done: Option<DailyTask>, task: DailyTask, rs: seq<DailyRequest>, j: nat, i: int)
      requires j < |rs|
      ensures AllIndicesDone(done, task, rs[..j + 1])
        <==> AllIndicesDone(done, task, rs[..j]) && IndexDone(done, IndexIn(task.requests, rs[j]))
      ensures HitsIndex(task, rs[..j + 1], i) <==> HitsIndex(task, rs[..j], i) || IndexIn(task.requests, rs[j]) == i
    {
      assert rs[..j + 1] == rs[..j] + [rs[j]];
    }

    /** The loop over the task's groups, stopping at the first the completion finishes */
    static method FindDoneGroup(groups: seq<RequestGroup>, updated: seq<GameBatch>, k: int, id: int, task: DailyTask, i: int)
      returns (pair: Option<RequestGroup>)
      ensures pair == FirstDoneGroup(groups, updated, k, id, task, i)
    {
      var n := 0;
      while n < |groups|
        invariant 0 <= n <= |groups|
        invariant FirstDoneGroup(groups, updated, k, id, task, i) == FirstDoneGroup(groups[n..], updated, k, id, task, i)
      {
        var finished := GroupFinished(updated, k, id, task, groups[n], i);
        if finished {
          return Some(groups[n]);
        }
        assert groups[n..][1..] == groups[n + 1..];
        n := n + 1;
      }
      return None;
    }

    /** `completeTask`: marks the request completed, records the completion and removes a
        finished task, as `Complete` describes; on failure nothing changes. */
    method CompleteTask(accountId: int, requestIndex: int, batchIndex: int, backend: Backend, now: int)
      returns (outcome: Outcome)
      modifies this
      ensures (outcome, State()) == Complete(old(State()), accountId, requestIndex, batchIndex, backend, now)
    {
      var found := FindAccountTask(batches, accountId);
      if found.None? {
        return NoTask;
      }
      var task := found.value.1;
      if !(0 <= requestIndex < |task.requests|) {
        return Failed(UNDEFINED_REQUEST);
      }
      var request := task.requests[requestIndex];
      var kind := Classify(request);
      if kind.Unidentified? {
        return Failed(UNIDENTIFIED_REQUEST);
      }
      if kind.Purchase? {
        if backend.purchaseFailure.Some? {
          return Failed(backend.purchaseFailure.value);
        }
        CompletePurchaseTask(accountId, requestIndex, batchIndex, request.timeSpent, kind.token, now);
        return Completed;
      }
      if !Succeeded(backend.levelReply) {
        return Failed(ReplyError(backend.levelReply));
      }
      CompleteLevelTask(accountId, batches[found.value.0].batchIndex, task, requestIndex, batchIndex, request, kind.levelId, now);
      return Completed;
    }

    /** The purchase branch's updates of batches and records */
    method CompletePurchaseTask(accountId: int, i: nat, batchIndex: int, timeSpent: int, token: string, now: int)
      modifies this
      ensures State() == CompletePurchase(old(State()), accountId, i, batchIndex, timeSpent, token, now)
    {
      var updatedBatches := MarkCompleted(batches, accountId, i);
      batches := updatedBatches;
      records := records[accountId := CompletionRecord(accountId, timeSpent, now, 0, token)];
      var taskInBatch := Lookup(updatedBatches, batchIndex, accountId);
      if taskInBatch.Some? && AllDone(taskInBatch.value) {
        batches := RemoveTask(updatedBatches, batchIndex, accountId);
      }
    }

    /** The level branch's updates after a successful progress update */
    method CompleteLevelTask(accountId: int, k: int, task: DailyTask, i: nat, batchIndex: int, request: DailyRequest, levelId: int, now: int)
      modifies this
      ensures State() == CompleteLevel(old(State()), accountId, k, task, i, batchIndex, request, levelId, now)
    {
      var updatedBatches := MarkCompleted(batches, accountId, i);
      if task.requestGroups.Some? {
        var pair := FindDoneGroup(task.requestGroups.value, updatedBatches, k, accountId, task, i);
        if pair.Some? {
          records := records[accountId := CompletionRecord(accountId, pair.value.timeSpent, now, levelId, pair.value.eventToken)];
          assignments := assignments[accountId := []];
          batches := RemoveTask(updatedBatches, batchIndex, accountId);
          return;
        }
      }
      records := records[accountId := CompletionRecord(accountId, request.timeSpent, now, levelId, request.eventToken.GetOr(""))];
      batches := updatedBatches;
    }
  }
}
