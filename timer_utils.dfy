// The countdown shown next to a task: whether the account's previous task is still open, and how
// long until the task may be sent.

module TimerUtils {
  import opened Options
  import opened JsText
  import opened JsMath
  import opened TaskTypes

  datatype Reason = Ready | Blocked | Cooldown | Initializing

  datatype TimerState = TimerState(
    isReady: bool, isBlocked: bool, remainingTime: int, comeBackTime: Option<int>, reason: Reason)

  /** The test by which the scan recognises the current task: same account, and the same event
      token and level id on the first request. A task is always recognised as itself, since equal
      tasks agree on all three. */
  predicate SameTask(t: DailyTask, task: DailyTask) {
    t.account.id == task.account.id && FirstToken(t) == FirstToken(task) && FirstLevelId(t) == FirstLevelId(task)
  }

  /** The tasks of all batches, batch after batch */
  function AllTasks(batches: seq<GameBatch>): seq<DailyTask> {
    if batches == [] then [] else AllTasks(batches[..|batches| - 1]) + batches[|batches| - 1].tasks
  }

  /** The state of the scan for the previous task */
  datatype Scan = Scan(previous: Option<DailyTask>, found: bool)

  function ScanStep(st: Scan, t: DailyTask, task: DailyTask): Scan {
    if st.found || t.account.id != task.account.id then st
    else if SameTask(t, task) then Scan(st.previous, true)
    else Scan(Some(t), false)
  }

  function ScanTasks(ts: seq<DailyTask>, task: DailyTask): Scan {
    if ts == [] then Scan(None, false) else ScanStep(ScanTasks(ts[..|ts| - 1], task), ts[|ts| - 1], task)
  }

  /** The index of the first task recognised as the current one, or -1 */
  function FirstMatch(ts: seq<DailyTask>, task: DailyTask): (r: int)
    ensures -1 <= r < |ts|
    ensures r >= 0 ==> SameTask(ts[r], task) && forall i :: 0 <= i < r ==> !SameTask(ts[i], task)
    ensures r == -1 ==> forall i :: 0 <= i < |ts| ==> !SameTask(ts[i], task)
  {
    if ts == [] then -1
    else
      var f := FirstMatch(ts[..|ts| - 1], task);
      if f >= 0 then f else if SameTask(ts[|ts| - 1], task) then |ts| - 1 else -1
  }

  /** The last task of the account in ts */
  function LastOfAccount(ts: seq<DailyTask>, accountId: int): (r: Option<DailyTask>)
    ensures r.Some? ==> exists i :: 0 <= i < |ts| && ts[i] == r.value && r.value.account.id == accountId
                          && forall j :: i < j < |ts| ==> ts[j].account.id != accountId
    ensures r.None? ==> forall i :: 0 <= i < |ts| ==> ts[i].account.id != accountId
  {
    if ts == [] then None
    else if ts[|ts| - 1].account.id == accountId then Some(ts[|ts| - 1])
    else LastOfAccount(ts[..|ts| - 1], accountId)
  }

  /** The previous task is the last task of the same account before the first task recognised
      as the current one, or before the end when there is none; the scan stops at that task. */
  lemma {:induction false} ScanFindsPrevious(ts: seq<DailyTask>, task: DailyTask)
    ensures var m := FirstMatch(ts, task);
      ScanTasks(ts, task) == Scan(LastOfAccount(if m >= 0 then ts[..m] else ts, task.account.id), m >= 0)
  {
    if ts != [] {
      var init := ts[..|ts| - 1];
      ScanFindsPrevious(init, task);
      var m := FirstMatch(init, task);
      if m >= 0 {
        assert ts[..m] == init[..m];
      } else {
        assert ts[..|ts| - 1] == init;
      }
    }
  }

  /** Once the current task is found, later tasks change nothing. */
  lemma {:induction false} ScanFoundStays(xs: seq<DailyTask>, ys: seq<DailyTask>, task: DailyTask)
    requires ScanTasks(xs, task).found
    ensures ScanTasks(xs + ys, task) == ScanTasks(xs, task)
  {
    if ys != [] {
      var init := ys[..|ys| - 1];
      ScanFoundStays(xs, init, task);
      assert (xs + ys)[..|xs + ys| - 1] == xs + init;
    } else {
      assert xs + ys == xs;
    }
  }

  function PreviousTask(allBatches: seq<GameBatch>, task: DailyTask): Option<DailyTask> {
    ScanTasks(AllTasks(allBatches), task).previous
  }

  /** `t.requestGroups?.[0]?.time_spent || t.requests[0]?.time_spent || 0` */
  function TaskTimeSpent(t: DailyTask): int {
    if t.requestGroups.Some? && t.requestGroups.value != [] && t.requestGroups.value[0].timeSpent != 0 then
      t.requestGroups.value[0].timeSpent
    else if t.requests != [] then t.requests[0].timeSpent
    else 0
  }

  /** Every request index is completed; a task without requests counts as completed. */
  predicate IsTaskCompleted(t: DailyTask) {
    forall i :: 0 <= i < |t.requests| ==> i in t.completedTasks
  }

  /** The instant the task becomes available, 0 when there is none, and the reason to wait */
  function Target(task: DailyTask, records: map<int, CompletionRecord>, starts: map<int, StartState>,
                  instant: string -> Option<int>): (int, Reason)
  {
    var id := task.account.id;
    if id in records then
      (records[id].completionTime + Max(0, TaskTimeSpent(task) - records[id].timeSpent) * 1000, Cooldown)
    else if id in starts && starts[id].startTime != "" then
      match instant(starts[id].startTime)
      case Some(base) => (base + TaskTimeSpent(task) * 1000, Initializing)
      case None => (0, Initializing)
    else (0, Cooldown)
  }

  /** calculateTimerState, as a value */
  function TimerStateOf(task: DailyTask, allBatches: seq<GameBatch>, currentTime: int,
                        records: map<int, CompletionRecord>, starts: map<int, StartState>,
                        instant: string -> Option<int>): TimerState
  {
    var previous := PreviousTask(allBatches, task);
    if previous.Some? && !IsTaskCompleted(previous.value) then TimerState(false, true, 0, None, Blocked)
    else
      var (target, reason) := Target(task, records, starts, instant);
      if target > 0 && currentTime < target then
        TimerState(false, false, CeilDiv(target - currentTime, 1000), Some(target), reason)
      else TimerState(true, false, 0, None, Ready)
  }

  /** The loops of calculateTimerState that look for the previous task of the same account */
  method FindPreviousTask(task: DailyTask, allBatches: seq<GameBatch>) returns (previousTask: Option<DailyTask>)
    ensures previousTask == PreviousTask(allBatches, task)
  {
    var accountId := task.account.id;
    previousTask := None;
    var foundCurrent := false;
    var b := 0;
    while b < |allBatches|
      invariant 0 <= b <= |allBatches|
      invariant foundCurrent ==> ScanTasks(AllTasks(allBatches), task) == Scan(previousTask, true)
      invariant !foundCurrent ==> Scan(previousTask, false) == ScanTasks(AllTasks(allBatches[..b]), task)
    {
      var tasks := allBatches[b].tasks;
      var k := 0;
      assert allBatches[..b + 1][..b] == allBatches[..b];
      assert AllTasks(allBatches[..b]) + tasks[..0] == AllTasks(allBatches[..b]);
      while k < |tasks|
        invariant 0 <= k <= |tasks|
        invariant Scan(previousTask, foundCurrent) == ScanTasks(AllTasks(allBatches[..b]) + tasks[..k], task)
        invariant !foundCurrent
      {
        var t := tasks[k];
        ScanNext(AllTasks(allBatches[..b]), tasks, k, task);
        if t.account.id == accountId {
          if SameTask(t, task) {
            foundCurrent := true;
            break;
          }
          previousTask := Some(t);
        }
        k := k + 1;
      }
      if foundCurrent {
        ScanFoundInBatch(allBatches, b, k + 1, task);
        break;
      }
      assert tasks[..k] == tasks;
      b := b + 1;
    }
    if !foundCurrent {
      assert allBatches[..b] == allBatches;
    }
  }

  /** calculateTimerState: the previous task, then the target instant */
  method CalculateTimerState(task: DailyTask, allBatches: seq<GameBatch>, currentTime: int,
                             records: map<int, CompletionRecord>, starts: map<int, StartState>,
                             instant: string -> Option<int>) returns (state: TimerState)
    ensures state == TimerStateOf(task, allBatches, currentTime, records, starts, instant)
  {
    var accountId := task.account.id;
    var previousTask := FindPreviousTask(task, allBatches);
    if previousTask.Some? && !IsTaskCompleted(previousTask.value) {
      return TimerState(false, true, 0, None, Blocked);
    }
    var targetTime := 0;
    var reason := Cooldown;
    var currentTimeSpent := TaskTimeSpent(task);
    if accountId in records {
      var waitDuration := Max(0, currentTimeSpent - records[accountId].timeSpent);
      targetTime := records[accountId].completionTime + waitDuration * 1000;
    } else if accountId in starts && starts[accountId].startTime != "" {
      reason := Initializing;
      var baseTime := instant(starts[accountId].startTime);
      if baseTime.Some? {
        targetTime := baseTime.value + currentTimeSpent * 1000;
      }
    }
    if targetTime > 0 && currentTime < targetTime {
      var remainingTime := CeilDiv(targetTime - currentTime, 1000);
      return TimerState(false, false, remainingTime, Some(targetTime), reason);
    }
    return TimerState(true, false, 0, None, Ready);
  }

  /** One more task of the batch is one more step of the scan. */
  lemma ScanNext(xs: seq<DailyTask>, tasks: seq<DailyTask>, k: nat, task: DailyTask)
    requires k < |tasks|
    ensures ScanTasks(xs + tasks[..k + 1], task) == ScanStep(ScanTasks(xs + tasks[..k], task), tasks[k], task)
  {
    assert (xs + tasks[..k + 1])[..|xs + tasks[..k + 1]| - 1] == xs + tasks[..k];
  }

  /** A scan that found the current task within batch b ends there. */
  lemma ScanFoundInBatch(batches: seq<GameBatch>, b: nat, k: nat, task: DailyTask)
    requires b < |batches| && k <= |batches[b].tasks|
    requires ScanTasks(AllTasks(batches[..b]) + batches[b].tasks[..k], task).found
    ensures ScanTasks(AllTasks(batches), task) == ScanTasks(AllTasks(batches[..b]) + batches[b].tasks[..k], task)
  {
    var tasks := batches[b].tasks;
    var xs := AllTasks(batches[..b]) + tasks[..k];
    ScanFoundStays(xs, tasks[k..] + AllTasks(batches[b + 1..]), task);
    AllTasksSplit(batches, b);
    assert tasks == tasks[..k] + tasks[k..];
    assert xs + (tasks[k..] + AllTasks(batches[b + 1..])) == AllTasks(batches);
  }

  lemma {:induction false} AllTasksSplit(batches: seq<GameBatch>, b: nat)
    requires b < |batches|
    ensures AllTasks(batches) == AllTasks(batches[..b]) + batches[b].tasks + AllTasks(batches[b + 1..])
    decreases |batches|
  {
    if b == |batches| - 1 {
      assert batches[b + 1..] == [];
      assert batches[..|batches| - 1] == batches[..b];
    } else {
      var init := batches[..|batches| - 1];
      AllTasksSplit(init, b);
      assert init[..b] == batches[..b];
      assert init[b + 1..] == batches[b + 1..|batches| - 1];
      assert batches[b + 1..][..|batches[b + 1..]| - 1] == batches[b + 1..|batches| - 1];
    }
  }

  /** An open previous task blocks: not ready, nothing to wait for, no come-back time. */
  lemma BlockedRule(task: DailyTask, allBatches: seq<GameBatch>, currentTime: int,
                    records: map<int, CompletionRecord>, starts: map<int, StartState>, instant: string -> Option<int>)
    ensures var st := TimerStateOf(task, allBatches, currentTime, records, starts, instant);
      var previous := PreviousTask(allBatches, task);
      st.isBlocked <==> previous.Some? && exists i :: 0 <= i < |previous.value.requests| && i !in previous.value.completedTasks
    ensures var st := TimerStateOf(task, allBatches, currentTime, records, starts, instant);
      st.isBlocked ==> !st.isReady && st.remainingTime == 0 && st.comeBackTime.None? && st.reason == Blocked
  {
  }

  /** Unless blocked, the task waits exactly while the target instant is positive and still ahead;
      it then shows the remaining whole seconds, rounded up and at least one, and the target. The
      target follows the last completion by the growth in time spent, or else the parsed start
      time by the task's time spent. */
  lemma WaitRule(task: DailyTask, allBatches: seq<GameBatch>, currentTime: int,
                 records: map<int, CompletionRecord>, starts: map<int, StartState>, instant: string -> Option<int>)
    requires !TimerStateOf(task, allBatches, currentTime, records, starts, instant).isBlocked
    ensures var st := TimerStateOf(task, allBatches, currentTime, records, starts, instant);
      var id := task.account.id;
      var target := Target(task, records, starts, instant).0;
      (id in records ==>
         target == records[id].completionTime + Max(0, TaskTimeSpent(task) - records[id].timeSpent) * 1000)
      && (id !in records && id in starts && starts[id].startTime != "" && instant(starts[id].startTime).Some? ==>
         target == instant(starts[id].startTime).value + 1000 * TaskTimeSpent(task))
      && (!st.isReady <==> target > 0 && currentTime < target)
      && (!st.isReady ==> st.remainingTime >= 1 && 1000 * (st.remainingTime - 1) < target - currentTime <= 1000 * st.remainingTime
                          && st.comeBackTime == Some(target))
      && (st.isReady ==> st.remainingTime == 0 && st.comeBackTime.None? && st.reason == Ready)
  {
  }

  /** isBatchReady: every task of the batch is ready, so an empty batch is ready */
  predicate IsBatchReady(batch: GameBatch, allBatches: seq<GameBatch>, currentTime: int,
                         records: map<int, CompletionRecord>, starts: map<int, StartState>,
                         instant: string -> Option<int>)
  {
    forall i :: 0 <= i < |batch.tasks| ==>
      TimerStateOf(batch.tasks[i], allBatches, currentTime, records, starts, instant).isReady
  }

  /** A batch is ready exactly when none of its tasks is blocked and none still waits for its
      target instant. */
  lemma BatchReadyRule(batch: GameBatch, allBatches: seq<GameBatch>, currentTime: int,
                       records: map<int, CompletionRecord>, starts: map<int, StartState>,
                       instant: string -> Option<int>)
    ensures IsBatchReady(batch, allBatches, currentTime, records, starts, instant) <==>
      forall i :: 0 <= i < |batch.tasks| ==>
        !TimerStateOf(batch.tasks[i], allBatches, currentTime, records, starts, instant).isBlocked
        && !(Target(batch.tasks[i], records, starts, instant).0 > 0
             && currentTime < Target(batch.tasks[i], records, starts, instant).0)
  {
  }

  /** With the same records, a batch that is ready stays ready as the clock moves on. */
  lemma BatchReadyStays(batch: GameBatch, allBatches: seq<GameBatch>, currentTime: int, later: int,
                        records: map<int, CompletionRecord>, starts: map<int, StartState>,
                        instant: string -> Option<int>)
    requires currentTime <= later
    requires IsBatchReady(batch, allBatches, currentTime, records, starts, instant)
    ensures IsBatchReady(batch, allBatches, later, records, starts, instant)
  {
  }

  /** `${n}` followed by a unit letter */
  function Part(n: nat, unit: char): string {
    NatToString(n) + [unit]
  }

  /** `parts.join(' ')` */
  function JoinSpace(parts: seq<string>): string {
    if parts == [] then "" else if |parts| == 1 then parts[0] else parts[0] + " " + JoinSpace(parts[1..])
  }

  /** The printed form of h hours, m minutes and s seconds: zero hours and minutes are left out,
      and the seconds are shown when not zero or when nothing else is. */
  function DurationText(h: nat, m: nat, s: nat): string {
    JoinSpace((if h > 0 then [Part(h, 'h')] else [])
            + (if m > 0 then [Part(m, 'm')] else [])
            + (if s > 0 || (h == 0 && m == 0) then [Part(s, 's')] else []))
  }

  /** formatRemainingTime */
  method FormatRemainingTime(seconds: int) returns (text: string)
    ensures seconds <= 0 ==> text == "0s"
    ensures seconds > 0 ==> exists h: nat, m: nat, s: nat ::
      h * 3600 + m * 60 + s == seconds && m < 60 && s < 60 && text == DurationText(h, m, s)
  {
    if seconds <= 0 {
      return "0s";
    }
    var hours: nat := seconds / 3600;
    var minutes: nat := (seconds % 3600) / 60;
    var secs: nat := seconds % 60;
    assert minutes < 60 && secs < 60;
    var parts: seq<string> := [];
    if hours > 0 {
      parts := parts + [Part(hours, 'h')];
    }
    if minutes > 0 {
      parts := parts + [Part(minutes, 'm')];
    }
    ghost var front := parts;
    assert front == (if hours > 0 then [Part(hours, 'h')] else []) + (if minutes > 0 then [Part(minutes, 'm')] else []);
    assert |parts| == 0 <==> hours == 0 && minutes == 0;
    if secs > 0 || |parts| == 0 {
      parts := parts + [Part(secs, 's')];
    }
    text := JoinSpace(parts);
    assert hours * 3600 + minutes * 60 + secs == seconds;
    assert parts == (if hours > 0 then [Part(hours, 'h')] else []) + (if minutes > 0 then [Part(minutes, 'm')] else [])
                    + (if secs > 0 || (hours == 0 && minutes == 0) then [Part(secs, 's')] else []);
    assert text == DurationText(hours, minutes, secs);
  }
}
