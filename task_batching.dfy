// The second half of generateTodaysTasks: the request groups of every account are dealt into
// batches round by round, one group from one account of each game per round.

module TaskBatching {
  import opened Options
  import opened TaskTypes
  import opened TimerUtils
  import Lists

  /** The record kept for each group handed out */
  datatype Assignment = Assignment(accountId: int, assignedTime: int, eventToken: string, timeSpent: int)

  /** The groups of a task; a task without requestGroups has none */
  function Groups(t: DailyTask): seq<RequestGroup> {
    t.requestGroups.GetOr([])
  }

  /** `accountGroupIndex[accountId] || 0` */
  function Idx(index: map<int, nat>, accountId: int): nat {
    if accountId in index then index[accountId] else 0
  }

  predicate HasGroupLeft(index: map<int, nat>, t: DailyTask) {
    Idx(index, t.account.id) < |Groups(t)|
  }

  /** The task handed out for one group: the group's requests only, nothing completed */
  function GroupTask(t: DailyTask, g: RequestGroup): DailyTask {
    DailyTask(t.account, g.requests, None, t.targetDate, {})
  }

  /** The tasks for all groups of t, in group order */
  function GroupTasksOf(t: DailyTask): seq<DailyTask> {
    seq(|Groups(t)|, i requires 0 <= i < |Groups(t)| => GroupTask(t, Groups(t)[i]))
  }

  /** The position of the first task of a game that has a group left, or -1 */
  function PickIn(tasks: seq<DailyTask>, index: map<int, nat>): (r: int)
    ensures -1 <= r < |tasks|
    ensures r >= 0 ==> HasGroupLeft(index, tasks[r]) && forall i :: 0 <= i < r ==> !HasGroupLeft(index, tasks[i])
    ensures r == -1 ==> forall i :: 0 <= i < |tasks| ==> !HasGroupLeft(index, tasks[i])
  {
    if tasks == [] then -1
    else if HasGroupLeft(index, tasks[0]) then 0
    else
      var r := PickIn(tasks[1..], index);
      if r < 0 then -1 else r + 1
  }

  /** What one round hands out, the assignments it records, and the group indices after it */
  datatype Round = Round(tasks: seq<DailyTask>, assignments: seq<Assignment>, index: map<int, nat>)

  /** One round over the games from the first: each game gives the next group of its first task
      with a group left, and that account moves on to its next group. */
  function RoundFrom(games: seq<seq<DailyTask>>, index: map<int, nat>, now: int): Round {
    if games == [] then Round([], [], index)
    else
      var i := PickIn(games[0], index);
      if i < 0 then RoundFrom(games[1..], index, now)
      else
        var t := games[0][i];
        var k := Idx(index, t.account.id);
        var g := Groups(t)[k];
        var rest := RoundFrom(games[1..], index[t.account.id := k + 1], now);
        Round([GroupTask(t, g)] + rest.tasks,
              [Assignment(t.account.id, now, g.eventToken, g.timeSpent)] + rest.assignments, rest.index)
  }

  /** The tasks of all games, game after game */
  function Flat(games: seq<seq<DailyTask>>): seq<DailyTask> {
    if games == [] then [] else games[0] + Flat(games[1..])
  }

  /** The number of groups still to hand out, counted per task */
  function Remaining(ts: seq<DailyTask>, index: map<int, nat>): nat {
    if ts == [] then 0
    else
      (if HasGroupLeft(index, ts[0]) then |Groups(ts[0])| - Idx(index, ts[0].account.id) else 0)
      + Remaining(ts[1..], index)
  }

  /** Moving an account to its next group never adds work, and removes some when one of its tasks
      had a group left. */
  lemma {:induction false} AdvanceShrinks(ts: seq<DailyTask>, index: map<int, nat>, a: int)
    ensures Remaining(ts, index[a := Idx(index, a) + 1]) <= Remaining(ts, index)
    ensures (exists t :: t in ts && t.account.id == a && HasGroupLeft(index, t)) ==>
      Remaining(ts, index[a := Idx(index, a) + 1]) < Remaining(ts, index)
  {
    if ts != [] {
      AdvanceShrinks(ts[1..], index, a);
      assert forall t :: t in ts && t != ts[0] ==> t in ts[1..];
    }
  }

  /** A round never adds work, and a round that hands something out removes some. */
  lemma {:induction false} RoundShrinks(games: seq<seq<DailyTask>>, index: map<int, nat>, all: seq<DailyTask>, now: int)
    requires forall t :: t in Flat(games) ==> t in all
    ensures Remaining(all, RoundFrom(games, index, now).index) <= Remaining(all, index)
    ensures RoundFrom(games, index, now).tasks != [] ==> Remaining(all, RoundFrom(games, index, now).index) < Remaining(all, index)
  {
    if games != [] {
      assert Flat(games) == games[0] + Flat(games[1..]);
      var i := PickIn(games[0], index);
      if i < 0 {
        RoundShrinks(games[1..], index, all, now);
      } else {
        var t := games[0][i];
        var next := index[t.account.id := Idx(index, t.account.id) + 1];
        assert t in all;
        AdvanceShrinks(all, index, t.account.id);
        RoundShrinks(games[1..], next, all, now);
      }
    }
  }

  /** What the whole loop produces: the batches, numbered from `next`, and the assignments */
  datatype Distribution = Distribution(batches: seq<GameBatch>, assignments: seq<Assignment>)

  /** Rounds are played until one hands out nothing; a round that hands out something becomes a
      batch. */
  function DistributeFrom(games: seq<seq<DailyTask>>, index: map<int, nat>, next: int, now: int): Distribution
    decreases Remaining(Flat(games), index)
  {
    var r := RoundFrom(games, index, now);
    if r.tasks == [] then Distribution([], r.assignments)
    else
      RoundShrinks(games, index, Flat(games), now);
      var rest := DistributeFrom(games, r.index, next + 1, now);
      Distribution([GameBatch(next, r.tasks)] + rest.batches, r.assignments + rest.assignments)
  }

  /** The inner loops of one round: for each game, the first task with a group left */
  method PlaceRound(games: seq<seq<DailyTask>>, index: map<int, nat>, now: int)
    returns (tasks: seq<DailyTask>, assignments: seq<Assignment>, index': map<int, nat>, hasAnyGroups: bool)
    ensures Round(tasks, assignments, index') == RoundFrom(games, index, now)
    ensures hasAnyGroups <==> tasks != []
  {
    tasks, assignments, index', hasAnyGroups := [], [], index, false;
    var g := 0;
    while g < |games|
      invariant 0 <= g <= |games|
      invariant hasAnyGroups <==> tasks != []
      invariant Completes(Round(tasks, assignments, index'), RoundFrom(games[g..], index', now)) == RoundFrom(games, index, now)
    {
      var gameTasks := games[g];
      SliceTail(games, g);
      var j := FirstWithGroupLeft(gameTasks, index');
      if j < |gameTasks| {
        var task := gameTasks[j];
        var accountId := task.account.id;
        var currentGroupIndex := Idx(index', accountId);
        var currentGroup := Groups(task)[currentGroupIndex];
        TakeStep(games[g..], index', now, tasks, assignments, RoundFrom(games, index, now), task, games[g + 1..]);
        tasks := tasks + [GroupTask(task, currentGroup)];
        assignments := assignments + [Assignment(accountId, now, currentGroup.eventToken, currentGroup.timeSpent)];
        index' := index'[accountId := currentGroupIndex + 1];
        hasAnyGroups := true;
      } else {
        RoundSkips(games[g..], index', now);
      }
      g := g + 1;
    }
  }

  lemma SliceTail<T>(s: seq<T>, g: nat)
    requires g < |s|
    ensures s[g..][1..] == s[g + 1..] && s[g..][0] == s[g]
  {
  }

  /** The loop's step when the game has a task with a group left: that group moves to the round so far. */
  lemma TakeStep(rest: seq<seq<DailyTask>>, index: map<int, nat>, now: int,
                 tasks: seq<DailyTask>, assignments: seq<Assignment>, total: Round, t: DailyTask, later: seq<seq<DailyTask>>)
    requires rest != [] && PickIn(rest[0], index) >= 0
    requires t == rest[0][PickIn(rest[0], index)] && later == rest[1..]
    requires Completes(Round(tasks, assignments, index), RoundFrom(rest, index, now)) == total
    ensures var k := Idx(index, t.account.id);
      var g := Groups(t)[k];
      var next := index[t.account.id := k + 1];
      Completes(Round(tasks + [GroupTask(t, g)], assignments + [Assignment(t.account.id, now, g.eventToken, g.timeSpent)], next),
        RoundFrom(later, next, now)) == total
  {
    var k := Idx(index, t.account.id);
    var g := Groups(t)[k];
    var next := index[t.account.id := k + 1];
    RoundTakes(rest, index, now);
    CompletesStep(Round(tasks, assignments, index), [GroupTask(t, g)], [Assignment(t.account.id, now, g.eventToken, g.timeSpent)],
      RoundFrom(rest[1..], next, now));
  }

  /** The round so far followed by the rest of the round */
  function Completes(done: Round, rest: Round): Round {
    Round(done.tasks + rest.tasks, done.assignments + rest.assignments, rest.index)
  }

  lemma CompletesStep(done: Round, ts: seq<DailyTask>, asg: seq<Assignment>, rest: Round)
    ensures Completes(done, Round(ts + rest.tasks, asg + rest.assignments, rest.index))
      == Completes(Round(done.tasks + ts, done.assignments + asg, rest.index), rest)
  {
    assert done.tasks + (ts + rest.tasks) == (done.tasks + ts) + rest.tasks;
    assert done.assignments + (asg + rest.assignments) == (done.assignments + asg) + rest.assignments;
  }

  lemma RoundSkips(games: seq<seq<DailyTask>>, index: map<int, nat>, now: int)
    requires games != [] && PickIn(games[0], index) < 0
    ensures RoundFrom(games, index, now) == RoundFrom(games[1..], index, now)
  {
  }

  lemma RoundTakes(games: seq<seq<DailyTask>>, index: map<int, nat>, now: int)
    requires games != [] && PickIn(games[0], index) >= 0
    ensures var t := games[0][PickIn(games[0], index)];
      var k := Idx(index, t.account.id);
      var g := Groups(t)[k];
      var rest := RoundFrom(games[1..], index[t.account.id := k + 1], now);
      RoundFrom(games, index, now)
        == Round([GroupTask(t, g)] + rest.tasks, [Assignment(t.account.id, now, g.eventToken, g.timeSpent)] + rest.assignments, rest.index)
  {
  }

  /** The search of one game's tasks for the first with a group left */
  method FirstWithGroupLeft(gameTasks: seq<DailyTask>, index: map<int, nat>) returns (j: nat)
    ensures j == if PickIn(gameTasks, index) < 0 then |gameTasks| else PickIn(gameTasks, index)
  {
    j := 0;
    while j < |gameTasks| && !HasGroupLeft(index, gameTasks[j])
      invariant 0 <= j <= |gameTasks|
      invariant forall i :: 0 <= i < j ==> !HasGroupLeft(index, gameTasks[i])
    {
      j := j + 1;
    }
  }

  /** The `while (true)` loop of generateTodaysTasks from its group indices on */
  method Distribute(games: seq<seq<DailyTask>>, now: int) returns (batches: seq<GameBatch>, assignments: seq<Assignment>)
    ensures Distribution(batches, assignments) == DistributeFrom(games, map[], 0, now)
  {
    var accountGroupIndex: map<int, nat> := map[];
    batches, assignments := [], [];
    var batchIndex := 0;
    ghost var total := DistributeFrom(games, map[], 0, now);
    while true
      invariant var rest := DistributeFrom(games, accountGroupIndex, batchIndex, now);
        Distribution(batches + rest.batches, assignments + rest.assignments) == total
      decreases Remaining(Flat(games), accountGroupIndex)
    {
      var currentBatchTasks, roundAssignments, nextIndex, hasAnyGroups := PlaceRound(games, accountGroupIndex, now);
      if hasAnyGroups {
        NextRound(games, accountGroupIndex, batchIndex, now, batches, assignments, total);
      } else {
        LastRound(games, accountGroupIndex, batchIndex, now, batches, assignments, total);
      }
      assignments := assignments + roundAssignments;
      if |currentBatchTasks| > 0 {
        batches := batches + [GameBatch(batchIndex, currentBatchTasks)];
        batchIndex := batchIndex + 1;
      }
      if !hasAnyGroups {
        break;
      }
      RoundShrinks(games, accountGroupIndex, Flat(games), now);
      accountGroupIndex := nextIndex;
    }
  }

  /** The loop's step when the round hands out something: it becomes the next batch. */
  lemma NextRound(games: seq<seq<DailyTask>>, index: map<int, nat>, next: int, now: int,
                  batches: seq<GameBatch>, assignments: seq<Assignment>, total: Distribution)
    requires RoundFrom(games, index, now).tasks != []
    requires var d := DistributeFrom(games, index, next, now);
      Distribution(batches + d.batches, assignments + d.assignments) == total
    ensures var r := RoundFrom(games, index, now);
      var rest := DistributeFrom(games, r.index, next + 1, now);
      Distribution(batches + [GameBatch(next, r.tasks)] + rest.batches, assignments + r.assignments + rest.assignments) == total
  {
    var r := RoundFrom(games, index, now);
    var rest := DistributeFrom(games, r.index, next + 1, now);
    assert DistributeFrom(games, index, next, now)
      == Distribution([GameBatch(next, r.tasks)] + rest.batches, r.assignments + rest.assignments);
    Lists.Assoc(batches, [GameBatch(next, r.tasks)], rest.batches);
    Lists.Assoc(assignments, r.assignments, rest.assignments);
  }

  /** The loop's last step: the round hands out nothing and only its assignments are kept. */
  lemma LastRound(games: seq<seq<DailyTask>>, index: map<int, nat>, next: int, now: int,
                  batches: seq<GameBatch>, assignments: seq<Assignment>, total: Distribution)
    requires RoundFrom(games, index, now).tasks == []
    requires var d := DistributeFrom(games, index, next, now);
      Distribution(batches + d.batches, assignments + d.assignments) == total
    ensures Distribution(batches, assignments + RoundFrom(games, index, now).assignments) == total
  {
    assert batches + [] == batches;
  }

  /** A round hands out at most one group per game and records one assignment, for the same
      account, per group handed out. */
  lemma {:induction false} RoundAtMostOnePerGame(games: seq<seq<DailyTask>>, index: map<int, nat>, now: int)
    ensures var r := RoundFrom(games, index, now);
      |r.tasks| <= |games| && |r.assignments| == |r.tasks|
      && forall i :: 0 <= i < |r.tasks| ==> r.assignments[i].accountId == r.tasks[i].account.id
  {
    if games != [] {
      var i := PickIn(games[0], index);
      if i >= 0 {
        var t := games[0][i];
        var k := Idx(index, t.account.id);
        var g := Groups(t)[k];
        var next := index[t.account.id := k + 1];
        RoundAtMostOnePerGame(games[1..], next, now);
        RoundTakes(games, index, now);
        var rest := RoundFrom(games[1..], next, now);
        PairedCons(GroupTask(t, g), Assignment(t.account.id, now, g.eventToken, g.timeSpent), rest.tasks, rest.assignments);
      } else {
        RoundAtMostOnePerGame(games[1..], index, now);
        RoundSkips(games, index, now);
      }
    }
  }

  /** Tasks and assignments that pair up by account still do with one more pair in front. */
  lemma PairedCons(t: DailyTask, a: Assignment, ts: seq<DailyTask>, asg: seq<Assignment>)
    requires a.accountId == t.account.id
    requires |asg| == |ts| && forall i :: 0 <= i < |ts| ==> asg[i].accountId == ts[i].account.id
    ensures |[a] + asg| == |[t] + ts|
    ensures forall i :: 0 <= i < |[t] + ts| ==> ([a] + asg)[i].accountId == ([t] + ts)[i].account.id
  {
  }

  /** Batches are never empty and are numbered next, next + 1, … without gaps. */
  lemma {:induction false} BatchesNumbered(games: seq<seq<DailyTask>>, index: map<int, nat>, next: int, now: int)
    ensures var d := DistributeFrom(games, index, next, now);
      forall i :: 0 <= i < |d.batches| ==> d.batches[i].batchIndex == next + i && d.batches[i].tasks != []
    decreases Remaining(Flat(games), index)
  {
    var r := RoundFrom(games, index, now);
    if r.tasks != [] {
      RoundShrinks(games, index, Flat(games), now);
      BatchesNumbered(games, r.index, next + 1, now);
      var rest := DistributeFrom(games, r.index, next + 1, now);
      var d := DistributeFrom(games, index, next, now);
      DistributeStep(games, index, next, now);
      forall i | 0 <= i < |d.batches| ensures d.batches[i].batchIndex == next + i && d.batches[i].tasks != [] {
        if i > 0 {
          assert d.batches[i] == rest.batches[i - 1];
        }
      }
    }
  }

  /** The tasks of one account, in order */
  function TasksOfAccount(ts: seq<DailyTask>, accountId: int): seq<DailyTask> {
    if ts == [] then []
    else (if ts[0].account.id == accountId then [ts[0]] else []) + TasksOfAccount(ts[1..], accountId)
  }

  lemma {:induction false} TasksOfAccountConcat(a: seq<DailyTask>, b: seq<DailyTask>, accountId: int)
    ensures TasksOfAccount(a + b, accountId) == TasksOfAccount(a, accountId) + TasksOfAccount(b, accountId)
  {
    if a != [] {
      assert (a + b)[0] == a[0] && (a + b)[1..] == a[1..] + b;
      TasksOfAccountConcat(a[1..], b, accountId);
    } else {
      assert a + b == b;
    }
  }

  /** No two tasks belong to the same account. */
  predicate DistinctAccounts(ts: seq<DailyTask>) {
    forall i, j :: 0 <= i < j < |ts| ==> ts[i].account.id != ts[j].account.id
  }

  /** A round touches only accounts it has tasks for. */
  lemma {:induction false} RoundLeavesOthers(games: seq<seq<DailyTask>>, index: map<int, nat>, now: int, a: int)
    requires forall t :: t in Flat(games) ==> t.account.id != a
    ensures TasksOfAccount(RoundFrom(games, index, now).tasks, a) == []
    ensures Idx(RoundFrom(games, index, now).index, a) == Idx(index, a)
  {
    if games != [] {
      assert Flat(games) == games[0] + Flat(games[1..]);
      var i := PickIn(games[0], index);
      if i < 0 {
        RoundLeavesOthers(games[1..], index, now, a);
      } else {
        var t := games[0][i];
        assert t in Flat(games);
        var next := index[t.account.id := Idx(index, t.account.id) + 1];
        RoundLeavesOthers(games[1..], next, now, a);
      }
    }
  }

  /** One game's part of a round */
  lemma RoundStep(games: seq<seq<DailyTask>>, index: map<int, nat>, now: int)
    requires games != []
    ensures var i := PickIn(games[0], index);
      i < 0 ==> RoundFrom(games, index, now) == RoundFrom(games[1..], index, now)
    ensures var i := PickIn(games[0], index);
      i >= 0 ==>
        var t := games[0][i];
        var k := Idx(index, t.account.id);
        var rest := RoundFrom(games[1..], index[t.account.id := k + 1], now);
        RoundFrom(games, index, now).tasks == [GroupTask(t, Groups(t)[k])] + rest.tasks
        && RoundFrom(games, index, now).index == rest.index
  {
  }

  /** The tasks after the first game are distinct too, and none shares an account with the first
      game's tasks. */
  lemma DistinctSplit(games: seq<seq<DailyTask>>)
    requires games != [] && DistinctAccounts(Flat(games))
    ensures DistinctAccounts(Flat(games[1..]))
    ensures forall i, u :: 0 <= i < |games[0]| && u in Flat(games[1..]) ==> u.account.id != games[0][i].account.id
  {
    var flat := Flat(games);
    var head := games[0];
    var tail := Flat(games[1..]);
    assert flat == head + tail;
    forall i, j | 0 <= i < j < |tail| ensures tail[i].account.id != tail[j].account.id {
      DistinctAt(flat, |head| + i, |head| + j);
    }
    forall i, u | 0 <= i < |head| && u in tail ensures u.account.id != head[i].account.id {
      var q :| 0 <= q < |tail| && tail[q] == u;
      DistinctAt(flat, i, |head| + q);
    }
  }

  lemma DistinctAt(ts: seq<DailyTask>, i: nat, j: nat)
    requires DistinctAccounts(ts) && i < j < |ts|
    ensures ts[i].account.id != ts[j].account.id
  {
  }

  /** With one task per account, a round either hands the account's task its next group and
      moves the account on by one, or leaves the account alone. */
  predicate NextOrNothing(r: Round, index: map<int, nat>, t: DailyTask) {
    var k := Idx(index, t.account.id);
    (k < |Groups(t)| && TasksOfAccount(r.tasks, t.account.id) == [GroupTask(t, Groups(t)[k])] && Idx(r.index, t.account.id) == k + 1)
    || (TasksOfAccount(r.tasks, t.account.id) == [] && Idx(r.index, t.account.id) == k)
  }

  lemma {:induction false} RoundPerAccount(games: seq<seq<DailyTask>>, index: map<int, nat>, now: int, p: nat)
    requires DistinctAccounts(Flat(games)) && p < |Flat(games)|
    ensures NextOrNothing(RoundFrom(games, index, now), index, Flat(games)[p])
    decreases |games|, 1
  {
    FlatIndex(games, p);
    if p < |games[0]| {
      DistinctHead(games, p);
      RoundPerAccountHead(games, index, now, p);
    } else {
      DistinctTail(games, p - |games[0]|);
      RoundPerAccountTail(games, index, now, p - |games[0]|);
    }
  }

  lemma FlatIndex(games: seq<seq<DailyTask>>, p: nat)
    requires p < |Flat(games)|
    ensures games != []
    ensures p < |games[0]| ==> Flat(games)[p] == games[0][p]
    ensures p >= |games[0]| ==> p - |games[0]| < |Flat(games[1..])| && Flat(games)[p] == Flat(games[1..])[p - |games[0]|]
  {
    assert Flat(games) == games[0] + Flat(games[1..]);
  }

  /** The task at `p` of the first game shares its account with no other task. */
  lemma DistinctHead(games: seq<seq<DailyTask>>, p: nat)
    requires games != [] && DistinctAccounts(Flat(games)) && p < |games[0]|
    ensures forall i :: 0 <= i < |games[0]| && i != p ==> games[0][i].account.id != games[0][p].account.id
    ensures forall u :: u in Flat(games[1..]) ==> u.account.id != games[0][p].account.id
  {
    DistinctSplit(games);
    assert Flat(games) == games[0] + Flat(games[1..]);
    forall i | 0 <= i < |games[0]| && i != p ensures games[0][i].account.id != games[0][p].account.id {
      assert Flat(games)[i] == games[0][i] && Flat(games)[p] == games[0][p];
    }
  }

  /** A task after the first game shares its account with no task of the first game. */
  lemma DistinctTail(games: seq<seq<DailyTask>>, q: nat)
    requires games != [] && DistinctAccounts(Flat(games)) && q < |Flat(games[1..])|
    ensures DistinctAccounts(Flat(games[1..]))
    ensures forall i :: 0 <= i < |games[0]| ==> games[0][i].account.id != Flat(games[1..])[q].account.id
  {
    DistinctSplit(games);
    assert Flat(games[1..])[q] in Flat(games[1..]);
  }

  /** The account's task is in the first game: the first game picks it or another account. */
  lemma {:induction false} RoundPerAccountHead(games: seq<seq<DailyTask>>, index: map<int, nat>, now: int, p: nat)
    requires games != [] && p < |games[0]|
    requires forall i :: 0 <= i < |games[0]| && i != p ==> games[0][i].account.id != games[0][p].account.id
    requires forall u :: u in Flat(games[1..]) ==> u.account.id != games[0][p].account.id
    ensures NextOrNothing(RoundFrom(games, index, now), index, games[0][p])
  {
    var t := games[0][p];
    var a := t.account.id;
    var i := PickIn(games[0], index);
    if i >= 0 {
      var picked := games[0][i];
      var next := index[picked.account.id := Idx(index, picked.account.id) + 1];
      RoundLeavesOthers(games[1..], next, now, a);
      if i != p {
        OtherPickFirst(games, index, now, t);
      } else {
        OwnPickFirst(games, index, now);
      }
    } else {
      RoundSkips(games, index, now);
      RoundLeavesOthers(games[1..], index, now, a);
    }
  }

  /** The first game hands out the next group of its task: no other game touches that account. */
  lemma OwnPickFirst(games: seq<seq<DailyTask>>, index: map<int, nat>, now: int)
    requires games != [] && PickIn(games[0], index) >= 0
    requires var t := games[0][PickIn(games[0], index)];
      var next := index[t.account.id := Idx(index, t.account.id) + 1];
      var rest := RoundFrom(games[1..], next, now);
      TasksOfAccount(rest.tasks, t.account.id) == [] && Idx(rest.index, t.account.id) == Idx(next, t.account.id)
    ensures NextOrNothing(RoundFrom(games, index, now), index, games[0][PickIn(games[0], index)])
  {
    var t := games[0][PickIn(games[0], index)];
    var k := Idx(index, t.account.id);
    var next := index[t.account.id := k + 1];
    RoundTakes(games, index, now);
    OwnPick(RoundFrom(games, index, now), RoundFrom(games[1..], next, now), index, t, k);
  }

  /** The round picks the account's own task: its next group and nothing else of the account. */
  lemma OwnPick(r: Round, rest: Round, index: map<int, nat>, t: DailyTask, k: nat)
    requires k == Idx(index, t.account.id) && k < |Groups(t)|
    requires r.tasks == [GroupTask(t, Groups(t)[k])] + rest.tasks && r.index == rest.index
    requires TasksOfAccount(rest.tasks, t.account.id) == [] && Idx(rest.index, t.account.id) == k + 1
    ensures NextOrNothing(r, index, t)
  {
    TasksOfAccountConcat([GroupTask(t, Groups(t)[k])], rest.tasks, t.account.id);
    assert TasksOfAccount([GroupTask(t, Groups(t)[k])], t.account.id) == [GroupTask(t, Groups(t)[k])];
  }

  /** The round first hands out a group of another account: the account fares as in the rest. */
  lemma OtherPickKeeps(r: Round, rest: Round, index: map<int, nat>, next: map<int, nat>, head: DailyTask, t: DailyTask)
    requires r.tasks == [head] + rest.tasks && r.index == rest.index
    requires head.account.id != t.account.id
    requires Idx(next, t.account.id) == Idx(index, t.account.id)
    requires NextOrNothing(rest, next, t)
    ensures NextOrNothing(r, index, t)
  {
    TasksOfAccountConcat([head], rest.tasks, t.account.id);
    assert TasksOfAccount([head], t.account.id) == [];
    assert [] + TasksOfAccount(rest.tasks, t.account.id) == TasksOfAccount(rest.tasks, t.account.id);
  }

  /** The account's task is in a later game: the first game picks another account. */
  lemma {:induction false} RoundPerAccountTail(games: seq<seq<DailyTask>>, index: map<int, nat>, now: int, q: nat)
    requires games != [] && q < |Flat(games[1..])| && DistinctAccounts(Flat(games[1..]))
    requires forall i :: 0 <= i < |games[0]| ==> games[0][i].account.id != Flat(games[1..])[q].account.id
    ensures NextOrNothing(RoundFrom(games, index, now), index, Flat(games[1..])[q])
    decreases |games|, 0
  {
    var t := Flat(games[1..])[q];
    var i := PickIn(games[0], index);
    if i >= 0 {
      var picked := games[0][i];
      var next := index[picked.account.id := Idx(index, picked.account.id) + 1];
      RoundPerAccount(games[1..], next, now, q);
      OtherPickFirst(games, index, now, t);
    } else {
      RoundSkips(games, index, now);
      RoundPerAccount(games[1..], index, now, q);
    }
  }

  /** The first game hands out a group of another account: the account fares as in the other games. */
  lemma OtherPickFirst(games: seq<seq<DailyTask>>, index: map<int, nat>, now: int, t: DailyTask)
    requires games != [] && PickIn(games[0], index) >= 0
    requires var picked := games[0][PickIn(games[0], index)];
      var next := index[picked.account.id := Idx(index, picked.account.id) + 1];
      picked.account.id != t.account.id && NextOrNothing(RoundFrom(games[1..], next, now), next, t)
    ensures NextOrNothing(RoundFrom(games, index, now), index, t)
  {
    var picked := games[0][PickIn(games[0], index)];
    var k := Idx(index, picked.account.id);
    var next := index[picked.account.id := k + 1];
    RoundTakes(games, index, now);
    OtherPickKeeps(RoundFrom(games, index, now), RoundFrom(games[1..], next, now), index, next,
      GroupTask(picked, Groups(picked)[k]), t);
  }

  /** A round that hands out nothing finds no task with a group left. */
  lemma {:induction false} EmptyRoundMeansDone(games: seq<seq<DailyTask>>, index: map<int, nat>, now: int)
    requires RoundFrom(games, index, now).tasks == []
    ensures forall t :: t in Flat(games) ==> !HasGroupLeft(index, t)
  {
    if games != [] {
      assert Flat(games) == games[0] + Flat(games[1..]);
      EmptyRoundMeansDone(games[1..], index, now);
    }
  }

  /** With one task per account, the batches hold each account's remaining groups exactly once
      each, in group order. */
  lemma {:induction false} EveryGroupPlacedOnce(games: seq<seq<DailyTask>>, index: map<int, nat>, next: int, now: int, p: nat)
    requires DistinctAccounts(Flat(games)) && p < |Flat(games)|
    requires Idx(index, Flat(games)[p].account.id) <= |Groups(Flat(games)[p])|
    ensures var t := Flat(games)[p];
      TasksOfAccount(AllTasks(DistributeFrom(games, index, next, now).batches), t.account.id)
        == GroupTasksOf(t)[Idx(index, t.account.id)..]
    decreases Remaining(Flat(games), index)
  {
    var t := Flat(games)[p];
    var a := t.account.id;
    var k := Idx(index, a);
    var r := RoundFrom(games, index, now);
    var d := DistributeFrom(games, index, next, now);
    if r.tasks == [] {
      EmptyRoundMeansDone(games, index, now);
      assert !HasGroupLeft(index, t);
      assert d.batches == [];
    } else {
      RoundShrinks(games, index, Flat(games), now);
      var rest := DistributeFrom(games, r.index, next + 1, now);
      DistributeStep(games, index, next, now);
      RoundPerAccount(games, index, now, p);
      assert Idx(r.index, a) <= |Groups(t)|;
      EveryGroupPlacedOnce(games, r.index, next + 1, now, p);
      AllTasksCons(GameBatch(next, r.tasks), rest.batches);
      PlacedStep(t, index, r, AllTasks(rest.batches));
    }
  }

  /** A round followed by the rest holds the account's groups from its index on, when the rest
      holds them from the index after the round. */
  lemma PlacedStep(t: DailyTask, index: map<int, nat>, r: Round, later: seq<DailyTask>)
    requires Idx(index, t.account.id) <= |Groups(t)|
    requires NextOrNothing(r, index, t)
    requires TasksOfAccount(later, t.account.id) == GroupTasksOf(t)[Idx(r.index, t.account.id)..]
    ensures TasksOfAccount(r.tasks + later, t.account.id) == GroupTasksOf(t)[Idx(index, t.account.id)..]
  {
    var a := t.account.id;
    var k := Idx(index, a);
    TasksOfAccountConcat(r.tasks, later, a);
    if Idx(r.index, a) == k + 1 {
      SuffixStep(t, k);
    } else {
      assert [] + TasksOfAccount(later, a) == TasksOfAccount(later, a);
    }
  }

  lemma DistributeStep(games: seq<seq<DailyTask>>, index: map<int, nat>, next: int, now: int)
    requires RoundFrom(games, index, now).tasks != []
    ensures var r := RoundFrom(games, index, now);
      DistributeFrom(games, index, next, now).batches
        == [GameBatch(next, r.tasks)] + DistributeFrom(games, r.index, next + 1, now).batches
  {
  }

  lemma AllTasksCons(b: GameBatch, bs: seq<GameBatch>)
    ensures AllTasks([b] + bs) == b.tasks + AllTasks(bs)
  {
    AllTasksSplit([b] + bs, 0);
    assert ([b] + bs)[..0] == [] && ([b] + bs)[1..] == bs;
  }

  lemma SuffixStep(t: DailyTask, k: nat)
    requires k < |Groups(t)|
    ensures GroupTasksOf(t)[k..] == [GroupTask(t, Groups(t)[k])] + GroupTasksOf(t)[k + 1..]
  {
  }

  /** Starting from no group handed out, every group of every task ends up in the batches, once,
      in order, when each account has one task. */
  lemma AllGroupsPlaced(games: seq<seq<DailyTask>>, now: int, p: nat)
    requires DistinctAccounts(Flat(games)) && p < |Flat(games)|
    ensures var t := Flat(games)[p];
      TasksOfAccount(AllTasks(DistributeFrom(games, map[], 0, now).batches), t.account.id) == GroupTasksOf(t)
  {
    EveryGroupPlacedOnce(games, map[], 0, now, p);
    assert GroupTasksOf(Flat(games)[p])[0..] == GroupTasksOf(Flat(games)[p]);
  }
}
