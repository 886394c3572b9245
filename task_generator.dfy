// generateTodaysTasks: the day's requests of every account are filtered to known events, grouped
// into session and event pairs, sorted, given scheduled times and dealt into batches. The backend
// calls are inputs: each holds what the call returned, or None when it failed.

module TaskGenerator {
  import opened Options
  import opened Lists
  import opened TaskTypes
  import opened Catalog
  import opened DailyTaskUtils
  import opened TaskBatching

  /** What get_daily_requests returned for an account */
  datatype DailyResponse = DailyResponse(requests: seq<DailyRequest>, targetDate: string)

  datatype AccountInput = AccountInput(account: Account, response: Option<DailyResponse>)

  /** The accounts, levels and purchase events of a game */
  datatype GameCatalog = GameCatalog(accounts: seq<AccountInput>, levels: seq<Level>, purchaseEvents: seq<PurchaseEvent>)

  datatype GameInput = GameInput(gameId: int, catalog: Option<GameCatalog>)

  // ---------------------------------------------------------------------------------------------
  // Requests for known events

  /** The request's event token is the token of one of the game's levels or purchase events. */
  predicate IsKnownEvent(r: DailyRequest, levels: seq<Level>, purchaseEvents: seq<PurchaseEvent>) {
    (exists l :: l in levels && r.eventToken == Some(l.eventToken))
    || (exists p :: p in purchaseEvents && r.eventToken == Some(p.eventToken))
  }

  function KnownRequests(rs: seq<DailyRequest>, levels: seq<Level>, purchaseEvents: seq<PurchaseEvent>): seq<DailyRequest> {
    if rs == [] then []
    else
      KnownRequests(rs[..|rs| - 1], levels, purchaseEvents)
      + (if IsKnownEvent(rs[|rs| - 1], levels, purchaseEvents) then [rs[|rs| - 1]] else [])
  }

  /** The kept requests are the requests for known events, each as often as in the input. */
  lemma {:induction false} KnownRequestsCount(rs: seq<DailyRequest>, levels: seq<Level>, purchaseEvents: seq<PurchaseEvent>)
    ensures forall x ::
      multiset(KnownRequests(rs, levels, purchaseEvents))[x] == (if IsKnownEvent(x, levels, purchaseEvents) then multiset(rs)[x] else 0)
  {
    if rs != [] {
      var init := rs[..|rs| - 1];
      KnownRequestsCount(init, levels, purchaseEvents);
      assert rs == init + [rs[|rs| - 1]];
    }
  }

  /** The filter loop */
  method FilterKnownRequests(requests: seq<DailyRequest>, levels: seq<Level>, purchaseEvents: seq<PurchaseEvent>)
    returns (valid: seq<DailyRequest>)
    ensures valid == KnownRequests(requests, levels, purchaseEvents)
  {
    valid := [];
    var k := 0;
    while k < |requests|
      invariant 0 <= k <= |requests|
      invariant valid == KnownRequests(requests[..k], levels, purchaseEvents)
    {
      var req := requests[k];
      assert requests[..k + 1][..k] == requests[..k];
      var isLevel := exists l :: l in levels && req.eventToken == Some(l.eventToken);
      var isPurchase := exists p :: p in purchaseEvents && req.eventToken == Some(p.eventToken);
      if isLevel || isPurchase {
        valid := valid + [req];
      }
      k := k + 1;
    }
    assert requests[..k] == requests;
  }

  // ---------------------------------------------------------------------------------------------
  // Grouping by event token and time spent

  /** `request.event_token || ''` */
  function KeyToken(r: DailyRequest): string {
    r.eventToken.GetOr("")
  }

  predicate HasKey(g: RequestGroup, token: string, time: int) {
    g.eventToken == token && g.timeSpent == time
  }

  /** `requestGroups.find(...)`, as a position: the first group with the key, or -1 */
  function FindGroup(groups: seq<RequestGroup>, token: string, time: int): (r: int)
    ensures -1 <= r < |groups|
    ensures r >= 0 ==> HasKey(groups[r], token, time) && forall i :: 0 <= i < r ==> !HasKey(groups[i], token, time)
    ensures r == -1 ==> forall i :: 0 <= i < |groups| ==> !HasKey(groups[i], token, time)
  {
    if groups == [] then -1
    else if HasKey(groups[0], token, time) then 0
    else
      var r := FindGroup(groups[1..], token, time);
      if r < 0 then -1 else r + 1
  }

  /** The request joins the group with its key, or starts a new group at the end. */
  function AddRequest(groups: seq<RequestGroup>, r: DailyRequest): seq<RequestGroup> {
    var i := FindGroup(groups, KeyToken(r), r.timeSpent);
    if i >= 0 then groups[i := groups[i].(requests := groups[i].requests + [r])]
    else groups + [RequestGroup(KeyToken(r), r.timeSpent, [r])]
  }

  function Grouped(rs: seq<DailyRequest>): seq<RequestGroup> {
    if rs == [] then [] else AddRequest(Grouped(rs[..|rs| - 1]), rs[|rs| - 1])
  }

  /** The requests with a given key, in order */
  function Members(rs: seq<DailyRequest>, token: string, time: int): seq<DailyRequest> {
    if rs == [] then []
    else
      Members(rs[..|rs| - 1], token, time)
      + (if KeyToken(rs[|rs| - 1]) == token && rs[|rs| - 1].timeSpent == time then [rs[|rs| - 1]] else [])
  }

  lemma MembersSnoc(rs: seq<DailyRequest>, x: DailyRequest, token: string, time: int)
    ensures Members(rs + [x], token, time)
      == Members(rs, token, time) + (if KeyToken(x) == token && x.timeSpent == time then [x] else [])
  {
    assert (rs + [x])[..|rs + [x]| - 1] == rs;
  }

  lemma GroupedSnoc(rs: seq<DailyRequest>, x: DailyRequest)
    ensures Grouped(rs + [x]) == AddRequest(Grouped(rs), x)
  {
    assert (rs + [x])[..|rs + [x]| - 1] == rs;
  }

  lemma {:induction false} MembersNone(rs: seq<DailyRequest>, token: string, time: int)
    requires forall r :: r in rs ==> !(KeyToken(r) == token && r.timeSpent == time)
    ensures Members(rs, token, time) == []
  {
    if rs != [] {
      MembersNone(rs[..|rs| - 1], token, time);
    }
  }

  /** No two groups share a key. */
  ghost predicate KeysUnique(gs: seq<RequestGroup>) {
    forall i, j :: 0 <= i < j < |gs| ==> !HasKey(gs[j], gs[i].eventToken, gs[i].timeSpent)
  }

  /** Each group holds exactly the requests with its key, in their order, and is not empty. */
  ghost predicate GroupsAreMembers(gs: seq<RequestGroup>, rs: seq<DailyRequest>) {
    forall i :: 0 <= i < |gs| ==> gs[i].requests == Members(rs, gs[i].eventToken, gs[i].timeSpent) && gs[i].requests != []
  }

  /** Every request's key has a group. */
  ghost predicate KeysCovered(gs: seq<RequestGroup>, rs: seq<DailyRequest>) {
    forall r :: r in rs ==> exists i :: 0 <= i < |gs| && HasKey(gs[i], KeyToken(r), r.timeSpent)
  }

  /** The groups partition the requests: keys are unique, every request's key has a group, and
      each group holds exactly the requests with its key, in their original order. */
  lemma {:induction false} GroupedPartition(rs: seq<DailyRequest>)
    ensures KeysUnique(Grouped(rs))
    ensures GroupsAreMembers(Grouped(rs), rs)
    ensures KeysCovered(Grouped(rs), rs)
  {
    if rs != [] {
      var init := rs[..|rs| - 1];
      var x := rs[|rs| - 1];
      GroupedPartition(init);
      assert rs == init + [x];
      GroupedSnoc(init, x);
      KeysStep(Grouped(init), x);
      CoversStep(init, x);
      MembersStep(Grouped(init), init, x);
    }
  }

  /** Adding a request keeps the keys of the groups there were, and there is a group with its key. */
  lemma KeysKept(gs: seq<RequestGroup>, x: DailyRequest)
    ensures var gs' := AddRequest(gs, x);
      |gs| <= |gs'| && (forall i :: 0 <= i < |gs| ==> gs'[i].eventToken == gs[i].eventToken && gs'[i].timeSpent == gs[i].timeSpent)
      && exists i :: 0 <= i < |gs'| && HasKey(gs'[i], KeyToken(x), x.timeSpent)
  {
    var f := FindGroup(gs, KeyToken(x), x.timeSpent);
    if f < 0 {
      assert HasKey(AddRequest(gs, x)[|gs|], KeyToken(x), x.timeSpent);
    } else {
      assert HasKey(AddRequest(gs, x)[f], KeyToken(x), x.timeSpent);
    }
  }

  lemma KeysStep(gs: seq<RequestGroup>, x: DailyRequest)
    requires KeysUnique(gs)
    ensures KeysUnique(AddRequest(gs, x))
  {
  }

  lemma CoversStep(init: seq<DailyRequest>, x: DailyRequest)
    requires KeysCovered(Grouped(init), init)
    ensures KeysCovered(AddRequest(Grouped(init), x), init + [x])
  {
    var gs := Grouped(init);
    var gs' := AddRequest(gs, x);
    KeysKept(gs, x);
    forall r | r in init + [x] ensures exists i :: 0 <= i < |gs'| && HasKey(gs'[i], KeyToken(r), r.timeSpent) {
      if r != x {
        assert r in init;
        var i :| 0 <= i < |gs| && HasKey(gs[i], KeyToken(r), r.timeSpent);
        assert HasKey(gs'[i], KeyToken(r), r.timeSpent);
      }
    }
  }

  lemma MembersStep(gs: seq<RequestGroup>, init: seq<DailyRequest>, x: DailyRequest)
    requires KeysUnique(gs) && GroupsAreMembers(gs, init) && KeysCovered(gs, init)
    ensures GroupsAreMembers(AddRequest(gs, x), init + [x])
  {
    var f := FindGroup(gs, KeyToken(x), x.timeSpent);
    if f < 0 {
      MembersNewGroup(gs, init, x);
    } else {
      MembersJoinGroup(gs, init, x, f);
    }
  }

  /** A request whose key has no group yet starts the only group that holds it. */
  lemma MembersNewGroup(gs: seq<RequestGroup>, init: seq<DailyRequest>, x: DailyRequest)
    requires GroupsAreMembers(gs, init) && KeysCovered(gs, init)
    requires FindGroup(gs, KeyToken(x), x.timeSpent) < 0
    ensures GroupsAreMembers(gs + [RequestGroup(KeyToken(x), x.timeSpent, [x])], init + [x])
  {
    var gs' := gs + [RequestGroup(KeyToken(x), x.timeSpent, [x])];
    forall r | r in init ensures !(KeyToken(r) == KeyToken(x) && r.timeSpent == x.timeSpent) {
      var i :| 0 <= i < |gs| && HasKey(gs[i], KeyToken(r), r.timeSpent);
    }
    MembersNone(init, KeyToken(x), x.timeSpent);
    forall i | 0 <= i < |gs'|
      ensures gs'[i].requests == Members(init + [x], gs'[i].eventToken, gs'[i].timeSpent) && gs'[i].requests != []
    {
      MembersSnoc(init, x, gs'[i].eventToken, gs'[i].timeSpent);
    }
  }

  /** A request whose key has group f joins that group and no other. */
  lemma MembersJoinGroup(gs: seq<RequestGroup>, init: seq<DailyRequest>, x: DailyRequest, f: int)
    requires KeysUnique(gs) && GroupsAreMembers(gs, init)
    requires 0 <= f && FindGroup(gs, KeyToken(x), x.timeSpent) == f
    ensures GroupsAreMembers(gs[f := gs[f].(requests := gs[f].requests + [x])], init + [x])
  {
    var gs' := gs[f := gs[f].(requests := gs[f].requests + [x])];
    forall i | 0 <= i < |gs'|
      ensures gs'[i].requests == Members(init + [x], gs'[i].eventToken, gs'[i].timeSpent) && gs'[i].requests != []
    {
      MembersSnoc(init, x, gs'[i].eventToken, gs'[i].timeSpent);
      if i != f {
        assert !HasKey(gs[i], KeyToken(x), x.timeSpent);
      }
    }
  }

  function RequestsOf(g: RequestGroup): seq<DailyRequest> {
    g.requests
  }

  function GroupTime(g: RequestGroup): int {
    g.timeSpent
  }

  /** Appending a request to one group adds it once to the flattening. */
  lemma FlatMapAppendAt(s: seq<RequestGroup>, i: nat, x: DailyRequest)
    requires i < |s|
    ensures multiset(FlatMap(s[i := s[i].(requests := s[i].requests + [x])], RequestsOf))
      == multiset(FlatMap(s, RequestsOf)) + multiset{x}
  {
    var y := s[i].(requests := s[i].requests + [x]);
    assert s == s[..i] + [s[i]] + s[i + 1..];
    assert s[i := y] == s[..i] + [y] + s[i + 1..];
    FlatMapConcat(s[..i] + [s[i]], s[i + 1..], RequestsOf);
    FlatMapConcat(s[..i], [s[i]], RequestsOf);
    FlatMapConcat(s[..i] + [y], s[i + 1..], RequestsOf);
    FlatMapConcat(s[..i], [y], RequestsOf);
    assert FlatMap([s[i]], RequestsOf) == s[i].requests + FlatMap([], RequestsOf);
    assert FlatMap([y], RequestsOf) == y.requests + FlatMap([], RequestsOf);
    var a, c := FlatMap(s[..i], RequestsOf), FlatMap(s[i + 1..], RequestsOf);
    assert FlatMap(s[i := y], RequestsOf) == a + s[i].requests + [x] + c;
    assert FlatMap(s, RequestsOf) == a + s[i].requests + c;
  }

  /** The groups hold every request once: their concatenation is a permutation of the input. */
  lemma {:induction false} GroupedPermutation(rs: seq<DailyRequest>)
    ensures multiset(FlatMap(Grouped(rs), RequestsOf)) == multiset(rs)
  {
    if rs != [] {
      var init := rs[..|rs| - 1];
      var x := rs[|rs| - 1];
      GroupedPermutation(init);
      assert rs == init + [x];
      GroupedSnoc(init, x);
      var gs := Grouped(init);
      var f := FindGroup(gs, KeyToken(x), x.timeSpent);
      if f >= 0 {
        FlatMapAppendAt(gs, f, x);
        assert Grouped(rs) == gs[f := gs[f].(requests := gs[f].requests + [x])];
      } else {
        var g := RequestGroup(KeyToken(x), x.timeSpent, [x]);
        FlatMapConcat(gs, [g], RequestsOf);
        assert FlatMap([g], RequestsOf) == [x] + FlatMap([], RequestsOf);
      }
    }
  }

  /** The grouping loop, with the inner `find` */
  method GroupRequests(requests: seq<DailyRequest>) returns (requestGroups: seq<RequestGroup>)
    ensures requestGroups == Grouped(requests)
  {
    requestGroups := [];
    var k := 0;
    while k < |requests|
      invariant 0 <= k <= |requests|
      invariant requestGroups == Grouped(requests[..k])
    {
      var request := requests[k];
      assert requests[..k + 1][..k] == requests[..k];
      var eventToken := KeyToken(request);
      var j := 0;
      while j < |requestGroups| && !HasKey(requestGroups[j], eventToken, request.timeSpent)
        invariant 0 <= j <= |requestGroups|
        invariant forall i :: 0 <= i < j ==> !HasKey(requestGroups[i], eventToken, request.timeSpent)
      {
        j := j + 1;
      }
      if j < |requestGroups| {
        var existingGroup := requestGroups[j];
        requestGroups := requestGroups[j := existingGroup.(requests := existingGroup.requests + [request])];
      } else {
        requestGroups := requestGroups + [RequestGroup(eventToken, request.timeSpent, [request])];
      }
      k := k + 1;
    }
    assert requests[..k] == requests;
  }

  // ---------------------------------------------------------------------------------------------
  // One account's task

  /** The task built for an account: its known requests, grouped, the groups sorted stably by
      time spent and their requests flattened back in that order; none when no request is known
      or the call failed. */
  function TaskOf(input: AccountInput, levels: seq<Level>, purchaseEvents: seq<PurchaseEvent>): Option<DailyTask> {
    match input.response
    case None => None
    case Some(response) =>
      var valid := KnownRequests(response.requests, levels, purchaseEvents);
      if valid == [] then None
      else
        var groups := SortBy(Grouped(valid), GroupTime);
        Some(DailyTask(input.account, FlatMap(groups, RequestsOf), Some(groups), response.targetDate, {}))
  }

  /** A task's groups are sorted by time spent, keep the grouped order among equal times, are the
      groups of its known requests, and its requests are a permutation of those requests. */
  lemma TaskOfGroups(input: AccountInput, levels: seq<Level>, purchaseEvents: seq<PurchaseEvent>)
    requires TaskOf(input, levels, purchaseEvents).Some?
    ensures var task := TaskOf(input, levels, purchaseEvents).value;
      var valid := KnownRequests(input.response.value.requests, levels, purchaseEvents);
      task.account == input.account && task.requestGroups.Some? && task.completedTasks == {}
      && SortedBy(task.requestGroups.value, GroupTime)
      && (forall k :: WithKey(task.requestGroups.value, GroupTime, k) == WithKey(Grouped(valid), GroupTime, k))
      && multiset(task.requestGroups.value) == multiset(Grouped(valid))
      && multiset(task.requests) == multiset(valid)
  {
    var valid := KnownRequests(input.response.value.requests, levels, purchaseEvents);
    var gs := Grouped(valid);
    SortBySorted(gs, GroupTime);
    forall k ensures WithKey(SortBy(gs, GroupTime), GroupTime, k) == WithKey(gs, GroupTime, k) {
      SortByStable(gs, GroupTime, k);
    }
    SortByFlatMap(gs, GroupTime, RequestsOf);
    GroupedPermutation(valid);
  }

  /** The start state recorded for an account whose known requests hold a session or an event */
  function StartFor(input: AccountInput, levels: seq<Level>, purchaseEvents: seq<PurchaseEvent>, clock: Clock): Option<StartState> {
    match input.response
    case None => None
    case Some(response) =>
      var valid := KnownRequests(response.requests, levels, purchaseEvents);
      var firstEvent := FirstEvent(valid);
      if valid == [] || firstEvent.None? then None
      else
        var a := input.account;
        Some(StartState(a.id, a.startDate + " " + a.startTime,
                        CalculateFirstRequestAllowedTime(a, firstEvent.value.timeSpent, clock), true))
  }

  /** There is a start state exactly when a known request is a session or an event; its start is
      the start date and time joined by a space, and its gate is the start instant plus the
      smallest such time spent. */
  lemma StartForRule(input: AccountInput, levels: seq<Level>, purchaseEvents: seq<PurchaseEvent>, clock: Clock)
    requires input.response.Some?
    ensures var valid := KnownRequests(input.response.value.requests, levels, purchaseEvents);
      StartFor(input, levels, purchaseEvents, clock).Some? <==> exists r :: r in valid && IsSessionOrEvent(r)
    ensures var valid := KnownRequests(input.response.value.requests, levels, purchaseEvents);
      var s := StartFor(input, levels, purchaseEvents, clock);
      s.Some? ==>
        s.value.accountId == input.account.id && s.value.isInitialized
        && s.value.startTime == input.account.startDate + " " + input.account.startTime
        && exists r :: r in valid && IsSessionOrEvent(r)
             && (forall r' :: r' in valid && IsSessionOrEvent(r') ==> r.timeSpent <= r'.timeSpent)
             && s.value.firstRequestAllowedAt == CalculateFirstRequestAllowedTime(input.account, r.timeSpent, clock)
  {
    var valid := KnownRequests(input.response.value.requests, levels, purchaseEvents);
    FirstEventSmallest(valid);
  }

  // ---------------------------------------------------------------------------------------------
  // Scheduled times

  /** The pre-computed time of each group: each group waits the growth in time spent after the
      previous one, starting now. */
  method ScheduleTimes(groups: seq<RequestGroup>, now: int) returns (times: seq<int>)
    requires groups != []
    ensures |times| == |groups|
    ensures forall i :: 0 <= i < |times| ==> times[i] == now + (groups[i].timeSpent - groups[0].timeSpent) * 1000
    ensures SortedBy(groups, GroupTime) ==> forall i, j :: 0 <= i < j < |times| ==> times[i] <= times[j]
  {
    times := [];
    var currentScheduledTime := now;
    var i := 0;
    while i < |groups|
      invariant 0 <= i <= |groups|
      invariant |times| == i
      invariant forall k :: 0 <= k < i ==> times[k] == now + (groups[k].timeSpent - groups[0].timeSpent) * 1000
      invariant i == 0 ==> currentScheduledTime == now
      invariant i > 0 ==> currentScheduledTime == now + (groups[i - 1].timeSpent - groups[0].timeSpent) * 1000
    {
      if i > 0 {
        var timeDifference := groups[i].timeSpent - groups[i - 1].timeSpent;
        currentScheduledTime := currentScheduledTime + timeDifference * 1000;
        assert (groups[i - 1].timeSpent - groups[0].timeSpent) * 1000 + timeDifference * 1000
          == (groups[i].timeSpent - groups[0].timeSpent) * 1000;
      }
      assert currentScheduledTime == now + (groups[i].timeSpent - groups[0].timeSpent) * 1000;
      times := times + [currentScheduledTime];
      i := i + 1;
    }
  }

  /** The closed form that ScheduleTimes computes */
  function TimesOf(groups: seq<RequestGroup>, now: int): seq<int>
    requires groups != []
  {
    seq(|groups|, i requires 0 <= i < |groups| => now + (groups[i].timeSpent - groups[0].timeSpent) * 1000)
  }

  /** The scheduled times per account after going through the tasks in order from m; a later
      task of the same account replaces an earlier one's times. */
  function ScheduleOf(ts: seq<DailyTask>, now: int, m: map<int, seq<int>>): map<int, seq<int>> {
    if ts == [] then m
    else
      var m' := ScheduleOf(ts[..|ts| - 1], now, m);
      var t := ts[|ts| - 1];
      if Groups(t) != [] then m'[t.account.id := TimesOf(Groups(t), now)] else m'
  }

  /** Each account with groups gets the closed-form times of its last task with groups, and no
      other account gets times. */
  lemma {:induction false} ScheduleOfLast(ts: seq<DailyTask>, now: int, i: nat)
    requires i < |ts| && Groups(ts[i]) != []
    requires forall j :: i < j < |ts| && Groups(ts[j]) != [] ==> ts[j].account.id != ts[i].account.id
    ensures var m := ScheduleOf(ts, now, map[]);
      ts[i].account.id in m && m[ts[i].account.id] == TimesOf(Groups(ts[i]), now)
  {
    if i < |ts| - 1 {
      ScheduleOfLast(ts[..|ts| - 1], now, i);
    }
  }

  lemma {:induction false} ScheduleOfKeys(ts: seq<DailyTask>, now: int)
    ensures forall a :: a in ScheduleOf(ts, now, map[]) ==> exists t :: t in ts && t.account.id == a && Groups(t) != []
  {
    if ts != [] {
      ScheduleOfKeys(ts[..|ts| - 1], now);
      assert forall t :: t in ts[..|ts| - 1] ==> t in ts;
    }
  }

  lemma {:induction false} ScheduleOfConcat(a: seq<DailyTask>, b: seq<DailyTask>, now: int, m: map<int, seq<int>>)
    ensures ScheduleOf(a + b, now, m) == ScheduleOf(b, now, ScheduleOf(a, now, m))
  {
    if b != [] {
      ScheduleOfConcat(a, b[..|b| - 1], now, m);
      assert (a + b)[..|a + b| - 1] == a + b[..|b| - 1];
    } else {
      assert a + b == a;
    }
  }

  lemma FlatSnoc(games: seq<seq<DailyTask>>, ts: seq<DailyTask>)
    ensures Flat(games + [ts]) == Flat(games) + ts
  {
    if games != [] {
      assert (games + [ts])[1..] == games[1..] + [ts];
      FlatSnoc(games[1..], ts);
    } else {
      assert Flat([ts]) == ts + Flat([]);
    }
  }

  /** The inner loop over one game's tasks */
  method ScheduleGame(tasks: seq<DailyTask>, now: int, scheduledTimes: map<int, seq<int>>) returns (m: map<int, seq<int>>)
    ensures m == ScheduleOf(tasks, now, scheduledTimes)
  {
    m := scheduledTimes;
    var k := 0;
    while k < |tasks|
      invariant 0 <= k <= |tasks|
      invariant m == ScheduleOf(tasks[..k], now, scheduledTimes)
    {
      var task := tasks[k];
      assert tasks[..k + 1][..k] == tasks[..k];
      if Groups(task) != [] {
        var times := ScheduleTimes(Groups(task), now);
        assert times == TimesOf(Groups(task), now);
        m := m[task.account.id := times];
      }
      k := k + 1;
    }
    assert tasks[..k] == tasks;
  }

  /** The nested loops that fill the scheduled times */
  method ScheduleAll(gameTasks: seq<seq<DailyTask>>, now: int) returns (scheduledTimes: map<int, seq<int>>)
    ensures scheduledTimes == ScheduleOf(Flat(gameTasks), now, map[])
  {
    scheduledTimes := map[];
    var g := 0;
    while g < |gameTasks|
      invariant 0 <= g <= |gameTasks|
      invariant scheduledTimes == ScheduleOf(Flat(gameTasks[..g]), now, map[])
    {
      scheduledTimes := ScheduleGame(gameTasks[g], now, scheduledTimes);
      assert gameTasks[..g + 1] == gameTasks[..g] + [gameTasks[g]];
      FlatSnoc(gameTasks[..g], gameTasks[g]);
      ScheduleOfConcat(Flat(gameTasks[..g]), gameTasks[g], now, map[]);
      g := g + 1;
    }
    assert gameTasks[..g] == gameTasks;
  }

  // ---------------------------------------------------------------------------------------------
  // Collection over accounts and games

  /** The tasks of a game's accounts, in account order */
  function GameTasks(accounts: seq<AccountInput>, levels: seq<Level>, purchaseEvents: seq<PurchaseEvent>): seq<DailyTask> {
    if accounts == [] then []
    else
      var last := TaskOf(accounts[|accounts| - 1], levels, purchaseEvents);
      GameTasks(accounts[..|accounts| - 1], levels, purchaseEvents) + (if last.Some? then [last.value] else [])
  }

  /** The start states after the accounts of a game are seen in order */
  function StartsAfter(accounts: seq<AccountInput>, levels: seq<Level>, purchaseEvents: seq<PurchaseEvent>,
                       clock: Clock, starts: map<int, StartState>): map<int, StartState>
  {
    if accounts == [] then starts
    else
      var m := StartsAfter(accounts[..|accounts| - 1], levels, purchaseEvents, clock, starts);
      var input := accounts[|accounts| - 1];
      match StartFor(input, levels, purchaseEvents, clock)
      case Some(s) => m[input.account.id := s]
      case None => m
  }

  /** The body of the loop over a game's accounts */
  method BuildTask(input: AccountInput, levels: seq<Level>, purchaseEvents: seq<PurchaseEvent>, clock: Clock,
                   starts: map<int, StartState>)
    returns (task: Option<DailyTask>, starts': map<int, StartState>)
    ensures task == TaskOf(input, levels, purchaseEvents)
    ensures starts' == match StartFor(input, levels, purchaseEvents, clock)
                       case Some(st) => starts[input.account.id := st]
                       case None => starts
  {
    task, starts' := None, starts;
    if input.response.Some? {
      var valid := FilterKnownRequests(input.response.value.requests, levels, purchaseEvents);
      starts' := RecordStart(input, valid, levels, purchaseEvents, clock, starts);
      task := MakeTask(input, valid, levels, purchaseEvents);
    }
  }

  /** The first-request gate stored for an account with a session or event request */
  method RecordStart(input: AccountInput, valid: seq<DailyRequest>, levels: seq<Level>, purchaseEvents: seq<PurchaseEvent>,
                     clock: Clock, starts: map<int, StartState>)
    returns (starts': map<int, StartState>)
    requires input.response.Some? && valid == KnownRequests(input.response.value.requests, levels, purchaseEvents)
    ensures starts' == match StartFor(input, levels, purchaseEvents, clock)
                       case Some(st) => starts[input.account.id := st]
                       case None => starts
  {
    starts' := starts;
    if |valid| > 0 {
      var firstEvent := FirstEvent(valid);
      if firstEvent.Some? {
        var account := input.account;
        var firstRequestAllowedAt := CalculateFirstRequestAllowedTime(account, firstEvent.value.timeSpent, clock);
        starts' := starts'[account.id := StartState(account.id, account.startDate + " " + account.startTime, firstRequestAllowedAt, true)];
      }
    }
  }

  /** The task of an account with known requests: its groups sorted by time spent */
  method MakeTask(input: AccountInput, valid: seq<DailyRequest>, levels: seq<Level>, purchaseEvents: seq<PurchaseEvent>)
    returns (task: Option<DailyTask>)
    requires input.response.Some? && valid == KnownRequests(input.response.value.requests, levels, purchaseEvents)
    ensures task == TaskOf(input, levels, purchaseEvents)
  {
    task := None;
    if |valid| > 0 {
      var requestGroups := GroupRequests(valid);
      requestGroups := SortBy(requestGroups, GroupTime);
      task := Some(DailyTask(input.account, FlatMap(requestGroups, RequestsOf), Some(requestGroups), input.response.value.targetDate, {}));
    }
  }

  /** The loop over a game's accounts */
  method CollectGameTasks(c: GameCatalog, clock: Clock, starts: map<int, StartState>)
    returns (gameTasks: seq<DailyTask>, starts': map<int, StartState>)
    ensures gameTasks == GameTasks(c.accounts, c.levels, c.purchaseEvents)
    ensures starts' == StartsAfter(c.accounts, c.levels, c.purchaseEvents, clock, starts)
  {
    gameTasks, starts' := [], starts;
    var k := 0;
    while k < |c.accounts|
      invariant 0 <= k <= |c.accounts|
      invariant gameTasks == GameTasks(c.accounts[..k], c.levels, c.purchaseEvents)
      invariant starts' == StartsAfter(c.accounts[..k], c.levels, c.purchaseEvents, clock, starts)
    {
      AccountStep(c.accounts, k, c.levels, c.purchaseEvents, clock, starts);
      var task;
      task, starts' := BuildTask(c.accounts[k], c.levels, c.purchaseEvents, clock, starts');
      if task.Some? {
        gameTasks := gameTasks + [task.value];
      }
      k := k + 1;
    }
    assert c.accounts[..k] == c.accounts;
  }

  /** One more account: its task, if any, is appended and its start state, if any, recorded. */
  lemma AccountStep(accounts: seq<AccountInput>, k: nat, levels: seq<Level>, purchaseEvents: seq<PurchaseEvent>,
                    clock: Clock, starts: map<int, StartState>)
    requires k < |accounts|
    ensures var t := TaskOf(accounts[k], levels, purchaseEvents);
      var before := GameTasks(accounts[..k], levels, purchaseEvents);
      GameTasks(accounts[..k + 1], levels, purchaseEvents) == if t.Some? then before + [t.value] else before
    ensures var m := StartsAfter(accounts[..k], levels, purchaseEvents, clock, starts);
      StartsAfter(accounts[..k + 1], levels, purchaseEvents, clock, starts)
        == match StartFor(accounts[k], levels, purchaseEvents, clock)
           case Some(st) => m[accounts[k].account.id := st]
           case None => m
  {
    assert accounts[..k + 1][..k] == accounts[..k];
    var before := GameTasks(accounts[..k], levels, purchaseEvents);
    assert before + [] == before;
  }

  /** What the collection phase leaves: the tasks per game id, the game ids in the order first
      stored, and the start states */
  datatype Collected = Collected(tasks: map<int, seq<DailyTask>>, ids: seq<int>, starts: map<int, StartState>)

  function CollectedOf(games: seq<GameInput>, clock: Clock, starts: map<int, StartState>): Collected {
    if games == [] then Collected(map[], [], starts)
    else
      var c := CollectedOf(games[..|games| - 1], clock, starts);
      var game := games[|games| - 1];
      match game.catalog
      case None => c
      case Some(cat) =>
        var ts := GameTasks(cat.accounts, cat.levels, cat.purchaseEvents);
        var st := StartsAfter(cat.accounts, cat.levels, cat.purchaseEvents, clock, c.starts);
        if ts == [] then c.(starts := st)
        else Collected(c.tasks[game.gameId := ts], if game.gameId in c.tasks then c.ids else c.ids + [game.gameId], st)
  }

  /** The stored ids are the map's keys, each once, and every stored list is non-empty. */
  ghost predicate WellKeyed(c: Collected) {
    (forall i, j :: 0 <= i < j < |c.ids| ==> c.ids[i] != c.ids[j])
    && (forall id :: id in c.tasks <==> id in c.ids)
    && (forall id :: id in c.tasks ==> c.tasks[id] != [])
  }

  lemma StoreKeeps(c: Collected, id: int, ts: seq<DailyTask>, st: map<int, StartState>)
    requires WellKeyed(c) && ts != []
    ensures WellKeyed(Collected(c.tasks[id := ts], if id in c.tasks then c.ids else c.ids + [id], st))
  {
    if id !in c.tasks {
      var ids := c.ids + [id];
      assert forall i :: 0 <= i < |c.ids| ==> ids[i] == c.ids[i];
    }
  }

  lemma {:induction false} CollectedKeys(games: seq<GameInput>, clock: Clock, starts: map<int, StartState>)
    ensures WellKeyed(CollectedOf(games, clock, starts))
  {
    if games != [] {
      var init := games[..|games| - 1];
      CollectedKeys(init, clock, starts);
      var c := CollectedOf(init, clock, starts);
      var game := games[|games| - 1];
      if game.catalog.Some? {
        var cat := game.catalog.value;
        var ts := GameTasks(cat.accounts, cat.levels, cat.purchaseEvents);
        var st := StartsAfter(cat.accounts, cat.levels, cat.purchaseEvents, clock, c.starts);
        if ts != [] {
          StoreKeeps(c, game.gameId, ts, st);
        }
      }
    }
  }

  function IntKey(x: int): int {
    x
  }

  /** `Object.keys(gameTasksMap)`: the game ids in ascending order */
  function GameIds(c: Collected): seq<int> {
    SortBy(c.ids, IntKey)
  }

  /** The task lists of the ids that are stored, in the given order */
  function TaskLists(m: map<int, seq<DailyTask>>, ids: seq<int>): (r: seq<seq<DailyTask>>)
    ensures |r| <= |ids|
  {
    if ids == [] then [] else (if ids[0] in m then [m[ids[0]]] else []) + TaskLists(m, ids[1..])
  }

  /** When every id is stored, the lists are the stored lists of the ids, in order. */
  lemma {:induction false} TaskListsLookup(m: map<int, seq<DailyTask>>, ids: seq<int>)
    requires forall i :: 0 <= i < |ids| ==> ids[i] in m
    ensures |TaskLists(m, ids)| == |ids|
    ensures forall i :: 0 <= i < |ids| ==> TaskLists(m, ids)[i] == m[ids[i]]
  {
    if ids != [] {
      TaskListsLookup(m, ids[1..]);
      assert forall i :: 1 <= i < |ids| ==> ids[1..][i - 1] == ids[i];
    }
  }

  /** The game ids are visited in strictly ascending order, each stored game exactly once. */
  lemma GameIdsAscending(games: seq<GameInput>, clock: Clock, starts: map<int, StartState>)
    ensures var c := CollectedOf(games, clock, starts);
      var ids := GameIds(c);
      (forall i, j :: 0 <= i < j < |ids| ==> ids[i] < ids[j])
      && (forall id :: id in ids <==> id in c.tasks)
      && |TaskLists(c.tasks, ids)| == |ids|
      && forall i :: 0 <= i < |ids| ==> TaskLists(c.tasks, ids)[i] == c.tasks[ids[i]] && c.tasks[ids[i]] != []
  {
    var c := CollectedOf(games, clock, starts);
    CollectedKeys(games, clock, starts);
    SortDistinct(c.ids);
    var ids := GameIds(c);
    assert forall i :: 0 <= i < |ids| ==> ids[i] in ids;
    TaskListsLookup(c.tasks, ids);
  }

  /** Sorting numbers without repeats orders them strictly and keeps them all. */
  lemma SortDistinct(s: seq<int>)
    requires forall i, j :: 0 <= i < j < |s| ==> s[i] != s[j]
    ensures var r := SortBy(s, IntKey);
      (forall i, j :: 0 <= i < j < |r| ==> r[i] < r[j]) && forall x :: x in r <==> x in s
  {
    var r := SortBy(s, IntKey);
    SortBySorted(s, IntKey);
    SameMembers(r, s);
    forall x ensures multiset(r)[x] <= 1 {
      DistinctCount(s, x);
    }
    StrictlySorted(r);
  }

  lemma SameMembers(r: seq<int>, s: seq<int>)
    requires multiset(r) == multiset(s)
    ensures forall x :: x in r <==> x in s
  {
    forall x ensures x in r <==> x in s {
      assert x in r <==> multiset(r)[x] > 0;
      assert x in s <==> multiset(s)[x] > 0;
    }
  }

  /** A sorted sequence holding each value at most once is strictly increasing. */
  lemma StrictlySorted(r: seq<int>)
    requires SortedBy(r, IntKey) && forall x :: multiset(r)[x] <= 1
    ensures forall i, j :: 0 <= i < j < |r| ==> r[i] < r[j]
  {
    forall i, j | 0 <= i < j < |r| ensures r[i] < r[j] {
      assert IntKey(r[i]) <= IntKey(r[j]);
      if r[i] == r[j] {
        TwoCopies(r, i, j);
        assert false;
      }
    }
  }

  lemma TwoCopies(r: seq<int>, i: nat, j: nat)
    requires i < j < |r| && r[i] == r[j]
    ensures multiset(r)[r[i]] >= 2
  {
    assert r == r[..i] + [r[i]] + r[i + 1..j] + [r[j]] + r[j + 1..];
  }

  /** A value occurs at most once in a sequence without repeats. */
  lemma {:induction false} DistinctCount(s: seq<int>, x: int)
    requires forall i, j :: 0 <= i < j < |s| ==> s[i] != s[j]
    ensures multiset(s)[x] <= 1
  {
    if s != [] {
      DistinctCount(s[1..], x);
      assert s == [s[0]] + s[1..];
      if s[0] == x {
        assert x !in s[1..];
      }
    }
  }

  /** The game loop of the collection phase */
  method CollectAll(games: seq<GameInput>, clock: Clock, starts: map<int, StartState>) returns (c: Collected)
    ensures c == CollectedOf(games, clock, starts)
  {
    var gameTasksMap: map<int, seq<DailyTask>> := map[];
    var ids: seq<int> := [];
    var starts' := starts;
    var g := 0;
    while g < |games|
      invariant 0 <= g <= |games|
      invariant Collected(gameTasksMap, ids, starts') == CollectedOf(games[..g], clock, starts)
    {
      var game := games[g];
      assert games[..g + 1][..g] == games[..g];
      if game.catalog.Some? {
        var gameTasks;
        gameTasks, starts' := CollectGameTasks(game.catalog.value, clock, starts');
        if |gameTasks| > 0 {
          if game.gameId !in gameTasksMap {
            ids := ids + [game.gameId];
          }
          gameTasksMap := gameTasksMap[game.gameId := gameTasks];
        }
      }
      g := g + 1;
    }
    assert games[..g] == games;
    c := Collected(gameTasksMap, ids, starts');
  }

  /** generateTodaysTasks: the batches, the scheduled times per account, the assignments in the
      order they were made, and the start states after the run */
  method GenerateTodaysTasks(games: seq<GameInput>, clock: Clock, starts: map<int, StartState>)
    returns (batches: seq<GameBatch>, scheduledTimes: map<int, seq<int>>, assignments: seq<Assignment>,
             starts': map<int, StartState>)
    ensures var c := CollectedOf(games, clock, starts);
      var gameTasks := TaskLists(c.tasks, GameIds(c));
      starts' == c.starts
      && scheduledTimes == ScheduleOf(Flat(gameTasks), clock.now, map[])
      && Distribution(batches, assignments) == DistributeFrom(gameTasks, map[], 0, clock.now)
  {
    var c := CollectAll(games, clock, starts);
    starts' := c.starts;
    var gameIds := SortBy(c.ids, IntKey);
    var gameTasks := LookUpAll(c.tasks, gameIds);
    scheduledTimes := ScheduleAll(gameTasks, clock.now);
    batches, assignments := Distribute(gameTasks, clock.now);
  }

  /** `gameTasksMap[gameId]` for each game id in turn */
  method LookUpAll(m: map<int, seq<DailyTask>>, gameIds: seq<int>) returns (gameTasks: seq<seq<DailyTask>>)
    ensures gameTasks == TaskLists(m, gameIds)
  {
    gameTasks := [];
    var i := 0;
    while i < |gameIds|
      invariant 0 <= i <= |gameIds|
      invariant gameTasks == TaskLists(m, gameIds[..i])
    {
      TaskListsSnoc(m, gameIds[..i], gameIds[i]);
      assert gameIds[..i + 1] == gameIds[..i] + [gameIds[i]];
      if gameIds[i] in m {
        gameTasks := gameTasks + [m[gameIds[i]]];
      }
      i := i + 1;
    }
    assert gameIds[..i] == gameIds;
  }

  lemma {:induction false} TaskListsSnoc(m: map<int, seq<DailyTask>>, ids: seq<int>, id: int)
    ensures TaskLists(m, ids + [id]) == TaskLists(m, ids) + (if id in m then [m[id]] else [])
  {
    if ids != [] {
      assert (ids + [id])[1..] == ids[1..] + [id];
      TaskListsSnoc(m, ids[1..], id);
    } else {
      assert TaskLists(m, [id]) == (if id in m then [m[id]] else []) + TaskLists(m, []);
    }
  }
}
