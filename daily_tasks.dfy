// When a task of the day may be sent: the order between an account's batches, the cooldown after
// its last completed group, and the delay after the account's start. Also the time spent that a
// day between two levels of a game is given.

module DailyTaskUtils {
  import opened Options
  import opened JsText
  import opened JsMath
  import opened Lists
  import opened TaskTypes
  import opened Catalog

  /** The text the start instant is read from: the date part of start_date, 'T' and start_time
      when both are set, else start_date alone */
  function StartText(a: Account): string {
    if a.startDate != "" && a.startTime != "" then
      (if Includes(a.startDate, "T") then BeforeFirst(a.startDate, "T") else a.startDate) + "T" + a.startTime
    else a.startDate
  }

  /** calculateFirstRequestAllowedTime: the start instant plus the first event's time spent in
      milliseconds, or the current time when the start does not parse */
  function CalculateFirstRequestAllowedTime(a: Account, firstEventTimeSpent: int, clock: Clock): (t: int)
    ensures clock.instant(StartText(a)).None? ==> t == clock.now
    ensures clock.instant(StartText(a)).Some? ==> t - clock.instant(StartText(a)).value == 1000 * firstEventTimeSpent
  {
    match clock.instant(StartText(a))
    case None => clock.now
    case Some(base) => base + firstEventTimeSpent * 1000
  }

  /** Some batch with a smaller index holds a task of the account. */
  predicate IsBlocked(accountId: int, batchIndex: int, allBatches: seq<GameBatch>) {
    exists b, k :: 0 <= b < |allBatches| && 0 <= k < |allBatches[b].tasks|
      && allBatches[b].batchIndex < batchIndex && allBatches[b].tasks[k].account.id == accountId
  }

  /** The time spent of the task's first group, else of its first request, else 0 */
  function CurrentGroupTime(task: DailyTask): int {
    if task.requestGroups.Some? && task.requestGroups.value != [] then task.requestGroups.value[0].timeSpent
    else if task.requests != [] then task.requests[0].timeSpent
    else 0
  }

  /** The wait after a completion, in milliseconds */
  function Cooldown(task: DailyTask, rec: CompletionRecord): int {
    Max(0, CurrentGroupTime(task) - rec.timeSpent) * 1000
  }

  /** The instant before which an account without a completion may not send; None when there is
      no such instant (missing or zero) */
  function StartGate(task: DailyTask, starts: map<int, StartState>, clock: Clock): Option<int> {
    var given := if task.account.id in starts then starts[task.account.id].firstRequestAllowedAt else 0;
    var allowed :=
      if given == 0 && task.requests != [] then
        match FirstEvent(task.requests)
        case Some(f) => CalculateFirstRequestAllowedTime(task.account, f.timeSpent, clock)
        case None => given
      else given;
    if allowed != 0 then Some(allowed) else None
  }

  /** checkTaskReadiness */
  function CheckTaskReadiness(task: DailyTask, batchIndex: int, allBatches: seq<GameBatch>, currentTime: int,
                              records: map<int, CompletionRecord>, starts: map<int, StartState>,
                              clock: Clock): bool
  {
    var id := task.account.id;
    if IsBlocked(id, batchIndex, allBatches) then false
    else
      var completionReady :=
        if id in records then currentTime - records[id].completionTime >= Cooldown(task, records[id]) else true;
      var startReady :=
        if id !in records then
          match StartGate(task, starts, clock)
          case Some(gate) => currentTime >= gate
          case None => true
        else true;
      completionReady && startReady
  }

  datatype Readiness = Readiness(isReady: bool, isBlocked: bool, remainingTime: int, comeBackTime: Option<int>)

  /** getTaskReadinessDetails. Remaining times are whole seconds, come-back times instants. */
  function GetTaskReadinessDetails(task: DailyTask, batchIndex: int, allBatches: seq<GameBatch>, currentTime: int,
                                   records: map<int, CompletionRecord>, starts: map<int, StartState>,
                                   clock: Clock): Readiness
  {
    var id := task.account.id;
    var blocked := IsBlocked(id, batchIndex, allBatches);
    var (completionReady, completionRemaining, completionBack) :=
      if id in records then
        var required := Cooldown(task, records[id]);
        var since := currentTime - records[id].completionTime;
        if since >= required then (true, 0, None)
        else (false, CeilDiv(required - since, 1000), Some(currentTime + (required - since)))
      else (true, 0, None);
    var (startReady, startRemaining, startBack) :=
      if id !in records && StartGate(task, starts, clock).Some? then
        var gate := StartGate(task, starts, clock).value;
        if currentTime >= gate then (true, 0, None)
        else (false, CeilDiv(gate - currentTime, 1000), Some(gate))
      else (true, 0, None);
    Readiness(!blocked && completionReady && startReady, blocked,
              Max(completionRemaining, startRemaining),
              if startBack.Some? then startBack else completionBack)
  }

  /** The quick check and the detailed one agree on every input. */
  lemma CheckTaskReadinessAgrees(task: DailyTask, batchIndex: int, allBatches: seq<GameBatch>, currentTime: int,
                                 records: map<int, CompletionRecord>, starts: map<int, StartState>, clock: Clock)
    ensures CheckTaskReadiness(task, batchIndex, allBatches, currentTime, records, starts, clock)
         == GetTaskReadinessDetails(task, batchIndex, allBatches, currentTime, records, starts, clock).isReady
  {
  }

  /** A task is ready exactly when no earlier batch holds a task of the account, the cooldown since
      the account's last completion has passed, and, for an account without a completion, the
      start gate has passed. */
  lemma ReadinessRule(task: DailyTask, batchIndex: int, allBatches: seq<GameBatch>, currentTime: int,
                      records: map<int, CompletionRecord>, starts: map<int, StartState>, clock: Clock)
    ensures var id := task.account.id;
      GetTaskReadinessDetails(task, batchIndex, allBatches, currentTime, records, starts, clock).isReady
      <==> !IsBlocked(id, batchIndex, allBatches)
           && (id in records ==>
                 currentTime - records[id].completionTime
                   >= Max(0, CurrentGroupTime(task) - records[id].timeSpent) * 1000)
           && (id !in records && StartGate(task, starts, clock).Some? ==>
                 currentTime >= StartGate(task, starts, clock).value)
  {
  }

  /** The remaining time is the wait rounded up to whole seconds, at least one second while there
      is something to wait for, and zero otherwise. */
  lemma RemainingTimeRule(task: DailyTask, batchIndex: int, allBatches: seq<GameBatch>, currentTime: int,
                          records: map<int, CompletionRecord>, starts: map<int, StartState>, clock: Clock)
    ensures var id := task.account.id;
      var d := GetTaskReadinessDetails(task, batchIndex, allBatches, currentTime, records, starts, clock);
      var wait :=
        if id in records then Cooldown(task, records[id]) - (currentTime - records[id].completionTime)
        else if StartGate(task, starts, clock).Some? then StartGate(task, starts, clock).value - currentTime
        else 0;
      (wait > 0 ==> d.remainingTime >= 1 && 1000 * (d.remainingTime - 1) < wait <= 1000 * d.remainingTime
                    && d.comeBackTime == Some(currentTime + wait))
      && (wait <= 0 ==> d.remainingTime == 0 && d.comeBackTime == None)
  {
  }

  /** Without a completion and without a recorded start instant, the gate is the parsed start plus
      the time spent of the first event (the smallest among the session and event requests, by
      FirstEventSmallest), in milliseconds. */
  lemma StartGateFallback(task: DailyTask, starts: map<int, StartState>, clock: Clock)
    requires task.account.id !in starts || starts[task.account.id].firstRequestAllowedAt == 0
    requires exists r :: r in task.requests && IsSessionOrEvent(r)
    requires clock.instant(StartText(task.account)).Some?
    ensures FirstEvent(task.requests).Some?
    ensures var allowed := clock.instant(StartText(task.account)).value + 1000 * FirstEvent(task.requests).value.timeSpent;
      StartGate(task, starts, clock) == if allowed != 0 then Some(allowed) else None
  {
    FirstEventSmallest(task.requests);
    assert task.requests != [];
  }

  // ---- getInterpolatedTimeSpent ----

  predicate HasDay(l: Level) {
    l.daysOffset.Some?
  }

  function DayKey(l: Level): int {
    l.daysOffset.GetOr(0)
  }

  /** The levels with a numeric day offset, in input order */
  function NumericLevels(levels: seq<Level>): seq<Level> {
    Filter(levels, HasDay)
  }

  /** Math.round(t * (day + 1) / (first + 1)) for the days before the first level; None when the
      quotient is not a finite number */
  function BeforeFirstLevel(day: int, next: Level): Option<int> {
    if next.timeSpent.None? || DayKey(next) + 1 == 0 then None
    else Some(RoundDiv((day + 1) * next.timeSpent.value, DayKey(next) + 1))
  }

  /** The rounded linear interpolation between the levels on either side of the day */
  function BetweenLevels(day: int, prev: Level, next: Level): Option<int>
    requires DayKey(prev) < day < DayKey(next)
  {
    if prev.timeSpent.None? || next.timeSpent.None? then None
    else
      var pt, nt := prev.timeSpent.value, next.timeSpent.value;
      var width := DayKey(next) - DayKey(prev);
      Some(RoundDiv(pt * width + (day - DayKey(prev)) * (nt - pt), width))
  }

  /** getInterpolatedTimeSpent; None stands for a result that is not a number */
  function GetInterpolatedTimeSpent(day: int, levels: seq<Level>): Option<int> {
    if levels == [] then Some(0)
    else
      var numeric := SortBy(NumericLevels(levels), DayKey);
      if numeric == [] then Some(0)
      else
        var exact := IndexWithKey(numeric, DayKey, day);
        if exact >= 0 then numeric[exact].timeSpent
        else
          var prev := LastIndexBelow(numeric, DayKey, day);
          var next := IndexAbove(numeric, DayKey, day);
          if next >= 0 && prev < 0 then BeforeFirstLevel(day, numeric[next])
          else if prev >= 0 && next >= 0 then BetweenLevels(day, numeric[prev], numeric[next])
          else if prev >= 0 then numeric[prev].timeSpent
          else Some(0)
  }

  /** Without a level with a numeric day offset the time spent is 0. */
  lemma InterpolatedWithoutLevels(day: int, levels: seq<Level>)
    requires forall l :: l in levels ==> !HasDay(l)
    ensures GetInterpolatedTimeSpent(day, levels) == Some(0)
  {
    FilterNone(levels, HasDay);
  }

  /** On the day of a level, the time spent is that of the first level with that day. */
  lemma InterpolatedOnLevelDay(day: int, levels: seq<Level>)
    requires WithKey(NumericLevels(levels), DayKey, day) != []
    ensures GetInterpolatedTimeSpent(day, levels) == WithKey(NumericLevels(levels), DayKey, day)[0].timeSpent
  {
    var numeric := SortBy(NumericLevels(levels), DayKey);
    SortByStable(NumericLevels(levels), DayKey, day);
    WithKeyFirst(numeric, DayKey, day);
    assert levels != [] by {
      assert |NumericLevels(levels)| <= |levels|;
      assert NumericLevels(levels) != [];
    }
  }

  /** The facts the cases below share about the sorted numeric levels */
  lemma SortedNumeric(levels: seq<Level>)
    ensures var numeric := SortBy(NumericLevels(levels), DayKey);
      SortedBy(numeric, DayKey)
      && forall l :: l in numeric <==> l in levels && HasDay(l)
  {
    SortBySorted(NumericLevels(levels), DayKey);
    FilterMembers(levels, HasDay);
    var numeric := SortBy(NumericLevels(levels), DayKey);
    assert forall l :: l in numeric <==> l in multiset(NumericLevels(levels));
  }

  lemma NumericMember(levels: seq<Level>, l: Level)
    requires l in levels && HasDay(l)
    ensures l in SortBy(NumericLevels(levels), DayKey)
  {
    FilterMembers(levels, HasDay);
    assert l in multiset(NumericLevels(levels));
  }

  lemma NumericElement(levels: seq<Level>, i: nat)
    requires i < |SortBy(NumericLevels(levels), DayKey)|
    ensures SortBy(NumericLevels(levels), DayKey)[i] in levels && HasDay(SortBy(NumericLevels(levels), DayKey)[i])
  {
    FilterMembers(levels, HasDay);
    assert SortBy(NumericLevels(levels), DayKey)[i] in multiset(NumericLevels(levels));
  }

  /** After the last level, the time spent is that of the last level with the largest day. */
  lemma InterpolatedAfterLastLevel(day: int, levels: seq<Level>, last: Level)
    requires last in levels && HasDay(last)
    requires forall l :: l in levels && HasDay(l) ==> DayKey(l) <= DayKey(last) < day
    ensures var same := WithKey(NumericLevels(levels), DayKey, DayKey(last));
      same != [] && GetInterpolatedTimeSpent(day, levels) == same[|same| - 1].timeSpent
  {
    var numeric := SortBy(NumericLevels(levels), DayKey);
    AfterLastIndices(day, levels, last);
    InterpolatedAfterIndices(day, levels);
    var prev := LastIndexBelow(numeric, DayKey, day);
    SortBySorted(NumericLevels(levels), DayKey);
    LastBelowIsLastOfKey(numeric, DayKey, day);
    SortByStable(NumericLevels(levels), DayKey, DayKey(last));
    assert WithKey(numeric, DayKey, DayKey(last)) == WithKey(NumericLevels(levels), DayKey, DayKey(last));
  }

  lemma AfterLastIndices(day: int, levels: seq<Level>, last: Level)
    requires last in levels && HasDay(last)
    requires forall l :: l in levels && HasDay(l) ==> DayKey(l) <= DayKey(last) < day
    ensures var numeric := SortBy(NumericLevels(levels), DayKey);
      var prev := LastIndexBelow(numeric, DayKey, day);
      IndexWithKey(numeric, DayKey, day) == -1 && IndexAbove(numeric, DayKey, day) == -1
      && prev >= 0 && DayKey(numeric[prev]) == DayKey(last)
  {
    SortedNumeric(levels);
    AfterLastSorted(levels, SortBy(NumericLevels(levels), DayKey), day, last);
  }

  lemma AfterLastSorted(levels: seq<Level>, numeric: seq<Level>, day: int, last: Level)
    requires NumericOf(levels, numeric)
    requires last in levels && HasDay(last)
    requires forall l :: l in levels && HasDay(l) ==> DayKey(l) <= DayKey(last) < day
    ensures var prev := LastIndexBelow(numeric, DayKey, day);
      IndexWithKey(numeric, DayKey, day) == -1 && IndexAbove(numeric, DayKey, day) == -1
      && prev >= 0 && DayKey(numeric[prev]) == DayKey(last)
  {
    assert last in numeric;
    var j :| 0 <= j < |numeric| && numeric[j] == last;
    forall i | 0 <= i < |numeric| ensures DayKey(numeric[i]) <= DayKey(last) {
      assert numeric[i] in numeric;
    }
    var top := numeric[|numeric| - 1];
    assert DayKey(last) <= DayKey(top) by {
      if j < |numeric| - 1 {
        assert SortedBy(numeric, DayKey);
      }
    }
    assert LastIndexBelow(numeric, DayKey, day) == |numeric| - 1;
  }

  lemma InterpolatedAfterIndices(day: int, levels: seq<Level>)
    requires var numeric := SortBy(NumericLevels(levels), DayKey);
      IndexWithKey(numeric, DayKey, day) == -1 && LastIndexBelow(numeric, DayKey, day) >= 0
      && IndexAbove(numeric, DayKey, day) == -1
    ensures var numeric := SortBy(NumericLevels(levels), DayKey);
      GetInterpolatedTimeSpent(day, levels) == numeric[LastIndexBelow(numeric, DayKey, day)].timeSpent
  {
  }

  /** Before the first level, the time spent grows in proportion to the day:
      round((day + 1) * t / (first + 1)) for the first level with the smallest day. */
  lemma InterpolatedBeforeFirstLevel(day: int, levels: seq<Level>, first: Level)
    requires first in levels && HasDay(first)
    requires forall l :: l in levels && HasDay(l) ==> day < DayKey(first) <= DayKey(l)
    ensures var same := WithKey(NumericLevels(levels), DayKey, DayKey(first));
      same != [] && GetInterpolatedTimeSpent(day, levels) == BeforeFirstLevel(day, same[0])
  {
    var numeric := SortBy(NumericLevels(levels), DayKey);
    SortedNumeric(levels);
    BeforeFirstSorted(levels, numeric, day, first);
    FirstAboveIsFirstOfKey(numeric, DayKey, day);
    WithKeyFirst(numeric, DayKey, DayKey(first));
    SortByStable(NumericLevels(levels), DayKey, DayKey(first));
  }

  lemma BeforeFirstSorted(levels: seq<Level>, numeric: seq<Level>, day: int, first: Level)
    requires NumericOf(levels, numeric)
    requires first in levels && HasDay(first)
    requires forall l :: l in levels && HasDay(l) ==> day < DayKey(first) <= DayKey(l)
    ensures IndexWithKey(numeric, DayKey, day) == -1 && LastIndexBelow(numeric, DayKey, day) == -1
    ensures IndexAbove(numeric, DayKey, day) == 0 && DayKey(numeric[0]) == DayKey(first)
  {
    assert first in numeric;
    forall i | 0 <= i < |numeric| ensures day < DayKey(first) <= DayKey(numeric[i]) {
      assert numeric[i] in numeric;
    }
    var j :| 0 <= j < |numeric| && numeric[j] == first;
  }

  /** Strictly between two levels, the time spent lies between the two neighbours' times. */
  lemma InterpolatedBetweenLevels(day: int, levels: seq<Level>)
    requires exists l :: l in levels && HasDay(l) && DayKey(l) < day
    requires exists l :: l in levels && HasDay(l) && DayKey(l) > day
    requires forall l :: l in levels && HasDay(l) ==> DayKey(l) != day && l.timeSpent.Some?
    ensures GetInterpolatedTimeSpent(day, levels).Some?
    ensures exists p, n :: (p in levels && n in levels && HasDay(p) && HasDay(n)
      && DayKey(p) < day < DayKey(n)
      && (forall l :: l in levels && HasDay(l) && DayKey(l) < day ==> DayKey(l) <= DayKey(p))
      && (forall l :: l in levels && HasDay(l) && DayKey(l) > day ==> DayKey(n) <= DayKey(l))
      && Min(p.timeSpent.value, n.timeSpent.value) <= GetInterpolatedTimeSpent(day, levels).value
         <= Max(p.timeSpent.value, n.timeSpent.value))
  {
    var p, n := BetweenNeighbours(day, levels);
    InterpolationBounds(day, p, n);
  }

  /** The two levels a day between levels is interpolated from */
  lemma BetweenNeighbours(day: int, levels: seq<Level>) returns (p: Level, n: Level)
    requires exists l :: l in levels && HasDay(l) && DayKey(l) < day
    requires exists l :: l in levels && HasDay(l) && DayKey(l) > day
    requires forall l :: l in levels && HasDay(l) ==> DayKey(l) != day
    ensures p in levels && n in levels && HasDay(p) && HasDay(n) && DayKey(p) < day < DayKey(n)
    ensures forall l :: l in levels && HasDay(l) && DayKey(l) < day ==> DayKey(l) <= DayKey(p)
    ensures forall l :: l in levels && HasDay(l) && DayKey(l) > day ==> DayKey(n) <= DayKey(l)
    ensures GetInterpolatedTimeSpent(day, levels) == BetweenLevels(day, p, n)
    ensures var below := WithKey(NumericLevels(levels), DayKey, DayKey(p));
      below != [] && below[|below| - 1] == p
    ensures var above := WithKey(NumericLevels(levels), DayKey, DayKey(n));
      above != [] && above[0] == n
  {
    var numeric := SortBy(NumericLevels(levels), DayKey);
    NeighbourBounds(day, levels);
    var prev := LastIndexBelow(numeric, DayKey, day);
    var next := IndexAbove(numeric, DayKey, day);
    p, n := numeric[prev], numeric[next];
    InterpolatedBetweenIndices(day, levels);
    NeighboursOfTheirDays(levels, day);
  }

  /** The level below is the last of its day and the level above the first of its day, in the
      order the levels came in (the sort is stable). */
  lemma NeighboursOfTheirDays(levels: seq<Level>, day: int)
    requires var numeric := SortBy(NumericLevels(levels), DayKey);
      LastIndexBelow(numeric, DayKey, day) >= 0 && IndexAbove(numeric, DayKey, day) >= 0
    ensures var numeric := SortBy(NumericLevels(levels), DayKey);
      var p, n := numeric[LastIndexBelow(numeric, DayKey, day)], numeric[IndexAbove(numeric, DayKey, day)];
      var below, above := WithKey(NumericLevels(levels), DayKey, DayKey(p)), WithKey(NumericLevels(levels), DayKey, DayKey(n));
      below != [] && below[|below| - 1] == p && above != [] && above[0] == n
  {
    var numeric := SortBy(NumericLevels(levels), DayKey);
    var p, n := numeric[LastIndexBelow(numeric, DayKey, day)], numeric[IndexAbove(numeric, DayKey, day)];
    SortBySorted(NumericLevels(levels), DayKey);
    LastBelowIsLastOfKey(numeric, DayKey, day);
    SortByStable(NumericLevels(levels), DayKey, DayKey(p));
    FirstAboveIsFirstOfKey(numeric, DayKey, day);
    WithKeyFirst(numeric, DayKey, DayKey(n));
    SortByStable(NumericLevels(levels), DayKey, DayKey(n));
  }

  lemma NeighbourBounds(day: int, levels: seq<Level>)
    requires exists l :: l in levels && HasDay(l) && DayKey(l) < day
    requires exists l :: l in levels && HasDay(l) && DayKey(l) > day
    requires forall l :: l in levels && HasDay(l) ==> DayKey(l) != day
    ensures var numeric := SortBy(NumericLevels(levels), DayKey);
      var prev, next := LastIndexBelow(numeric, DayKey, day), IndexAbove(numeric, DayKey, day);
      IndexWithKey(numeric, DayKey, day) == -1 && prev >= 0 && next >= 0
      && numeric[prev] in levels && HasDay(numeric[prev]) && numeric[next] in levels && HasDay(numeric[next])
      && (forall l :: l in levels && HasDay(l) && DayKey(l) < day ==> DayKey(l) <= DayKey(numeric[prev]))
      && (forall l :: l in levels && HasDay(l) && DayKey(l) > day ==> DayKey(numeric[next]) <= DayKey(l))
  {
    SortedNumeric(levels);
    var numeric := SortBy(NumericLevels(levels), DayKey);
    NoDayIndex(levels, numeric, day);
    PrevBound(levels, numeric, day);
    NextBound(levels, numeric, day);
  }

  /** The sorted numeric levels hold exactly the levels with a day. */
  ghost predicate NumericOf(levels: seq<Level>, numeric: seq<Level>) {
    SortedBy(numeric, DayKey) && forall l :: l in numeric <==> l in levels && HasDay(l)
  }

  lemma NoDayIndex(levels: seq<Level>, numeric: seq<Level>, day: int)
    requires NumericOf(levels, numeric)
    requires forall l :: l in levels && HasDay(l) ==> DayKey(l) != day
    ensures IndexWithKey(numeric, DayKey, day) == -1
  {
    forall i | 0 <= i < |numeric| ensures DayKey(numeric[i]) != day {
      assert numeric[i] in numeric;
    }
  }

  lemma PrevBound(levels: seq<Level>, numeric: seq<Level>, day: int)
    requires NumericOf(levels, numeric)
    requires exists l :: l in levels && HasDay(l) && DayKey(l) < day
    ensures var prev := LastIndexBelow(numeric, DayKey, day);
      prev >= 0 && numeric[prev] in levels && HasDay(numeric[prev])
      && forall l :: l in levels && HasDay(l) && DayKey(l) < day ==> DayKey(l) <= DayKey(numeric[prev])
  {
    var lo :| lo in levels && HasDay(lo) && DayKey(lo) < day;
    assert lo in numeric;
    NeighboursInSorted(numeric, DayKey, day);
    var prev := LastIndexBelow(numeric, DayKey, day);
    assert numeric[prev] in numeric;
  }

  lemma NextBound(levels: seq<Level>, numeric: seq<Level>, day: int)
    requires NumericOf(levels, numeric)
    requires exists l :: l in levels && HasDay(l) && DayKey(l) > day
    ensures var next := IndexAbove(numeric, DayKey, day);
      next >= 0 && numeric[next] in levels && HasDay(numeric[next])
      && forall l :: l in levels && HasDay(l) && DayKey(l) > day ==> DayKey(numeric[next]) <= DayKey(l)
  {
    var hi :| hi in levels && HasDay(hi) && DayKey(hi) > day;
    assert hi in numeric;
    NeighboursInSorted(numeric, DayKey, day);
    var next := IndexAbove(numeric, DayKey, day);
    assert numeric[next] in numeric;
  }

  lemma InterpolatedBetweenIndices(day: int, levels: seq<Level>)
    requires var numeric := SortBy(NumericLevels(levels), DayKey);
      IndexWithKey(numeric, DayKey, day) == -1 && LastIndexBelow(numeric, DayKey, day) >= 0
      && IndexAbove(numeric, DayKey, day) >= 0
    ensures var numeric := SortBy(NumericLevels(levels), DayKey);
      GetInterpolatedTimeSpent(day, levels)
        == BetweenLevels(day, numeric[LastIndexBelow(numeric, DayKey, day)], numeric[IndexAbove(numeric, DayKey, day)])
  {
  }

  function Min(a: int, b: int): int {
    if a <= b then a else b
  }

  lemma InterpolationBounds(day: int, p: Level, n: Level)
    requires DayKey(p) < day < DayKey(n) && p.timeSpent.Some? && n.timeSpent.Some?
    ensures BetweenLevels(day, p, n).Some?
    ensures Min(p.timeSpent.value, n.timeSpent.value) <= BetweenLevels(day, p, n).value
            <= Max(p.timeSpent.value, n.timeSpent.value)
  {
    var pt, nt := p.timeSpent.value, n.timeSpent.value;
    var w := DayKey(n) - DayKey(p);
    var e := day - DayKey(p);
    assert 0 < e < w;
    var v := pt * w + e * (nt - pt);
    if nt >= pt {
      MulMono(e, 0, nt - pt);
      MulMono(nt - pt, e, w);
      assert w * pt <= v <= w * nt;
      RoundDivBetween(v, w, pt, nt);
    } else {
      MulMono(pt - nt, e, w);
      MulMono(e, 0, pt - nt);
      assert w * nt <= v <= w * pt;
      RoundDivBetween(v, w, nt, pt);
    }
  }
}
