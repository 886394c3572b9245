// The records the daily-task scheduler works on: the requests of an account for a day, the tasks
// built from them, the batches that hold the tasks, and the per-account completion and start state.

module TaskTypes {
  import opened Options
  import opened Lists

  /** One request the backend returns for an account and a day. The request type is the text the
      backend sends. */
  datatype DailyRequest = DailyRequest(
    requestType: string, content: string, eventToken: Option<string>,
    levelId: Option<int>, levelName: Option<string>, timeSpent: int)

  datatype Account = Account(
    id: int, gameId: int, name: string, startDate: string, startTime: string, requestTemplate: string)

  /** Requests sharing an event token and a time spent: a session and its event */
  datatype RequestGroup = RequestGroup(eventToken: string, timeSpent: int, requests: seq<DailyRequest>)

  /** The completed request indices are kept as numbers; the source keeps their decimal text. */
  datatype DailyTask = DailyTask(
    account: Account, requests: seq<DailyRequest>, requestGroups: Option<seq<RequestGroup>>,
    targetDate: string, completedTasks: set<nat>)

  datatype GameBatch = GameBatch(batchIndex: int, tasks: seq<DailyTask>)

  datatype CompletionRecord = CompletionRecord(
    accountId: int, timeSpent: int, completionTime: int, levelId: int, eventToken: string)

  datatype StartState = StartState(
    accountId: int, startTime: string, firstRequestAllowedAt: int, isInitialized: bool)

  /** The clock and the date parser: `now` is Date.now(), `instant(text)` is
      `new Date(text).getTime()`, None when that is NaN. */
  datatype Clock = Clock(now: int, instant: string -> Option<int>)

  predicate IsSessionOrEvent(r: DailyRequest) {
    r.requestType == "session" || r.requestType == "event"
  }

  function TimeOf(r: DailyRequest): int {
    r.timeSpent
  }

  /** `requests.filter(session or event).sort(by time_spent)[0]` */
  function FirstEvent(requests: seq<DailyRequest>): Option<DailyRequest> {
    var sorted := SortBy(Filter(requests, IsSessionOrEvent), TimeOf);
    if sorted == [] then None else Some(sorted[0])
  }

  /** The first event is a session or event request with the smallest time spent, and there is one
      whenever the requests hold a session or an event. */
  lemma FirstEventSmallest(requests: seq<DailyRequest>)
    ensures FirstEvent(requests).Some? <==> exists r :: r in requests && IsSessionOrEvent(r)
    ensures FirstEvent(requests).Some? ==>
      FirstEvent(requests).value in requests && IsSessionOrEvent(FirstEvent(requests).value)
      && forall r :: r in requests && IsSessionOrEvent(r) ==> FirstEvent(requests).value.timeSpent <= r.timeSpent
  {
    var kept := Filter(requests, IsSessionOrEvent);
    FilterMembers(requests, IsSessionOrEvent);
    if kept != [] {
      SortByFirst(kept, TimeOf);
    } else {
      assert forall r :: r in requests && IsSessionOrEvent(r) ==> r in kept;
    }
  }

  /** `t.requests[0]?.event_token` */
  function FirstToken(t: DailyTask): Option<string> {
    if t.requests == [] then None else t.requests[0].eventToken
  }

  /** `t.requests[0]?.level_id` */
  function FirstLevelId(t: DailyTask): Option<int> {
    if t.requests == [] then None else t.requests[0].levelId
  }
}
