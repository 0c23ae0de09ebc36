/**
  The claim, status and log protocol between the server and its runners, as a
  step system.

  A status handler reads a row and later saves it whole; the two are separate
  steps here, and any other step may come between them. Status, trace and output
  calls name a task, and the server picks the newest execution of that task at
  the moment it loads. An event that is not enabled changes nothing, so every
  sequence of events is a run.
 */
module Protocol {
  import opened Wrappers
  import opened Executions
  import opened Repositories

  datatype Message =
    | Update(request: StatusRequest)
    | Trace(entries: seq<LogEntry>)
    | Output(filename: string, content: string)

  /** A call that the server is handling: who sent it, and the row it loaded. */
  datatype Call = Call(sender: Id, message: Message, row: Execution, saved: bool)

  datatype State = State(
    executions: Table,
    logs: seq<LogRow>,
    files: seq<FileRow>,
    calls: map<nat, Call>,
    running: set<Id>,     // executions handed to a runner that may still send
    finished: set<Id>,    // executions whose runner has sent its last message
    claims: seq<Id>)      // results of NextTask, in order

  datatype Event =
    | Create(taskId: nat, userId: nat, parameters: string, now: Time, token: string)
    | Claim(now: Time, token: string)
    | Complete(id: Id, exitCode: int, error: string, now: Time)
    | Load(call: nat, sender: Id, message: Message)
    | Save(call: nat)
    | Record(call: nat)
    | Abort(call: nat)
    | Finish(id: Id)

  const INITIAL := State([], [], [], map[], {}, {}, [])

  /** The execution that a message sent on behalf of `sender` reaches. */
  function Target(s: State, sender: Id): Option<Id> {
    if sender < |s.executions| then Newest(s.executions, s.executions[sender].taskId) else None
  }

  predicate Acceptable(message: Message) {
    match message
    case Update(request) => request.Valid()
    case Trace(entries) => AcceptsTrace(entries)
    case Output(_, _) => true
  }

  predicate Enabled(s: State, e: Event) {
    match e
    case Create(_, _, _, now, token) =>
      && (|s.executions| > 0 ==> s.executions[|s.executions| - 1].createdAt < now)
      && TokenFree(s.executions, |s.executions|, token)
    case Claim(_, token) =>
      && OldestUnclaimed(s.executions).Some?
      && TokenFree(s.executions, OldestUnclaimed(s.executions).value, token)
    case Complete(id, _, _, _) => id < |s.executions|
    case Load(call, sender, message) =>
      sender in s.running && call !in s.calls && Acceptable(message) && Target(s, sender).Some?
    case Save(call) =>
      && call in s.calls && s.calls[call].message.Update? && !s.calls[call].saved
      && s.calls[call].row.id < |s.executions|
      && TokenFree(s.executions, s.calls[call].row.id, s.calls[call].row.runnerToken)
    case Record(call) => call in s.calls && (s.calls[call].message.Update? ==> s.calls[call].saved)
    case Abort(call) => call in s.calls
    case Finish(id) => id in s.running && forall c :: c in s.calls ==> s.calls[c].sender != id
  }

  /* What an enabled event makes of each part of the state. */

  function NextExecutions(s: State, e: Event): Table
    requires Enabled(s, e)
  {
    match e
    case Create(taskId, userId, parameters, now, token) =>
      s.executions + [NewRow(|s.executions|, taskId, userId, parameters, now, token)]
    case Claim(now, token) =>
      var i := OldestUnclaimed(s.executions).value;
      s.executions[i := ClaimRow(s.executions[i], now, token)]
    case Complete(id, exitCode, error, now) =>
      s.executions[id := Completed(s.executions[id], exitCode, error, now)]
    case Save(call) =>
      var c := s.calls[call];
      s.executions[c.row.id := Merge(c.row, c.message.request)]
    case _ => s.executions
  }

  function NextCalls(s: State, e: Event): map<nat, Call>
    requires Enabled(s, e)
  {
    match e
    case Load(call, sender, message) =>
      s.calls[call := Call(sender, message, s.executions[Target(s, sender).value], false)]
    case Save(call) => s.calls[call := s.calls[call].(saved := true)]
    case Record(call) => s.calls - {call}
    case Abort(call) => s.calls - {call}
    case _ => s.calls
  }

  function NextLogs(s: State, e: Event): seq<LogRow>
    requires Enabled(s, e)
  {
    match e
    case Record(call) =>
      (var c := s.calls[call];
       match c.message
       case Update(request) => InsertLogs(s.logs, [StatusLog(c.row.id, request)])
       case Trace(entries) => InsertLogs(s.logs, TraceRows(c.row.id, entries))
       case Output(_, _) => s.logs)
    case _ => s.logs
  }

  function NextFiles(s: State, e: Event): seq<FileRow>
    requires Enabled(s, e)
  {
    match e
    case Record(call) =>
      (var c := s.calls[call];
       match c.message
       case Output(filename, content) => s.files + [FileRow(c.row.id, filename, content, true)]
       case _ => s.files)
    case _ => s.files
  }

  function NextRunning(s: State, e: Event): set<Id>
    requires Enabled(s, e)
  {
    match e
    case Claim(_, _) => s.running + {OldestUnclaimed(s.executions).value}
    case Finish(id) => s.running - {id}
    case _ => s.running
  }

  function NextFinished(s: State, e: Event): set<Id>
    requires Enabled(s, e)
  {
    match e
    case Claim(_, _) => s.finished - {OldestUnclaimed(s.executions).value}
    case Finish(id) => s.finished + {id}
    case _ => s.finished
  }

  function NextClaims(s: State, e: Event): seq<Id>
    requires Enabled(s, e)
  {
    match e
    case Claim(_, _) => s.claims + [OldestUnclaimed(s.executions).value]
    case _ => s.claims
  }

  function Apply(s: State, e: Event): State {
    if !Enabled(s, e) then s
    else State(NextExecutions(s, e), NextLogs(s, e), NextFiles(s, e), NextCalls(s, e),
               NextRunning(s, e), NextFinished(s, e), NextClaims(s, e))
  }

  function After(s: State, events: seq<Event>): State {
    if events == [] then s
    else Apply(After(s, events[..|events| - 1]), events[|events| - 1])
  }

  lemma AfterLast(s: State, events: seq<Event>, e: Event)
    ensures After(s, events + [e]) == Apply(After(s, events), e)
  {
    assert (events + [e])[..|events + [e]| - 1] == events;
  }

  lemma {:induction false} AfterConcat(s: State, xs: seq<Event>, ys: seq<Event>)
    ensures After(s, xs + ys) == After(After(s, xs), ys)
  {
    if ys == [] {
      assert xs + ys == xs;
    } else {
      assert (xs + ys)[..|xs + ys| - 1] == xs + ys[..|ys| - 1];
      AfterConcat(s, xs, ys[..|ys| - 1]);
    }
  }

  /** Every step of a run meets a condition on the state it starts from. */
  ghost predicate Throughout(s: State, events: seq<Event>, holds: (State, Event) -> bool) {
    events == []
    || (var last := |events| - 1;
        Throughout(s, events[..last], holds) && holds(After(s, events[..last]), events[last]))
  }

  lemma ThroughoutLast(s: State, before: seq<Event>, e: Event, holds: (State, Event) -> bool)
    requires Throughout(s, before, holds) && holds(After(s, before), e)
    ensures Throughout(s, before + [e], holds)
    ensures After(s, before + [e]) == Apply(After(s, before), e)
  {
    assert (before + [e])[..|before + [e]| - 1] == before;
  }

  lemma {:induction false} ThroughoutConcat(s: State, xs: seq<Event>, ys: seq<Event>, holds: (State, Event) -> bool)
    ensures Throughout(s, xs + ys, holds) <==> Throughout(s, xs, holds) && Throughout(After(s, xs), ys, holds)
    decreases |ys|
  {
    if ys == [] {
      assert xs + ys == xs;
    } else {
      var last := |ys| - 1;
      assert (xs + ys)[..|xs + ys| - 1] == xs + ys[..last];
      AfterConcat(s, xs, ys[..last]);
      ThroughoutConcat(s, xs, ys[..last], holds);
    }
  }
}
