/**
  Which execution a runner's messages reach.

  Messages name a task, so they reach the newest execution of the task and not
  necessarily the one that the runner works on. When the next execution of a task
  is created only after the previous one is finished, they are the same, every
  handler changes that one execution only, and the saves are harmless in the
  sense of `ClaimSafety`.
 */
module Routing {
  import opened Wrappers
  import opened Executions
  import opened Repositories
  import opened Protocol
  import opened ClaimSafety

  /** A task is run again only after all its executions are finished. */
  ghost predicate NoOverlap(s: State, e: Event) {
    e.Create? && Enabled(s, e) ==>
      forall i :: 0 <= i < |s.executions| && s.executions[i].taskId == e.taskId ==> i in s.finished
  }

  ghost predicate OpenIsNewest(s: State) {
    forall i, j :: 0 <= i < j < |s.executions| && s.executions[i].taskId == s.executions[j].taskId ==> i in s.finished
  }

  ghost predicate Assigned(s: State) {
    && s.running !! s.finished
    && (forall i :: i in s.running || i in s.finished ==> i < |s.executions| && s.executions[i].Claimed())
  }

  ghost predicate CallsRouted(s: State) {
    forall c :: c in s.calls ==>
      && s.calls[c].sender in s.running
      && s.calls[c].row.id == s.calls[c].sender
      && s.calls[c].row.Claimed()
  }

  ghost predicate Routed(s: State) {
    Sound(s) && OpenIsNewest(s) && Assigned(s) && CallsRouted(s)
  }

  /** A message reaches its sender's execution exactly when the task has no younger one. */
  lemma TargetIsSenderIffNewest(s: State, sender: Id)
    requires sender < |s.executions|
    ensures Target(s, sender) == Some(sender)
       <==> forall j :: sender < j < |s.executions| ==> s.executions[j].taskId != s.executions[sender].taskId
  {
    var found := Newest(s.executions, s.executions[sender].taskId);
    if Target(s, sender) != Some(sender) {
      assert s.executions[sender].taskId == s.executions[sender].taskId;
      assert sender < found.value < |s.executions|;
    }
  }

  lemma RunningIsTarget(s: State, sender: Id)
    requires Routed(s) && sender in s.running
    ensures Target(s, sender) == Some(sender)
  {
    TargetIsSenderIffNewest(s, sender);
    forall j | sender < j < |s.executions| ensures s.executions[j].taskId != s.executions[sender].taskId {
      assert sender !in s.finished;
    }
  }

  lemma OpenStep(s: State, e: Event)
    requires Routed(s) && NoOverlap(s, e) && Enabled(s, e)
    ensures OpenIsNewest(Apply(s, e))
  {
    TableStep(s, e);
    FinishedStep(s, e);
    var t := Apply(s, e);
    forall i, j | 0 <= i < j < |t.executions| && t.executions[i].taskId == t.executions[j].taskId
      ensures i in t.finished
    {
      if j < |s.executions| {
        assert i in s.finished;
      } else {
        assert e.Create?;
      }
    }
  }

  /** Nothing that is finished starts again. */
  lemma FinishedStep(s: State, e: Event)
    requires Assigned(s) && Enabled(s, e)
    ensures s.finished <= NextFinished(s, e)
  {
    if e.Claim? {
      assert OldestUnclaimed(s.executions).value !in s.finished;
    }
  }

  /** No step unclaims a row: status handlers save rows that were claimed when loaded. */
  lemma RowsStayClaimed(s: State, e: Event)
    requires Routed(s) && Enabled(s, e)
    ensures forall i :: 0 <= i < |s.executions| && s.executions[i].Claimed() ==>
              i < |NextExecutions(s, e)| && NextExecutions(s, e)[i].Claimed()
  {
    match e
    case Save(call) => assert s.calls[call].row.Claimed();
    case _ =>
  }

  lemma AssignedStep(s: State, e: Event)
    requires Routed(s) && Enabled(s, e)
    ensures Assigned(Apply(s, e))
  {
    TableStep(s, e);
    RowsStayClaimed(s, e);
  }

  lemma CallsRoutedStep(s: State, e: Event)
    requires Routed(s) && Enabled(s, e)
    ensures CallsRouted(Apply(s, e))
  {
    var t := Apply(s, e);
    if e.Load? {
      RunningIsTarget(s, e.sender);
      assert s.executions[e.sender].id == e.sender;
    }
    forall c | c in t.calls
      ensures t.calls[c].sender in t.running && t.calls[c].row.id == t.calls[c].sender && t.calls[c].row.Claimed()
    {
      if c in s.calls {
        assert s.calls[c].sender in s.running;
      }
    }
  }

  lemma RoutedStep(s: State, e: Event)
    requires Routed(s) && NoOverlap(s, e)
    ensures Routed(Apply(s, e)) && KeepsClaim(s, e)
  {
    SoundStep(s, e);
    if Enabled(s, e) {
      OpenStep(s, e);
      AssignedStep(s, e);
      CallsRoutedStep(s, e);
    }
  }

  /** Runs without overlap keep the claims: no hypothesis on saves is needed for them. */
  lemma {:induction false} RoutedRun(events: seq<Event>)
    requires Throughout(INITIAL, events, NoOverlap)
    ensures Routed(After(INITIAL, events)) && Throughout(INITIAL, events, KeepsClaim)
  {
    if events != [] {
      RoutedRun(events[..|events| - 1]);
      RoutedStep(After(INITIAL, events[..|events| - 1]), events[|events| - 1]);
    }
  }

  /** Nothing outside of one execution differs between two states. */
  ghost predicate ChangesOnly(s: State, t: State, id: Id) {
    && |s.executions| == |t.executions|
    && (forall j :: 0 <= j < |s.executions| && j != id ==> t.executions[j] == s.executions[j])
    && (forall j :: j != id ==> LogsOf(t.logs, j) == LogsOf(s.logs, j) && FilesOf(t.files, j) == FilesOf(s.files, j))
  }

  /** Rows inserted for one execution do not show among those of another. */
  lemma {:induction false} InsertKeepsOthers(logs: seq<LogRow>, rows: seq<LogRow>, id: Id, other: Id)
    requires forall i :: 0 <= i < |rows| ==> rows[i].executionId == id
    requires other != id
    ensures LogsOf(InsertLogs(logs, rows), other) == LogsOf(logs, other)
    decreases |rows|
  {
    if rows != [] {
      InsertKeepsOthers(InsertLog(logs, rows[0]), rows[1..], id, other);
      assert (logs + [rows[0]])[..|logs|] == logs;
    }
  }

  lemma CallChangesItsRow(s: State, e: Event)
    requires Enabled(s, e) && (e.Save? || e.Record?)
    requires WellFormed(s.executions)
    ensures ChangesOnly(s, Apply(s, e), s.calls[e.call].row.id)
  {
    var c := s.calls[e.call];
    var t := Apply(s, e);
    forall j | j != c.row.id
      ensures LogsOf(t.logs, j) == LogsOf(s.logs, j) && FilesOf(t.files, j) == FilesOf(s.files, j)
    {
      if e.Record? {
        match c.message
        case Update(request) => InsertKeepsOthers(s.logs, [StatusLog(c.row.id, request)], c.row.id, j);
        case Trace(entries) => InsertKeepsOthers(s.logs, TraceRows(c.row.id, entries), c.row.id, j);
        case Output(filename, content) =>
          assert (s.files + [FileRow(c.row.id, filename, content, true)])[..|s.files|] == s.files;
      }
    }
  }

  /** What a runner sent is stored under the execution that it works on. */
  ghost predicate StoredUnderSender(s: State, t: State, c: Call) {
    match c.message
    case Update(request) => t.logs == InsertLogs(s.logs, [StatusLog(c.sender, request)])
    case Trace(entries) => t.logs == InsertLogs(s.logs, TraceRows(c.sender, entries))
    case Output(filename, content) => t.files == s.files + [FileRow(c.sender, filename, content, true)]
  }

  /**
    A step on behalf of a runner loads, saves or records for the execution that the
    runner claimed, does so completely, and changes no other execution.
   */
  ghost predicate ReachesItsExecution(s: State, e: Event) {
    var t := Apply(s, e);
    && (e.Load? && Enabled(s, e) ==>
          && e.sender < |s.executions|
          && t.calls[e.call] == Call(e.sender, e.message, s.executions[e.sender], false))
    && (e.Save? && Enabled(s, e) ==>
          var c := s.calls[e.call];
          && c.sender < |s.executions|
          && t.executions == s.executions[c.sender := Merge(c.row, c.message.request)])
    && (e.Record? && Enabled(s, e) ==> StoredUnderSender(s, t, s.calls[e.call]))
    && ((e.Save? || e.Record?) && Enabled(s, e) ==>
          s.calls[e.call].sender in s.claims && ChangesOnly(s, t, s.calls[e.call].sender))
  }

  lemma StepReachesItsExecution(s: State, e: Event)
    requires Routed(s) && forall i :: i in s.running ==> i in s.claims
    ensures ReachesItsExecution(s, e)
  {
    if Enabled(s, e) {
      if e.Load? {
        RunningIsTarget(s, e.sender);
      }
      if e.Save? || e.Record? {
        CallChangesItsRow(s, e);
        CallIsStored(s, e);
      }
    }
  }

  lemma CallIsStored(s: State, e: Event)
    requires CallsRouted(s) && Enabled(s, e) && (e.Save? || e.Record?)
    ensures e.Record? ==> StoredUnderSender(s, Apply(s, e), s.calls[e.call])
    ensures e.Save? ==>
      var c := s.calls[e.call];
      && c.sender < |s.executions|
      && Apply(s, e).executions == s.executions[c.sender := Merge(c.row, c.message.request)]
  {
    assert s.calls[e.call].row.id == s.calls[e.call].sender;
  }

  lemma {:induction false} StepsReachTheirExecutions(events: seq<Event>)
    requires Throughout(INITIAL, events, NoOverlap)
    ensures Throughout(INITIAL, events, ReachesItsExecution)
  {
    if events != [] {
      var before := events[..|events| - 1];
      StepsReachTheirExecutions(before);
      RoutedRun(before);
      RunningWasClaimed(before);
      StepReachesItsExecution(After(INITIAL, before), events[|events| - 1]);
    }
  }

  /**
    Main result, over whole runs in which executions of one task do not overlap:
    every status update, log batch and output file that a runner sends is stored
    under the execution it claimed and changes nothing else, and executions are handed
    out in creation order, each once.
   */
  lemma MessagesReachTheirExecution(events: seq<Event>)
    requires Throughout(INITIAL, events, NoOverlap)
    ensures Throughout(INITIAL, events, ReachesItsExecution)
    ensures HandedOutInOrder(After(INITIAL, events))
  {
    StepsReachTheirExecutions(events);
    RoutedRun(events);
    ClaimedRun(INITIAL, events);
    ClaimsAreOrderedAndUnique(events);
  }

  lemma {:induction false} RunningWasClaimed(events: seq<Event>)
    ensures forall i :: i in After(INITIAL, events).running ==> i in After(INITIAL, events).claims
  {
    if events != [] {
      RunningWasClaimed(events[..|events| - 1]);
    }
  }

  /* -------------------------------------------------- loads and saves as one */

  /** A status handler between its load and its save. */
  predicate AwaitsSave(c: Call) {
    c.message.Update? && !c.saved
  }

  /** A runner waits for the reply to a status update before it sends the next. */
  ghost predicate WaitsForReply(s: State, e: Event) {
    e.Load? && e.message.Update? ==>
      forall c :: c in s.calls && AwaitsSave(s.calls[c]) ==> s.calls[c].sender != e.sender
  }

  /** No claimed row is marked completed from outside. */
  ghost predicate LeavesClaimedAlone(s: State, e: Event) {
    e.Complete? && Enabled(s, e) ==> !s.executions[e.id].Claimed()
  }

  ghost predicate Orderly(s: State, e: Event) {
    NoOverlap(s, e) && WaitsForReply(s, e) && LeavesClaimedAlone(s, e)
  }

  /** The copies that status handlers hold are what the table says now. */
  ghost predicate CopiesCurrent(s: State) {
    forall c :: c in s.calls && AwaitsSave(s.calls[c]) ==>
      s.calls[c].sender < |s.executions| && s.executions[s.calls[c].sender] == s.calls[c].row
  }

  ghost predicate OnePendingEach(s: State) {
    forall c, d :: c in s.calls && d in s.calls && AwaitsSave(s.calls[c]) && AwaitsSave(s.calls[d]) && c != d ==>
      s.calls[c].sender != s.calls[d].sender
  }

  lemma OnePendingStep(s: State, e: Event)
    requires OnePendingEach(s) && Orderly(s, e) && Enabled(s, e)
    ensures OnePendingEach(Apply(s, e))
  {
    match e
    case Load(_, _, _) =>
    case Save(_) =>
    case _ =>
  }

  lemma CopiesStep(s: State, e: Event)
    requires Routed(s) && CopiesCurrent(s) && OnePendingEach(s) && Orderly(s, e) && Enabled(s, e)
    ensures CopiesCurrent(Apply(s, e))
  {
    var t := Apply(s, e);
    forall c | c in t.calls && AwaitsSave(t.calls[c])
      ensures t.calls[c].sender < |t.executions| && t.executions[t.calls[c].sender] == t.calls[c].row
    {
      if c in s.calls {
        PendingCopyStep(s, e, c);
      } else {
        RunningIsTarget(s, e.sender);
      }
    }
  }

  lemma PendingCopyStep(s: State, e: Event, c: nat)
    requires Routed(s) && CopiesCurrent(s) && OnePendingEach(s) && Orderly(s, e) && Enabled(s, e)
    requires c in s.calls && c in NextCalls(s, e) && AwaitsSave(NextCalls(s, e)[c])
    ensures NextCalls(s, e)[c] == s.calls[c]
    ensures s.calls[c].sender < |NextExecutions(s, e)|
    ensures NextExecutions(s, e)[s.calls[c].sender] == s.calls[c].row
  {
    var call := s.calls[c];
    assert AwaitsSave(call) && s.executions[call.sender] == call.row;
    assert call.row.Claimed();
    match e
    case Save(other) => assert s.calls[other].sender != call.sender && s.calls[other].row.id == s.calls[other].sender;
    case _ =>
  }

  /** What orderly runs keep: the copies that status handlers hold are the rows of the table. */
  ghost predicate InOrder(s: State) {
    Routed(s) && CopiesCurrent(s) && OnePendingEach(s)
  }

  lemma {:induction false} OrderlyRun(s: State, events: seq<Event>)
    requires InOrder(s) && Throughout(s, events, Orderly)
    ensures InOrder(After(s, events))
  {
    if events != [] {
      OrderlyRun(s, events[..|events| - 1]);
      OrderlyStep(After(s, events[..|events| - 1]), events[|events| - 1]);
    }
  }

  lemma OrderlyStep(s: State, e: Event)
    requires InOrder(s) && Orderly(s, e)
    ensures InOrder(Apply(s, e))
  {
    RoutedStep(s, e);
    if Enabled(s, e) {
      OnePendingStep(s, e);
      CopiesStep(s, e);
    }
  }

  /** A save has the effect of merging the request into the row as it is at that moment. */
  ghost predicate SavesAtomically(s: State, e: Event) {
    e.Save? && Enabled(s, e) ==>
      var c := s.calls[e.call];
      Apply(s, e).executions == s.executions[c.row.id := Merge(s.executions[c.row.id], c.message.request)]
  }

  /** The exact condition: the copy may be out of date only in columns that the request carries. */
  lemma SaveIsAtomicIff(s: State, call: nat)
    requires Enabled(s, Save(call))
    ensures SavesAtomically(s, Save(call)) <==>
              var c := s.calls[call]; AgreeOutside(c.row, s.executions[c.row.id], c.message.request)
  {
    var c := s.calls[call];
    MergeAgreesIff(c.row, s.executions[c.row.id], c.message.request);
    assert Apply(s, Save(call)).executions[c.row.id] == Merge(c.row, c.message.request);
  }

  /**
    When, besides, each runner waits for replies and nobody completes a claimed row,
    no status update is lost: the unprotected read and save act as one update.
   */
  lemma {:induction false} SavesAreAtomic(events: seq<Event>)
    requires Throughout(INITIAL, events, Orderly)
    ensures Throughout(INITIAL, events, SavesAtomically)
  {
    if events != [] {
      var before, e := events[..|events| - 1], events[|events| - 1];
      SavesAreAtomic(before);
      OrderlyRun(INITIAL, before);
      if e.Save? && Enabled(After(INITIAL, before), e) {
        CurrentCopySavesAtomically(After(INITIAL, before), e.call);
      }
    }
  }

  lemma CurrentCopySavesAtomically(s: State, call: nat)
    requires Routed(s) && CopiesCurrent(s) && Enabled(s, Save(call))
    ensures SavesAtomically(s, Save(call))
  {
    assert AwaitsSave(s.calls[call]) && s.calls[call].row.id == s.calls[call].sender;
    SaveIsAtomicIff(s, call);
  }

  /** A status call that nothing interrupts does what the handler method promises. */
  lemma UninterruptedUpdate(s: State, call: nat, sender: Id, request: StatusRequest)
    requires Routed(s) && sender in s.running && call !in s.calls && request.Valid()
    ensures var t := Apply(Apply(Apply(s, Load(call, sender, Update(request))), Save(call)), Record(call));
            && t.executions == s.executions[sender := Merge(s.executions[sender], request)]
            && t.logs == InsertLogs(s.logs, [StatusLog(sender, request)])
            && t.calls == s.calls
  {
    RunningIsTarget(s, sender);
    assert s.executions[sender].id == sender;
    var loaded := Apply(s, Load(call, sender, Update(request)));
    assert loaded.calls[call] == Call(sender, Update(request), s.executions[sender], false);
    var saved := Apply(loaded, Save(call));
    assert saved.calls[call].saved;
    var t := Apply(saved, Record(call));
    assert t.calls == s.calls;
  }

  /** A batch that the server accepts is stored whole, when nothing interrupts the call. */
  lemma UninterruptedTrace(s: State, call: nat, sender: Id, entries: seq<LogEntry>)
    requires Routed(s) && sender in s.running && call !in s.calls
    requires entries != [] && forall entry :: entry in entries ==> GoodEntry(entry)
    ensures var t := Apply(Apply(s, Load(call, sender, Trace(entries))), Record(call));
            && t.logs == InsertLogs(s.logs, TraceRows(sender, entries))
            && t == s.(logs := t.logs)
  {
    TraceAcceptedIffAllGood(entries);
    RunningIsTarget(s, sender);
    assert s.executions[sender].id == sender;
    var loaded := Apply(s, Load(call, sender, Trace(entries)));
    assert loaded.calls[call] == Call(sender, Trace(entries), s.executions[sender], false);
    assert Apply(loaded, Record(call)).calls == s.calls;
  }

  /** Any file is stored, when nothing interrupts the call. */
  lemma UninterruptedOutput(s: State, call: nat, sender: Id, filename: string, content: string)
    requires Routed(s) && sender in s.running && call !in s.calls
    ensures var t := Apply(Apply(s, Load(call, sender, Output(filename, content))), Record(call));
            && t.files == s.files + [FileRow(sender, filename, content, true)]
            && t == s.(files := t.files)
  {
    RunningIsTarget(s, sender);
    assert s.executions[sender].id == sender;
    var loaded := Apply(s, Load(call, sender, Output(filename, content)));
    assert loaded.calls[call] == Call(sender, Output(filename, content), s.executions[sender], false);
    assert Apply(loaded, Record(call)).calls == s.calls;
  }

  /** A load is possible for every message that the server accepts, and for no other. */
  lemma LoadsWhatIsAcceptable(s: State, call: nat, sender: Id, message: Message)
    requires Routed(s) && sender in s.running && call !in s.calls
    ensures Enabled(s, Load(call, sender, message)) <==>
      match message
      case Update(request) => request.status.Text() != ""
      case Trace(entries) => entries != [] && forall entry :: entry in entries ==> GoodEntry(entry)
      case Output(_, _) => true
  {
    RunningIsTarget(s, sender);
    if message.Trace? {
      TraceAcceptedIffAllGood(message.entries);
    }
  }

  /** The server creates, claims and completes unless the time is not later, the token is in use or no row is there. */
  lemma ServerStepsArePossible(s: State, e: Event)
    requires Sound(s)
    ensures e.Create? ==>
      (Enabled(s, e) <==>
         && (s.executions != [] ==> s.executions[|s.executions| - 1].createdAt < e.now)
         && forall i :: 0 <= i < |s.executions| ==> s.executions[i].runnerToken != e.token)
    ensures e.Claim? && (forall i :: 0 <= i < |s.executions| ==> s.executions[i].runnerToken != e.token) ==>
      (Enabled(s, e) <==> exists i :: 0 <= i < |s.executions| && s.executions[i].startedAt == None)
    ensures e.Complete? ==> (Enabled(s, e) <==> e.id < |s.executions|)
  {
  }

  /** A handler in flight can always go on: it can be abandoned, and a claimed row's update can be saved or recorded. */
  lemma CallsGoOn(s: State, call: nat)
    requires InOrder(s) && call in s.calls
    ensures Enabled(s, if AwaitsSave(s.calls[call]) then Save(call) else Record(call))
    ensures Enabled(s, Abort(call)) && Apply(s, Abort(call)) == s.(calls := s.calls - {call})
  {
    if AwaitsSave(s.calls[call]) {
      assert s.executions[s.calls[call].sender] == s.calls[call].row;
    }
  }

  /** A runner that has no message in flight can finish, and then its task can be created again. */
  lemma FinishedTaskMayRunAgain(s: State, id: Id, create: Event)
    requires Routed(s) && id in s.running && forall c :: c in s.calls ==> s.calls[c].sender != id
    requires create.Create? && create.taskId == s.executions[id].taskId
    requires create.now > s.executions[|s.executions| - 1].createdAt
    requires TokenFree(s.executions, |s.executions|, create.token)
    ensures Enabled(s, Finish(id))
    ensures var t := Apply(s, Finish(id));
      && t == s.(running := s.running - {id}, finished := s.finished + {id})
      && Enabled(t, create) && NoOverlap(t, create)
  {
    forall i | 0 <= i < |s.executions| && s.executions[i].taskId == create.taskId && i != id
      ensures i in s.finished
    {
      assert !(i > id) by {
        assert id !in s.finished;
      }
    }
  }
}
