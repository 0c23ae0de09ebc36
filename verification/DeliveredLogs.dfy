/**
  The container's log in the interleaved system. The batches that the log streamer
  submits go on one after another, whatever its connections do; those that reach the
  server are recorded under the execution, among the records of everybody else; and
  what the log table then holds of the container is its log, each line once.
 */
module DeliveredLogs {
  import opened Executions
  import opened Repositories
  import opened Protocol
  import opened Routing
  import opened LogStreaming
  import StatusUpdates

  // ---------------------------------------------------------------- the batches that are submitted

  /** The batch that a happening makes the streamer submit, if any; delivery does not matter to it. */
  function SubmittedBy(s: Streaming): seq<seq<LogEntry>> {
    if s.logs == [] then [] else [s.logs]
  }

  function FollowedBatches(s: Streaming, executionId: Id, lines: seq<Line>, happenings: seq<Happening>)
    : seq<seq<LogEntry>>
  {
    if happenings == [] then []
    else
      var n := |happenings| - 1;
      FollowedBatches(s, executionId, lines, happenings[..n])
      + if happenings[n].Tick? then SubmittedBy(Followed(s, executionId, lines, happenings[..n])) else []
  }

  function StreamedBatches(s: Streaming, executionId: Id, lines: seq<Line>, attempts: seq<Attempt>): seq<seq<LogEntry>>
    decreases |attempts|
  {
    if attempts == [] then []
    else
      var begun := s.(logs := []);
      match attempts[0]
      case ContainerNotFound => []
      case Unavailable => StreamedBatches(begun, executionId, lines, attempts[1..])
      case Stream(happenings, end) =>
        var followed := Followed(begun, executionId, lines, happenings);
        var batches := FollowedBatches(begun, executionId, lines, happenings);
        match end
        case Closed(delivered) =>
          batches + SubmittedBy(followed)
          + StreamedBatches(Submitted(followed, executionId, delivered), executionId, lines, attempts[1..])
        case Cancelled(_) => batches + SubmittedBy(followed)
        case Unfinished => batches
  }

  /** The position after the last line of the last batch. */
  function EndOf(batches: seq<seq<LogEntry>>): nat {
    if batches == [] || batches[|batches| - 1] == [] then 0
    else batches[|batches| - 1][0].clock + |batches[|batches| - 1]|
  }

  /** A batch of consecutive lines that goes on at `end`, or sends the line before it again. */
  ghost predicate Continues(batch: seq<LogEntry>, lines: seq<Line>, end: nat) {
    && batch != [] && Consecutive(batch, lines, batch[0].clock)
    && end - 1 <= batch[0].clock <= end
  }

  ghost predicate Chained(batches: seq<seq<LogEntry>>, lines: seq<Line>) {
    batches == []
    || (var n := |batches| - 1; Chained(batches[..n], lines) && Continues(batches[n], lines, EndOf(batches[..n])))
  }

  lemma ChainedMore(batches: seq<seq<LogEntry>>, lines: seq<Line>, batch: seq<LogEntry>)
    requires Chained(batches, lines) && Continues(batch, lines, EndOf(batches))
    ensures Chained(batches + [batch], lines) && EndOf(batches + [batch]) == batch[0].clock + |batch|
  {
    assert (batches + [batch])[..|batches|] == batches;
  }

  /** The batches submitted so far, and then what is pending, are consecutive lines up to the last one seen. */
  ghost predicate InStep(s: Streaming, batches: seq<seq<LogEntry>>, lines: seq<Line>) {
    && Chained(batches, lines)
    && s.localClock == (if s.seen == 0 then 0 else s.seen - 1)
    && (if s.logs == [] then EndOf(batches) == s.seen
        else Continues(s.logs, lines, EndOf(batches)) && s.logs[0].clock + |s.logs| == s.seen)
  }

  lemma SubmitInStep(s: Streaming, batches: seq<seq<LogEntry>>, executionId: Id, lines: seq<Line>, delivered: bool)
    requires InStep(s, batches, lines)
    ensures InStep(Submitted(s, executionId, delivered), batches + SubmittedBy(s), lines)
    ensures Submitted(s, executionId, delivered).logs == [] && Submitted(s, executionId, delivered).seen == s.seen
  {
    if s.logs == [] {
      assert batches + [] == batches;
    } else {
      ChainedMore(batches, lines, s.logs);
    }
  }

  lemma ReceiveInStep(s: Streaming, batches: seq<seq<LogEntry>>, lines: seq<Line>, clock: nat, now: int)
    requires InStep(s, batches, lines) && Reached(s, clock) && clock < |lines|
    ensures var t := Received(s, lines, clock, now);
      InStep(t, batches, lines) && Reached(t, clock + 1) && t.seen == Max(s.seen, clock + 1)
  {
    if clock >= s.localClock {
      var more := s.logs + [EntryFor(lines, clock, now)];
      assert more[0].clock == if s.logs == [] then clock else s.logs[0].clock;
      assert Consecutive(more, lines, more[0].clock);
    }
  }

  lemma {:induction false} FollowInStep(s: Streaming, batches: seq<seq<LogEntry>>, executionId: Id, lines: seq<Line>,
                                        happenings: seq<Happening>)
    requires InStep(s, batches, lines) && s.logs == []
    ensures var t, n := Followed(s, executionId, lines, happenings), Arrivals(happenings, |lines|);
      && InStep(t, batches + FollowedBatches(s, executionId, lines, happenings), lines)
      && Reached(t, n) && t.seen == Max(s.seen, n)
  {
    hide InStep;
    if happenings == [] {
      assert batches + [] == batches;
    } else {
      var before, last := happenings[..|happenings| - 1], happenings[|happenings| - 1];
      FollowInStep(s, batches, executionId, lines, before);
      var m, n := Followed(s, executionId, lines, before), Arrivals(before, |lines|);
      var sent := batches + FollowedBatches(s, executionId, lines, before);
      match last
      case Arrive(now) =>
        assert sent + [] == sent;
        assert sent == batches + (FollowedBatches(s, executionId, lines, before) + []);
        if n < |lines| { ReceiveInStep(m, sent, lines, n, now); }
      case Tick(delivered) =>
        SubmitInStep(m, sent, executionId, lines, delivered);
        assert sent + SubmittedBy(m) == batches + (FollowedBatches(s, executionId, lines, before) + SubmittedBy(m));
      case Others(rows) =>
        assert sent == batches + (FollowedBatches(s, executionId, lines, before) + []);
        OthersInStep(m, sent, lines, rows);
    }
  }

  lemma OthersInStep(s: Streaming, batches: seq<seq<LogEntry>>, lines: seq<Line>, rows: seq<LogRow>)
    requires InStep(s, batches, lines)
    ensures InStep(s.(stored := InsertLogs(s.stored, rows)), batches, lines)
  {
  }

  /** Whatever the attempts, the streamer submits consecutive lines, going back by one line at most. */
  lemma {:induction false} StreamInStep(s: Streaming, batches: seq<seq<LogEntry>>, executionId: Id, lines: seq<Line>,
                                        attempts: seq<Attempt>)
    requires InStep(s, batches, lines) && s.logs == []
    ensures Chained(batches + StreamedBatches(s, executionId, lines, attempts), lines)
    ensures EndOf(batches + StreamedBatches(s, executionId, lines, attempts)) <= |lines|
    decreases |attempts|
  {
    assert batches + [] == batches;
    if attempts == [] {
      EndIsInLines(s, batches, lines);
    } else {
      match attempts[0]
      case ContainerNotFound => EndIsInLines(s, batches, lines);
      case Unavailable => StreamInStep(s, batches, executionId, lines, attempts[1..]);
      case Stream(happenings, end) => StreamOneInStep(s, batches, executionId, lines, attempts, happenings, end);
    }
  }

  lemma EndIsInLines(s: Streaming, batches: seq<seq<LogEntry>>, lines: seq<Line>)
    requires InStep(s, batches, lines)
    ensures Chained(batches, lines) && EndOf(batches) <= |lines|
  {
  }

  lemma {:induction false} StreamOneInStep(s: Streaming, batches: seq<seq<LogEntry>>, executionId: Id, lines: seq<Line>,
                                           attempts: seq<Attempt>, happenings: seq<Happening>, end: End)
    requires InStep(s, batches, lines) && s.logs == []
    requires attempts != [] && attempts[0] == Stream(happenings, end)
    ensures Chained(batches + StreamedBatches(s, executionId, lines, attempts), lines)
    ensures EndOf(batches + StreamedBatches(s, executionId, lines, attempts)) <= |lines|
    decreases |attempts|, 0
  {
    hide InStep, Chained, EndOf, Followed, FollowedBatches, Submitted, SubmittedBy;
    FollowInStep(s, batches, executionId, lines, happenings);
    var followed, some := Followed(s, executionId, lines, happenings),
      FollowedBatches(s, executionId, lines, happenings);
    var sent := batches + some;
    assert sent + SubmittedBy(followed) == batches + (some + SubmittedBy(followed));
    match end
    case Closed(delivered) =>
      SubmitInStep(followed, sent, executionId, lines, delivered);
      var t := Submitted(followed, executionId, delivered);
      StreamInStep(t, sent + SubmittedBy(followed), executionId, lines, attempts[1..]);
      var rest := StreamedBatches(t, executionId, lines, attempts[1..]);
      assert sent + SubmittedBy(followed) + rest == batches + (some + SubmittedBy(followed) + rest);
    case Cancelled(delivered) =>
      SubmitInStep(followed, sent, executionId, lines, delivered);
      EndIsInLines(Submitted(followed, executionId, delivered), sent + SubmittedBy(followed), lines);
    case Unfinished => EndIsInLines(followed, sent, lines);
  }

  // ---------------------------------------------------------------- what the batches that arrive store

  /** The container's rows after batches are inserted in turn. */
  function Inserted(rows: seq<LogRow>, executionId: Id, batches: seq<seq<LogEntry>>): seq<LogRow> {
    if batches == [] then rows
    else
      var n := |batches| - 1;
      InsertLogs(Inserted(rows, executionId, batches[..n]), TraceRows(executionId, batches[n]))
  }

  /** The rows are those of the lines before `end`, in order and none twice; without loss, all of them. */
  ghost predicate StoredBefore(rows: seq<LogRow>, end: nat, lost: bool, executionId: Id, lines: seq<Line>) {
    && Faithful(rows, executionId, lines) && UpTo(rows, end - 1)
    && (!lost ==> NoGap(rows) && |rows| == end)
  }

  lemma InsertBatch(rows: seq<LogRow>, end: nat, lost: bool, executionId: Id, lines: seq<Line>, batch: seq<LogEntry>)
    requires Datable(lines) && StoredBefore(rows, end, lost, executionId, lines)
    requires Continues(batch, lines, end) && AcceptsTrace(batch)
    ensures StoredBefore(InsertLogs(rows, TraceRows(executionId, batch)), batch[0].clock + |batch|, lost, executionId,
                         lines)
  {
    var first, more := batch[0].clock, TraceRows(executionId, batch);
    BatchRows(executionId, lines, batch, first);
    WeakenUpTo(rows, end - 1, first);
    LastOrBefore(rows, executionId, lines, first);
    InsertConsecutive(rows, executionId, lines, first, more);
    if !lost {
      AppendLeavesNoGap(rows, executionId, lines, first, more);
    }
  }

  lemma SkipBatch(rows: seq<LogRow>, end: nat, lost: bool, executionId: Id, lines: seq<Line>, batch: seq<LogEntry>)
    requires StoredBefore(rows, end, lost, executionId, lines) && Continues(batch, lines, end)
    ensures StoredBefore(rows, batch[0].clock + |batch|, true, executionId, lines)
  {
    WeakenUpTo(rows, end - 1, batch[0].clock + |batch| - 1);
  }

  ghost predicate AllAccepted(batches: seq<seq<LogEntry>>) {
    forall k :: 0 <= k < |batches| ==> AcceptsTrace(batches[k])
  }

  ghost predicate Lost(arrived: seq<bool>) {
    exists k :: 0 <= k < |arrived| && !arrived[k]
  }

  /** Whichever batches of a chain arrive, they store lines in order and none twice; if all do, all lines. */
  lemma {:induction false} ChainIsStored(batches: seq<seq<LogEntry>>, arrived: seq<bool>, executionId: Id,
                                         lines: seq<Line>)
    requires Datable(lines) && Chained(batches, lines) && |arrived| == |batches|
    requires AllAccepted(StatusUpdates.Kept(batches, arrived))
    ensures StoredBefore(Inserted([], executionId, StatusUpdates.Kept(batches, arrived)), EndOf(batches),
                         Lost(arrived), executionId, lines)
    decreases |batches|
  {
    if batches != [] {
      var n := |batches| - 1;
      var kept := StatusUpdates.Kept(batches[..n], arrived[..n]);
      assert AllAccepted(kept) by {
        assert kept <= StatusUpdates.Kept(batches, arrived);
      }
      ChainIsStored(batches[..n], arrived[..n], executionId, lines);
      LostMore(arrived);
      var rows := Inserted([], executionId, kept);
      if arrived[n] {
        var all := kept + [batches[n]];
        assert all == StatusUpdates.Kept(batches, arrived) && all[|kept|] == batches[n] && all[..|kept|] == kept;
        InsertBatch(rows, EndOf(batches[..n]), Lost(arrived[..n]), executionId, lines, batches[n]);
      } else {
        assert kept + [] == kept;
        SkipBatch(rows, EndOf(batches[..n]), Lost(arrived[..n]), executionId, lines, batches[n]);
      }
    }
  }

  lemma LostMore(arrived: seq<bool>)
    requires arrived != []
    ensures Lost(arrived) <==> Lost(arrived[..|arrived| - 1]) || !arrived[|arrived| - 1]
  {
    var n := |arrived| - 1;
    if k :| 0 <= k < |arrived[..n]| && !arrived[..n][k] {
      assert !arrived[k];
    }
  }

  // ---------------------------------------------------------------- the records of one execution

  /** The log rows that a step records on behalf of the runner of an execution. */
  function RecordedBy(s: State, e: Event, id: Id): seq<LogRow> {
    if e.Record? && Enabled(s, e) && s.calls[e.call].sender == id then
      match s.calls[e.call].message
      case Update(request) => [StatusLog(id, request)]
      case Trace(entries) => TraceRows(id, entries)
      case Output(_, _) => []
    else []
  }

  function Recorded(s: State, events: seq<Event>, id: Id): seq<LogRow> {
    if events == [] then []
    else
      var last := |events| - 1;
      Recorded(s, events[..last], id) + RecordedBy(After(s, events[..last]), events[last], id)
  }

  /** The file that a step records on behalf of the runner of an execution. */
  function FileBy(s: State, e: Event, id: Id): seq<FileRow> {
    if e.Record? && Enabled(s, e) && s.calls[e.call].sender == id && s.calls[e.call].message.Output? then
      [FileRow(id, s.calls[e.call].message.filename, s.calls[e.call].message.content, true)]
    else []
  }

  function RecordedFiles(s: State, events: seq<Event>, id: Id): seq<FileRow> {
    if events == [] then []
    else
      var last := |events| - 1;
      RecordedFiles(s, events[..last], id) + FileBy(After(s, events[..last]), events[last], id)
  }

  /** All rows are of one execution. */
  ghost predicate Of(rows: seq<LogRow>, id: Id) {
    forall k :: 0 <= k < |rows| ==> rows[k].executionId == id
  }

  lemma {:induction false} LogsOfHaveKey(logs: seq<LogRow>, row: LogRow)
    ensures HasKey(logs, row.Key()) <==> HasKey(LogsOf(logs, row.executionId), row.Key())
  {
    if logs != [] {
      var before, last := logs[..|logs| - 1], logs[|logs| - 1];
      LogsOfHaveKey(before, row);
      HasKeyMore(before, last, row.Key());
      assert before + [last] == logs;
      HasKeyMore(LogsOf(before, row.executionId), last, row.Key());
    }
  }

  lemma HasKeyMore(logs: seq<LogRow>, last: LogRow, key: (Id, int, Source, nat))
    ensures HasKey(logs + [last], key) <==> HasKey(logs, key) || last.Key() == key
  {
    if i :| 0 <= i < |logs| && logs[i].Key() == key {
      assert (logs + [last])[i].Key() == key;
    }
    assert (logs + [last])[|logs|] == last;
  }

  lemma InsertOwn(logs: seq<LogRow>, row: LogRow)
    ensures LogsOf(InsertLog(logs, row), row.executionId) == InsertLog(LogsOf(logs, row.executionId), row)
  {
    LogsOfHaveKey(logs, row);
    assert (logs + [row])[..|logs|] == logs;
  }

  lemma {:induction false} InsertAllOwn(logs: seq<LogRow>, rows: seq<LogRow>, id: Id)
    requires Of(rows, id)
    ensures LogsOf(InsertLogs(logs, rows), id) == InsertLogs(LogsOf(logs, id), rows)
    decreases |rows|
  {
    if rows != [] {
      InsertOwn(logs, rows[0]);
      InsertAllOwn(InsertLog(logs, rows[0]), rows[1..], id);
    }
  }

  lemma {:induction false} InsertConcat(logs: seq<LogRow>, rows: seq<LogRow>, more: seq<LogRow>)
    ensures InsertLogs(logs, rows + more) == InsertLogs(InsertLogs(logs, rows), more)
    decreases |rows|
  {
    if rows == [] {
      assert rows + more == more;
    } else {
      assert (rows + more)[1..] == rows[1..] + more;
      InsertConcat(InsertLog(logs, rows[0]), rows[1..], more);
    }
  }

  /** A step changes the log of an execution only by what it records for its runner. */
  lemma LogStep(s: State, e: Event, id: Id)
    requires CallsRouted(s)
    ensures LogsOf(Apply(s, e).logs, id) == InsertLogs(LogsOf(s.logs, id), RecordedBy(s, e, id))
  {
    if e.Record? && Enabled(s, e) {
      var c := s.calls[e.call];
      CallIsStored(s, e);
      match c.message
      case Update(request) => LogStepRows(s.logs, [StatusLog(c.sender, request)], c.sender, id);
      case Trace(entries) => LogStepRows(s.logs, TraceRows(c.sender, entries), c.sender, id);
      case Output(_, _) =>
    }
  }

  lemma LogStepRows(logs: seq<LogRow>, rows: seq<LogRow>, sender: Id, id: Id)
    requires Of(rows, sender)
    ensures LogsOf(InsertLogs(logs, rows), id) == InsertLogs(LogsOf(logs, id), if sender == id then rows else [])
  {
    if sender == id {
      InsertAllOwn(logs, rows, id);
    } else {
      InsertKeepsOthers(logs, rows, sender, id);
    }
  }

  lemma FileStep(s: State, e: Event, id: Id)
    requires CallsRouted(s)
    ensures FilesOf(Apply(s, e).files, id) == FilesOf(s.files, id) + FileBy(s, e, id)
  {
    if e.Record? && Enabled(s, e) && s.calls[e.call].message.Output? {
      CallIsStored(s, e);
      var c := s.calls[e.call];
      var row := FileRow(c.sender, c.message.filename, c.message.content, true);
      assert (s.files + [row])[..|s.files|] == s.files;
    }
  }

  /**
    In a run without overlap, the log of an execution is what the status updates and
    the batches of its own runner, recorded so far, make of it in turn, and its output
    files are those of its own runner.
   */
  lemma {:induction false} LogsFollowRecords(events: seq<Event>, id: Id)
    requires Throughout(INITIAL, events, NoOverlap)
    ensures LogsOf(After(INITIAL, events).logs, id) == InsertLogs([], Recorded(INITIAL, events, id))
    ensures FilesOf(After(INITIAL, events).files, id) == RecordedFiles(INITIAL, events, id)
  {
    if events != [] {
      var before, e := events[..|events| - 1], events[|events| - 1];
      LogsFollowRecords(before, id);
      RoutedRun(before);
      LogStep(After(INITIAL, before), e, id);
      FileStep(After(INITIAL, before), e, id);
      InsertConcat([], Recorded(INITIAL, before, id), RecordedBy(After(INITIAL, before), e, id));
    }
  }

  // ---------------------------------------------------------------- the container's log

  /** The batch that a step records on behalf of the runner of an execution. */
  function TraceBy(s: State, e: Event, id: Id): seq<seq<LogEntry>> {
    if e.Record? && Enabled(s, e) && s.calls[e.call].sender == id && s.calls[e.call].message.Trace? then
      [s.calls[e.call].message.entries]
    else []
  }

  function RecordedTraces(s: State, events: seq<Event>, id: Id): seq<seq<LogEntry>> {
    if events == [] then []
    else
      var last := |events| - 1;
      RecordedTraces(s, events[..last], id) + TraceBy(After(s, events[..last]), events[last], id)
  }

  ghost predicate CallsAcceptable(s: State) {
    forall c :: c in s.calls ==> Acceptable(s.calls[c].message)
  }

  lemma {:induction false} RecordedTracesAreAccepted(events: seq<Event>, id: Id)
    ensures CallsAcceptable(After(INITIAL, events)) && AllAccepted(RecordedTraces(INITIAL, events, id))
  {
    if events != [] {
      RecordedTracesAreAccepted(events[..|events| - 1], id);
    }
  }

  /** All entries come from the container. */
  ghost predicate FromContainer(batch: seq<LogEntry>) {
    forall k :: 0 <= k < |batch| ==> batch[k].source == "container"
  }

  ghost predicate AllFromContainer(batches: seq<seq<LogEntry>>) {
    forall k :: 0 <= k < |batches| ==> FromContainer(batches[k])
  }

  /** A step changes the container's rows only by a batch that it records for the execution's runner. */
  lemma ContainerStep(s: State, e: Event, id: Id)
    requires CallsRouted(s) && AllFromContainer(TraceBy(s, e, id))
    ensures ContainerLogs(Apply(s, e).logs, id) == Inserted(ContainerLogs(s.logs, id), id, TraceBy(s, e, id))
  {
    var rows := ContainerLogs(s.logs, id);
    if e.Record? && Enabled(s, e) {
      var c := s.calls[e.call];
      CallIsStored(s, e);
      match c.message
      case Update(request) => OtherRowsDoNotMatter(s.logs, id, [StatusLog(c.sender, request)]);
      case Trace(entries) =>
        if c.sender == id {
          assert FromContainer(TraceBy(s, e, id)[0]);
          InsertLogsCommute(s.logs, id, TraceRows(id, entries));
          assert [entries][..0] == [];
        } else {
          OtherRowsDoNotMatter(s.logs, id, TraceRows(c.sender, entries));
        }
      case Output(_, _) =>
    }
  }

  lemma InsertedMore(rows: seq<LogRow>, executionId: Id, batches: seq<seq<LogEntry>>, more: seq<seq<LogEntry>>)
    requires |more| <= 1
    ensures Inserted(rows, executionId, batches + more)
         == Inserted(Inserted(rows, executionId, batches), executionId, more)
  {
    if more == [] {
      assert batches + more == batches;
    } else {
      assert (batches + more)[..|batches|] == batches && more[..0] == [];
    }
  }

  lemma {:induction false} ContainerLogsFollowTraces(events: seq<Event>, id: Id)
    requires Throughout(INITIAL, events, NoOverlap) && AllFromContainer(RecordedTraces(INITIAL, events, id))
    ensures ContainerLogs(After(INITIAL, events).logs, id) == Inserted([], id, RecordedTraces(INITIAL, events, id))
  {
    if events != [] {
      var before, e := events[..|events| - 1], events[|events| - 1];
      var s, traces, more := After(INITIAL, before), RecordedTraces(INITIAL, before, id),
        TraceBy(After(INITIAL, before), e, id);
      assert RecordedTraces(INITIAL, events, id) == traces + more;
      SplitFromContainer(traces, more);
      ContainerLogsFollowTraces(before, id);
      RoutedRun(before);
      ContainerStep(s, e, id);
      InsertedMore([], id, traces, more);
    }
  }

  lemma SplitFromContainer(traces: seq<seq<LogEntry>>, more: seq<seq<LogEntry>>)
    requires AllFromContainer(traces + more)
    ensures AllFromContainer(traces) && AllFromContainer(more)
  {
    assert forall k :: 0 <= k < |traces| ==> traces[k] == (traces + more)[k];
    assert forall k :: 0 <= k < |more| ==> more[k] == (traces + more)[|traces| + k];
  }

  lemma {:induction false} KeptFromContainer(batches: seq<seq<LogEntry>>, arrived: seq<bool>, lines: seq<Line>)
    requires Chained(batches, lines) && |arrived| == |batches|
    ensures AllFromContainer(StatusUpdates.Kept(batches, arrived))
    decreases |batches|
  {
    if batches != [] {
      var n := |batches| - 1;
      KeptFromContainer(batches[..n], arrived[..n], lines);
      assert FromContainer(batches[n]) by {
        forall k | 0 <= k < |batches[n]| ensures batches[n][k].source == "container" {
          assert Reads(batches[n][k], lines, batches[n][0].clock + k);
        }
      }
    }
  }

  /**
    Main result: in a run without overlap, where the batches recorded for an execution
    are some of those that its log streamer submits, in order, for any connections cut
    anywhere: the container's rows are lines of its log, in order and none twice; if no
    batch was lost, they are exactly the lines before the end of the last batch.
   */
  lemma ContainerLogIsStoredOnce(events: seq<Event>, id: Id, lines: seq<Line>, attempts: seq<Attempt>,
                                 arrived: seq<bool>)
    requires Throughout(INITIAL, events, NoOverlap) && Datable(lines)
    requires var batches := StreamedBatches(Streaming(0, [], [], 0, false), id, lines, attempts);
      |arrived| == |batches| && RecordedTraces(INITIAL, events, id) == StatusUpdates.Kept(batches, arrived)
    ensures var rows := ContainerLogs(After(INITIAL, events).logs, id);
      && Faithful(rows, id, lines)
      && (!Lost(arrived) ==>
            && NoGap(rows)
            && |rows| == EndOf(StreamedBatches(Streaming(0, [], [], 0, false), id, lines, attempts)))
  {
    var begin := Streaming(0, [], [], 0, false);
    var batches := StreamedBatches(begin, id, lines, attempts);
    StreamInStep(begin, [], id, lines, attempts);
    assert [] + batches == batches;
    KeptFromContainer(batches, arrived, lines);
    RecordedTracesAreAccepted(events, id);
    ChainIsStored(batches, arrived, id, lines);
    ContainerLogsFollowTraces(events, id);
  }
}
