/**
  The runner's log streamer. It reads the container's log from the start on every
  (re)connection, skips lines with a local clock, and submits batches; the server
  inserts them over a unique index. A line is read again after a reconnection, and
  the last one is sent again: the index absorbs it as long as its timestamp is the
  same. Meanwhile others write to the same table.
 */
module LogStreaming {
  import opened Wrappers
  import opened Executions
  import opened Repositories

  /** A line of the container's log, with the timestamp parsed from it, if that succeeds. */
  datatype Line = Line(stamp: Option<int>, text: string)

  datatype Happening =
    | Arrive(now: int)        // the next line comes in; `now` is the runner's clock
    | Tick(delivered: bool)   // the ticker fires; does the submission reach the server?
    | Others(rows: seq<LogRow>)  // somebody else's rows are inserted

  datatype End =
    | Closed(delivered: bool)     // the log ends, the streamer reconnects
    | Cancelled(delivered: bool)  // the context is done
    | Unfinished                  // nothing more has happened yet

  datatype Attempt = ContainerNotFound | Unavailable | Stream(happenings: seq<Happening>, end: End)

  /** The timestamp given to a line that is read at a time. */
  function Stamp(line: Line, now: int): int {
    if line.stamp.Some? then line.stamp.value else now
  }

  /** The entry that `GetLogs` sends for the line at a position: its clock is the position. */
  function EntryFor(lines: seq<Line>, clock: nat, now: int): LogEntry
    requires clock < |lines|
  {
    LogEntry(Stamp(lines[clock], now), "container", lines[clock].text, clock)
  }

  /** An entry that may have been made of the line at a position, at some time. */
  ghost predicate Reads(e: LogEntry, lines: seq<Line>, clock: nat)
    requires clock < |lines|
  {
    && e.source == "container" && e.message == lines[clock].text && e.clock == clock
    && (lines[clock].stamp.Some? ==> e.timestamp == lines[clock].stamp.value)
  }

  /** Every line that is not empty has a timestamp. */
  ghost predicate Datable(lines: seq<Line>) {
    forall i :: 0 <= i < |lines| ==> lines[i].text == "" || lines[i].stamp.Some?
  }

  /** Lines that the server accepts: an empty message or a timestamp before 1970 is refused. */
  ghost predicate Storable(lines: seq<Line>) {
    forall i :: 0 <= i < |lines| ==> lines[i].text != "" && lines[i].stamp.Some? && lines[i].stamp.value > 0
  }

  /** The stored row of a line with a timestamp. */
  function RowFor(executionId: Id, lines: seq<Line>, clock: nat): LogRow
    requires clock < |lines|
  {
    LogRow(executionId, Stamp(lines[clock], 0), Container, clock, lines[clock].text)
  }

  /** Readings of consecutive lines from `first` on. */
  ghost predicate Consecutive(batch: seq<LogEntry>, lines: seq<Line>, first: nat) {
    && first + |batch| <= |lines|
    && (forall k :: 0 <= k < |batch| ==> Reads(batch[k], lines, first + k))
  }

  /** Consecutive stamped lines from `first` on, as rows. */
  ghost predicate ConsecutiveRows(batch: seq<LogRow>, executionId: Id, lines: seq<Line>, first: nat) {
    && first + |batch| <= |lines|
    && (forall k :: 0 <= k < |batch| ==> batch[k] == RowFor(executionId, lines, first + k))
  }

  /** A batch that the server accepts has no empty message, so its lines have timestamps. */
  lemma BatchRows(executionId: Id, lines: seq<Line>, batch: seq<LogEntry>, first: nat)
    requires Datable(lines) && Consecutive(batch, lines, first) && AcceptsTrace(batch)
    ensures ConsecutiveRows(TraceRows(executionId, batch), executionId, lines, first)
  {
    TraceAcceptedIffAllGood(batch);
    forall k | 0 <= k < |batch|
      ensures TraceRows(executionId, batch)[k] == RowFor(executionId, lines, first + k)
    {
      assert batch[k] in batch && Reads(batch[k], lines, first + k);
    }
  }

  /** The container rows of an execution, in insertion order. */
  function ContainerLogs(logs: seq<LogRow>, executionId: Id): seq<LogRow> {
    if logs == [] then
      []
    else
      var before := ContainerLogs(logs[..|logs| - 1], executionId);
      var last := logs[|logs| - 1];
      if last.executionId == executionId && last.source == Container then before + [last] else before
  }

  /** The rows are rows of stamped lines, in the order of the lines and none twice. */
  ghost predicate Faithful(rows: seq<LogRow>, executionId: Id, lines: seq<Line>) {
    && (forall i :: 0 <= i < |rows| ==>
          rows[i].clock < |lines| && rows[i] == RowFor(executionId, lines, rows[i].clock))
    && (forall i, j :: 0 <= i < j < |rows| ==> rows[i].clock < rows[j].clock)
  }

  /** Every row is from line `last` or before. */
  ghost predicate UpTo(rows: seq<LogRow>, last: int) {
    forall i :: 0 <= i < |rows| ==> rows[i].clock <= last
  }

  /** The rows are those of the first lines, with no gap. */
  ghost predicate NoGap(rows: seq<LogRow>) {
    forall i :: 0 <= i < |rows| ==> rows[i].clock == i
  }

  lemma {:induction false} ContainerLogsHaveKey(logs: seq<LogRow>, row: LogRow)
    requires row.source == Container
    ensures HasKey(logs, row.Key()) <==> HasKey(ContainerLogs(logs, row.executionId), row.Key())
  {
    if logs != [] {
      var before, last := logs[..|logs| - 1], logs[|logs| - 1];
      ContainerLogsHaveKey(before, row);
      var rows := ContainerLogs(before, row.executionId);
      if HasKey(before, row.Key()) {
        var i :| 0 <= i < |before| && before[i].Key() == row.Key();
        assert logs[i].Key() == row.Key();
        var j :| 0 <= j < |rows| && rows[j].Key() == row.Key();
        assert ContainerLogs(logs, row.executionId)[j].Key() == row.Key();
      } else if last.Key() == row.Key() {
        assert logs[|logs| - 1].Key() == row.Key();
        assert ContainerLogs(logs, row.executionId)[|rows|].Key() == row.Key();
      } else {
        forall j | 0 <= j < |ContainerLogs(logs, row.executionId)|
          ensures ContainerLogs(logs, row.executionId)[j].Key() != row.Key()
        {
          assert j < |rows| ==> rows[j].Key() != row.Key();
        }
        forall i | 0 <= i < |logs| ensures logs[i].Key() != row.Key() {
          assert i < |before| ==> before[i].Key() != row.Key();
        }
      }
    }
  }

  /** What is stored for a container does not depend on other rows of the table. */
  lemma InsertLogCommutes(logs: seq<LogRow>, row: LogRow)
    requires row.source == Container
    ensures ContainerLogs(InsertLog(logs, row), row.executionId) == InsertLog(ContainerLogs(logs, row.executionId), row)
  {
    ContainerLogsHaveKey(logs, row);
    assert (logs + [row])[..|logs|] == logs;
  }

  lemma {:induction false} InsertLogsCommute(logs: seq<LogRow>, executionId: Id, batch: seq<LogRow>)
    requires forall k :: 0 <= k < |batch| ==> batch[k].executionId == executionId && batch[k].source == Container
    ensures ContainerLogs(InsertLogs(logs, batch), executionId) == InsertLogs(ContainerLogs(logs, executionId), batch)
    decreases |batch|
  {
    if batch != [] {
      InsertLogCommutes(logs, batch[0]);
      InsertLogsCommute(InsertLog(logs, batch[0]), executionId, batch[1..]);
    }
  }

  /** Rows of other executions, and system rows, do not disturb those of the container. */
  lemma {:induction false} OtherRowsDoNotMatter(logs: seq<LogRow>, executionId: Id, batch: seq<LogRow>)
    requires forall k :: 0 <= k < |batch| ==> batch[k].executionId != executionId || batch[k].source == System
    ensures ContainerLogs(InsertLogs(logs, batch), executionId) == ContainerLogs(logs, executionId)
    decreases |batch|
  {
    if batch != [] {
      assert (logs + [batch[0]])[..|logs|] == logs;
      OtherRowsDoNotMatter(InsertLog(logs, batch[0]), executionId, batch[1..]);
    }
  }

  predicate EndsAt(rows: seq<LogRow>, clock: nat) {
    rows != [] && rows[|rows| - 1].clock == clock
  }

  /** Rows with clocks beyond those stored are all new. */
  lemma {:induction false} InsertFresh(rows: seq<LogRow>, batch: seq<LogRow>, first: nat)
    requires UpTo(rows, first - 1)
    requires forall k :: 0 <= k < |batch| ==> batch[k].clock == first + k
    ensures InsertLogs(rows, batch) == rows + batch
    decreases |batch|
  {
    if batch == [] {
      assert rows + batch == rows;
    } else {
      assert InsertLog(rows, batch[0]) == rows + [batch[0]];
      InsertFresh(rows + [batch[0]], batch[1..], first + 1);
      assert rows + [batch[0]] + batch[1..] == rows + batch;
    }
  }

  lemma AppendConsecutive(rows: seq<LogRow>, executionId: Id, lines: seq<Line>, first: nat, batch: seq<LogRow>)
    requires ConsecutiveRows(batch, executionId, lines, first)
    requires Faithful(rows, executionId, lines) && UpTo(rows, first - 1)
    ensures Faithful(rows + batch, executionId, lines) && UpTo(rows + batch, first + |batch| - 1)
  {
  }

  lemma RestIsConsecutive(batch: seq<LogRow>, executionId: Id, lines: seq<Line>, first: nat)
    requires batch != [] && ConsecutiveRows(batch, executionId, lines, first)
    ensures ConsecutiveRows(batch[1..], executionId, lines, first + 1)
  {
    forall k | 0 <= k < |batch| - 1 ensures batch[1..][k] == RowFor(executionId, lines, first + 1 + k) {
      assert batch[k + 1] == RowFor(executionId, lines, first + (k + 1));
    }
  }

  /** Inserting consecutive lines appends those that are not there yet: all, or all but the first. */
  lemma InsertConsecutive(rows: seq<LogRow>, executionId: Id, lines: seq<Line>, first: nat, batch: seq<LogRow>)
    requires batch != [] && ConsecutiveRows(batch, executionId, lines, first)
    requires Faithful(rows, executionId, lines) && (UpTo(rows, first - 1) || EndsAt(rows, first))
    ensures var more := rows + (if EndsAt(rows, first) then batch[1..] else batch);
            && InsertLogs(rows, batch) == more
            && Faithful(more, executionId, lines) && UpTo(more, first + |batch| - 1)
  {
    if EndsAt(rows, first) {
      assert rows[|rows| - 1] == RowFor(executionId, lines, first) == batch[0];
      assert InsertLog(rows, batch[0]) == rows;
      RestIsConsecutive(batch, executionId, lines, first);
      EndBoundsRows(rows, executionId, lines, first);
      InsertFresh(rows, batch[1..], first + 1);
      AppendConsecutive(rows, executionId, lines, first + 1, batch[1..]);
    } else {
      InsertFresh(rows, batch, first);
      AppendConsecutive(rows, executionId, lines, first, batch);
    }
  }

  lemma EndBoundsRows(rows: seq<LogRow>, executionId: Id, lines: seq<Line>, last: nat)
    requires Faithful(rows, executionId, lines) && EndsAt(rows, last)
    ensures UpTo(rows, last)
  {
    forall i | 0 <= i < |rows| ensures rows[i].clock <= last {
      assert i < |rows| - 1 ==> rows[i].clock < rows[|rows| - 1].clock;
    }
  }

  /* ----------------------------------------------------- stored and pending */

  /** The pending entries are the lines before `seen`, starting at or after the end of the stored rows. */
  ghost predicate PendingAfter(rows: seq<LogRow>, logs: seq<LogEntry>, seen: nat, lines: seq<Line>)
    requires logs != []
  {
    && Consecutive(logs, lines, logs[0].clock)
    && logs[0].clock + |logs| == seen
    && (UpTo(rows, logs[0].clock - 1) || EndsAt(rows, logs[0].clock))
  }

  /**
    The stored rows, then the pending entries, are lines in order; if nothing was
    lost they are the first `seen` lines, with no gap.
   */
  ghost predicate Synced(rows: seq<LogRow>, logs: seq<LogEntry>, seen: nat, lost: bool, executionId: Id,
                         lines: seq<Line>) {
    && Faithful(rows, executionId, lines)
    && UpTo(rows, seen - 1)
    && (logs != [] ==> PendingAfter(rows, logs, seen, lines))
    && (!lost ==> NoGap(rows) && (if logs == [] then |rows| == seen else logs[0].clock <= |rows|))
  }

  /** Storing the pending entries leaves nothing pending and no new gap. */
  lemma StorePending(stored: seq<LogRow>, logs: seq<LogEntry>, seen: nat, lost: bool, executionId: Id, lines: seq<Line>)
    requires Datable(lines) && AcceptsTrace(logs) && logs != []
    requires Synced(ContainerLogs(stored, executionId), logs, seen, lost, executionId, lines)
    ensures var rows := ContainerLogs(InsertLogs(stored, TraceRows(executionId, logs)), executionId);
            Synced(rows, [], seen, lost, executionId, lines)
  {
    var rows, batch, first := ContainerLogs(stored, executionId), TraceRows(executionId, logs), logs[0].clock;
    BatchRows(executionId, lines, logs, first);
    InsertLogsCommute(stored, executionId, batch);
    InsertConsecutive(rows, executionId, lines, first, batch);
    if !lost {
      AppendLeavesNoGap(rows, executionId, lines, first, batch);
    }
  }

  lemma AppendLeavesNoGap(rows: seq<LogRow>, executionId: Id, lines: seq<Line>, first: nat, batch: seq<LogRow>)
    requires batch != [] && ConsecutiveRows(batch, executionId, lines, first)
    requires NoGap(rows) && first <= |rows| && (UpTo(rows, first - 1) || EndsAt(rows, first))
    ensures var more := rows + (if EndsAt(rows, first) then batch[1..] else batch);
            NoGap(more) && |more| == first + |batch|
  {
    if EndsAt(rows, first) {
      RestIsConsecutive(batch, executionId, lines, first);
    } else {
      assert rows != [] ==> rows[|rows| - 1].clock == |rows| - 1;
    }
  }

  /** The last line seen, or the next one, continues what is stored and pending. */
  lemma AppendPending(rows: seq<LogRow>, logs: seq<LogEntry>, seen: nat, lost: bool, executionId: Id,
                      lines: seq<Line>, clock: nat, now: int)
    requires Synced(rows, logs, seen, lost, executionId, lines)
    requires seen - 1 <= clock <= seen && clock < |lines|
    requires logs != [] ==> clock == seen
    ensures Synced(rows, logs + [EntryFor(lines, clock, now)], clock + 1, lost, executionId, lines)
  {
    var more := logs + [EntryFor(lines, clock, now)];
    assert more[0].clock == if logs == [] then clock else logs[0].clock;
    WeakenUpTo(rows, seen - 1, clock);
    if logs == [] {
      LastOrBefore(rows, executionId, lines, clock);
    }
    assert Consecutive(more, lines, more[0].clock);
  }

  lemma WeakenUpTo(rows: seq<LogRow>, last: int, later: int)
    requires UpTo(rows, last) && last <= later
    ensures UpTo(rows, later)
  {
  }

  lemma LastOrBefore(rows: seq<LogRow>, executionId: Id, lines: seq<Line>, clock: nat)
    requires Faithful(rows, executionId, lines) && UpTo(rows, clock)
    ensures UpTo(rows, clock - 1) || EndsAt(rows, clock)
  {
    if !EndsAt(rows, clock) {
      forall i | 0 <= i < |rows| ensures rows[i].clock <= clock - 1 {
        assert i < |rows| - 1 ==> rows[i].clock < rows[|rows| - 1].clock;
      }
    }
  }

  lemma StorableIsAccepted(batch: seq<LogEntry>, lines: seq<Line>, first: nat)
    requires Storable(lines) && batch != [] && Consecutive(batch, lines, first)
    ensures AcceptsTrace(batch)
  {
    TraceAcceptedIffAllGood(batch);
  }

  // ---------------------------------------------------------------- what the streamer does

  /** The submission that an event makes, if any, reaches the server. */
  predicate Delivers(happening: Happening) {
    happening.Tick? ==> happening.delivered
  }

  predicate DeliversAll(attempt: Attempt) {
    attempt.Stream? ==>
      && (attempt.end.Unfinished? || attempt.end.delivered)
      && forall i :: 0 <= i < |attempt.happenings| ==> Delivers(attempt.happenings[i])
  }

  predicate AllDelivered(attempts: seq<Attempt>) {
    forall i :: 0 <= i < |attempts| ==> DeliversAll(attempts[i])
  }

  function Max(a: nat, b: nat): nat {
    if a <= b then b else a
  }

  /** How many lines come in, of a log of `total` lines. */
  function Arrivals(happenings: seq<Happening>, total: nat): (n: nat)
    ensures n <= total
  {
    if happenings == [] then 0
    else
      var n := Arrivals(happenings[..|happenings| - 1], total);
      if happenings[|happenings| - 1].Arrive? && n < total then n + 1 else n
  }

  /** The largest number of lines that one attempt reads, up to the attempt that ends the streaming. */
  function Seen(attempts: seq<Attempt>, total: nat): nat
    decreases |attempts|
  {
    if attempts == [] then 0
    else
      match attempts[0]
      case ContainerNotFound => 0
      case Unavailable => Seen(attempts[1..], total)
      case Stream(happenings, end) =>
        var n := Arrivals(happenings, total);
        if end.Closed? then Max(n, Seen(attempts[1..], total)) else n
  }

  /**
    The variables that the streaming goroutine keeps, and the server's log table; also,
    how many lines have been seen, and whether a submission was lost or refused.
   */
  datatype Streaming = Streaming(localClock: nat, logs: seq<LogEntry>, stored: seq<LogRow>, seen: nat, lost: bool)

  function Submitted(s: Streaming, executionId: Id, delivered: bool): Streaming {
    if s.logs == [] then s
    else if delivered && AcceptsTrace(s.logs) then
      s.(stored := InsertLogs(s.stored, TraceRows(executionId, s.logs)), logs := [])
    else s.(logs := [], lost := true)
  }

  function Received(s: Streaming, lines: seq<Line>, clock: nat, now: int): Streaming
    requires clock < |lines|
  {
    if clock < s.localClock then s
    else s.(logs := s.logs + [EntryFor(lines, clock, now)], localClock := clock, seen := clock + 1)
  }

  function Happened(s: Streaming, executionId: Id, lines: seq<Line>, clock: nat, happening: Happening): Streaming {
    match happening
    case Arrive(now) => if clock < |lines| then Received(s, lines, clock, now) else s
    case Tick(delivered) => Submitted(s, executionId, delivered)
    case Others(rows) => s.(stored := InsertLogs(s.stored, rows))
  }

  /** One connection: the container's log is read from its start. */
  function Followed(s: Streaming, executionId: Id, lines: seq<Line>, happenings: seq<Happening>): Streaming {
    if happenings == [] then s
    else
      var n := |happenings| - 1;
      Happened(Followed(s, executionId, lines, happenings[..n]), executionId, lines,
               Arrivals(happenings[..n], |lines|), happenings[n])
  }

  function Streamed(s: Streaming, executionId: Id, lines: seq<Line>, attempts: seq<Attempt>): Streaming
    decreases |attempts|
  {
    if attempts == [] then s
    else
      var begun := s.(logs := []);
      match attempts[0]
      case ContainerNotFound => begun
      case Unavailable => Streamed(begun, executionId, lines, attempts[1..])
      case Stream(happenings, end) =>
        var followed := Followed(begun, executionId, lines, happenings);
        match end
        case Closed(delivered) =>
          Streamed(Submitted(followed, executionId, delivered), executionId, lines, attempts[1..])
        case Cancelled(delivered) => Submitted(followed, executionId, delivered)
        case Unfinished => followed
  }

  class LogStreamer {
    const executionId: Id
    const lines: seq<Line>
    var localClock: nat
    var logs: seq<LogEntry>
    var stored: seq<LogRow>
    ghost var seen: nat
    ghost var lost: bool

    ghost function At(): Streaming
      reads this
    {
      Streaming(localClock, logs, stored, seen, lost)
    }

    constructor (executionId: Id, lines: seq<Line>, stored: seq<LogRow>)
      ensures At() == Streaming(0, [], stored, 0, false)
      ensures this.executionId == executionId && this.lines == lines
    {
      this.executionId, this.lines, this.stored := executionId, lines, stored;
      localClock, logs, seen, lost := 0, [], 0, false;
    }

    /** Submits what is pending, if anything, and forgets it whatever the outcome. */
    method SubmitLogs(delivered: bool)
      modifies this
      ensures At() == Submitted(old(At()), executionId, delivered)
    {
      if |logs| == 0 {
        return;
      }
      if delivered && AcceptsTrace(logs) {
        stored := InsertLogs(stored, TraceRows(executionId, logs));
      } else {
        lost := true;
      }
      logs := [];
    }

    /** Takes the next line, unless an earlier reading has gone beyond it. */
    method Receive(clock: nat, now: int)
      requires clock < |lines|
      modifies this
      ensures At() == Received(old(At()), lines, clock, now)
    {
      var e := EntryFor(lines, clock, now);
      if e.clock >= localClock {
        logs := logs + [e];
        localClock := e.clock;
        seen := clock + 1;
      }
    }

    /** The inner loop, over what happens while the log is open. */
    method Follow(happenings: seq<Happening>)
      modifies this
      ensures At() == Followed(old(At()), executionId, lines, happenings)
    {
      var clock := 0;
      for i := 0 to |happenings|
        invariant clock == Arrivals(happenings[..i], |lines|)
        invariant At() == Followed(old(At()), executionId, lines, happenings[..i])
      {
        assert happenings[..i + 1][..i] == happenings[..i];
        match happenings[i] {
          case Arrive(now) =>
            if clock < |lines| {
              Receive(clock, now);
              clock := clock + 1;
            }
          case Tick(delivered) =>
            SubmitLogs(delivered);
          case Others(rows) =>
            stored := InsertLogs(stored, rows);
        }
      }
      assert happenings[..|happenings|] == happenings;
    }

    /** The outer loop: one (re)connection after another. */
    method Run(attempts: seq<Attempt>)
      requires logs == []
      modifies this
      ensures At() == Streamed(old(At()), executionId, lines, attempts)
    {
      for i := 0 to |attempts|
        invariant logs == []
        invariant Streamed(At(), executionId, lines, attempts[i..]) == Streamed(old(At()), executionId, lines, attempts)
      {
        logs := [];
        assert attempts[i..][0] == attempts[i] && attempts[i..][1..] == attempts[i + 1..];
        match attempts[i] {
          case ContainerNotFound =>
            SubmitLogs(true);
            return;
          case Unavailable =>
          case Stream(happenings, end) =>
            Follow(happenings);
            match end {
              case Closed(delivered) =>
                SubmitLogs(delivered);
              case Cancelled(delivered) =>
                SubmitLogs(delivered);
                return;
              case Unfinished =>
                return;
            }
        }
      }
    }
  }

  // ---------------------------------------------------------------- what every step keeps

  /** Nobody else writes container rows of the execution. */
  ghost predicate Foreign(rows: seq<LogRow>, executionId: Id) {
    forall k :: 0 <= k < |rows| ==> rows[k].executionId != executionId || rows[k].source == System
  }

  ghost predicate ForeignHappenings(happenings: seq<Happening>, executionId: Id) {
    forall i :: 0 <= i < |happenings| && happenings[i].Others? ==> Foreign(happenings[i].rows, executionId)
  }

  ghost predicate OthersAreForeign(attempts: seq<Attempt>, executionId: Id) {
    forall i :: 0 <= i < |attempts| && attempts[i].Stream? ==> ForeignHappenings(attempts[i].happenings, executionId)
  }

  ghost predicate Valid(s: Streaming, executionId: Id, lines: seq<Line>) {
    && s.localClock == (if s.seen == 0 then 0 else s.seen - 1)
    && (Datable(lines) ==> Synced(ContainerLogs(s.stored, executionId), s.logs, s.seen, s.lost, executionId, lines))
  }

  /** So many lines have come in since the last (re)connection. */
  ghost predicate Reached(s: Streaming, n: nat) {
    n <= s.seen && (s.logs != [] ==> n == s.seen)
  }

  lemma SubmitKeeps(s: Streaming, executionId: Id, lines: seq<Line>, delivered: bool)
    requires Valid(s, executionId, lines)
    ensures Valid(Submitted(s, executionId, delivered), executionId, lines)
    ensures Submitted(s, executionId, delivered).logs == [] && Submitted(s, executionId, delivered).seen == s.seen
    ensures Storable(lines) && delivered ==> Submitted(s, executionId, delivered).lost == s.lost
  {
    if s.logs != [] && Datable(lines) {
      if Storable(lines) {
        StorableIsAccepted(s.logs, lines, s.logs[0].clock);
      }
      if AcceptsTrace(s.logs) {
        StorePending(s.stored, s.logs, s.seen, s.lost, executionId, lines);
      }
    }
  }

  lemma ReceiveKeeps(s: Streaming, executionId: Id, lines: seq<Line>, clock: nat, now: int)
    requires Valid(s, executionId, lines) && Reached(s, clock) && clock < |lines|
    ensures var t := Received(s, lines, clock, now);
      Valid(t, executionId, lines) && Reached(t, clock + 1) && t.seen == Max(s.seen, clock + 1) && t.lost == s.lost
  {
    if clock >= s.localClock && Datable(lines) {
      AppendPending(ContainerLogs(s.stored, executionId), s.logs, s.seen, s.lost, executionId, lines, clock, now);
    }
  }

  lemma {:induction false} FollowKeeps(s: Streaming, executionId: Id, lines: seq<Line>, happenings: seq<Happening>)
    requires Valid(s, executionId, lines) && s.logs == [] && ForeignHappenings(happenings, executionId)
    ensures var t, n := Followed(s, executionId, lines, happenings), Arrivals(happenings, |lines|);
      && Valid(t, executionId, lines) && Reached(t, n) && t.seen == Max(s.seen, n)
      && (Storable(lines) && (forall i :: 0 <= i < |happenings| ==> Delivers(happenings[i])) ==> t.lost == s.lost)
  {
    if happenings != [] {
      var before, last := happenings[..|happenings| - 1], happenings[|happenings| - 1];
      FollowKeeps(s, executionId, lines, before);
      var m, n := Followed(s, executionId, lines, before), Arrivals(before, |lines|);
      match last
      case Arrive(now) => if n < |lines| { ReceiveKeeps(m, executionId, lines, n, now); }
      case Tick(delivered) => SubmitKeeps(m, executionId, lines, delivered);
      case Others(rows) => OtherRowsDoNotMatter(m.stored, executionId, rows);
    }
  }

  lemma {:induction false} StreamKeeps(s: Streaming, executionId: Id, lines: seq<Line>, attempts: seq<Attempt>)
    requires Valid(s, executionId, lines) && s.logs == [] && OthersAreForeign(attempts, executionId)
    ensures var t := Streamed(s, executionId, lines, attempts);
      && Valid(t, executionId, lines) && t.seen == Max(s.seen, Seen(attempts, |lines|))
      && (Storable(lines) && AllDelivered(attempts) ==> t.lost == s.lost)
    decreases |attempts|
  {
    hide Followed, Submitted, Synced, Datable;
    if attempts != [] {
      assert OthersAreForeign(attempts[1..], executionId);
      assert AllDelivered(attempts) ==> DeliversAll(attempts[0]) && AllDelivered(attempts[1..]);
      match attempts[0]
      case ContainerNotFound =>
      case Unavailable => StreamKeeps(s, executionId, lines, attempts[1..]);
      case Stream(happenings, end) =>
        FollowKeeps(s, executionId, lines, happenings);
        var followed := Followed(s, executionId, lines, happenings);
        match end
        case Closed(delivered) =>
          SubmitKeeps(followed, executionId, lines, delivered);
          StreamKeeps(Submitted(followed, executionId, delivered), executionId, lines, attempts[1..]);
        case Cancelled(delivered) => SubmitKeeps(followed, executionId, lines, delivered);
        case Unfinished =>
    }
  }

  /**
    Main result, for any attempts cut anywhere, while others write their own rows.
    When no line is without a timestamp, unless it is empty, the stored rows of the
    container are lines of its log, in order, none of them twice, whatever is lost.
    When no message is empty and submissions are delivered, they are exactly the
    first lines, and every line seen is stored or still pending.
   */
  method StreamLogs(executionId: Id, lines: seq<Line>, attempts: seq<Attempt>, stored0: seq<LogRow>)
    returns (stored: seq<LogRow>, pending: seq<LogEntry>)
    requires ContainerLogs(stored0, executionId) == []
    ensures var s := Streamed(Streaming(0, [], stored0, 0, false), executionId, lines, attempts);
            stored == s.stored && pending == s.logs
    ensures OthersAreForeign(attempts, executionId) && Datable(lines) ==>
              Faithful(ContainerLogs(stored, executionId), executionId, lines)
    ensures OthersAreForeign(attempts, executionId) && Storable(lines) && AllDelivered(attempts) ==>
              && NoGap(ContainerLogs(stored, executionId))
              && (pending == [] ==> |ContainerLogs(stored, executionId)| == Seen(attempts, |lines|))
              && (pending != [] ==>
                    && Consecutive(pending, lines, pending[0].clock)
                    && pending[0].clock <= |ContainerLogs(stored, executionId)|
                    && pending[0].clock + |pending| == Seen(attempts, |lines|))
  {
    var streamer := new LogStreamer(executionId, lines, stored0);
    ghost var begin := streamer.At();
    streamer.Run(attempts);
    stored, pending := streamer.stored, streamer.logs;
    if OthersAreForeign(attempts, executionId) {
      StreamKeeps(begin, executionId, lines, attempts);
    }
  }

  // ---------------------------------------------------------------- lines without a timestamp

  /** No line is stored twice. */
  ghost predicate StoredOnce(rows: seq<LogRow>) {
    forall i, j :: 0 <= i < j < |rows| ==> rows[i].clock != rows[j].clock
  }

  /** The attempts, on a table without rows of the container, store no line twice. */
  ghost predicate StoresOnce(executionId: Id, lines: seq<Line>, attempts: seq<Attempt>, stored0: seq<LogRow>) {
    ContainerLogs(stored0, executionId) == [] && OthersAreForeign(attempts, executionId) ==>
      StoredOnce(ContainerLogs(Streamed(Streaming(0, [], stored0, 0, false), executionId, lines, attempts).stored,
                               executionId))
  }

  /** The first lines are read, each sent as soon as it is there. */
  function Reading(n: nat, now: int): seq<Happening> {
    if n == 0 then [] else Reading(n - 1, now) + [Arrive(now)] + [Tick(true)]
  }

  lemma {:induction false} ReadingArrives(n: nat, now: int, total: nat)
    requires n <= total
    ensures Arrivals(Reading(n, now), total) == n
    ensures forall i :: 0 <= i < |Reading(n, now)| ==> Delivers(Reading(n, now)[i]) && !Reading(n, now)[i].Others?
  {
    if n > 0 {
      ReadingArrives(n - 1, now, total);
      var before := Reading(n - 1, now);
      assert (before + [Arrive(now)] + [Tick(true)])[..|before| + 1] == before + [Arrive(now)];
      assert (before + [Arrive(now)])[..|before|] == before;
    }
  }

  lemma FollowedTwoMore(s: Streaming, executionId: Id, lines: seq<Line>, before: seq<Happening>, x: Happening,
                        y: Happening)
    ensures Arrivals(before + [x], |lines|) ==
              Arrivals(before, |lines|) + if x.Arrive? && Arrivals(before, |lines|) < |lines| then 1 else 0
    ensures Followed(s, executionId, lines, before + [x] + [y]) ==
              Happened(Happened(Followed(s, executionId, lines, before), executionId, lines,
                                Arrivals(before, |lines|), x),
                       executionId, lines, Arrivals(before + [x], |lines|), y)
  {
    assert (before + [x])[..|before|] == before;
    assert (before + [x] + [y])[..|before| + 1] == before + [x];
  }

  /** One line, read and sent. */
  lemma LineIsSent(s: Streaming, executionId: Id, lines: seq<Line>, clock: nat, now: int)
    requires s.logs == [] && clock < |lines|
    ensures var t := Happened(Happened(s, executionId, lines, clock, Arrive(now)), executionId, lines, clock + 1,
                              Tick(true));
      && t.logs == [] && s.stored <= t.stored && t.localClock == Max(s.localClock, clock)
      && (s.localClock <= clock && now > 0 && lines[clock].text != "" && lines[clock].stamp.None? ==>
            HasKey(t.stored, (executionId, now, Container, clock)))
  {
    if s.localClock <= clock {
      var e := EntryFor(lines, clock, now);
      assert s.logs + [e] == [e];
      if AcceptsTrace([e]) {
        var rows := TraceRows(executionId, [e]);
        assert rows == [TraceRow(executionId, e)];
        InsertedHasKey(s.stored, rows[0]);
        assert InsertLogs(s.stored, rows) == InsertLog(s.stored, rows[0]) by {
          assert rows[1..] == [];
        }
      }
      TraceAcceptedIffAllGood([e]);
    }
  }

  lemma InsertedHasKey(logs: seq<LogRow>, row: LogRow)
    ensures HasKey(InsertLog(logs, row), row.Key())
  {
    if !HasKey(logs, row.Key()) {
      assert InsertLog(logs, row)[|logs|].Key() == row.Key();
    }
  }

  lemma ReadingGrows(s: Streaming, executionId: Id, lines: seq<Line>, clock: nat, now: int)
    requires clock < |lines|
    ensures Followed(s, executionId, lines, Reading(clock + 1, now)) ==
            Happened(Happened(Followed(s, executionId, lines, Reading(clock, now)), executionId, lines, clock,
                              Arrive(now)),
                     executionId, lines, clock + 1, Tick(true))
  {
    ReadingArrives(clock, now, |lines|);
    FollowedTwoMore(s, executionId, lines, Reading(clock, now), Arrive(now), Tick(true));
  }

  /** Nothing is pending, what was stored still is, and no line beyond `last` was taken. */
  ghost predicate Quiet(s: Streaming, t: Streaming, last: nat) {
    t.logs == [] && s.stored <= t.stored && t.localClock <= last
  }

  lemma QuietLine(s: Streaming, m: Streaming, executionId: Id, lines: seq<Line>, clock: nat, now: int, last: nat)
    requires Quiet(s, m, last) && clock < |lines| && clock <= last
    ensures Quiet(s, Happened(Happened(m, executionId, lines, clock, Arrive(now)), executionId, lines, clock + 1,
                              Tick(true)), last)
  {
    LineIsSent(m, executionId, lines, clock, now);
  }

  lemma NothingRead(s: Streaming, executionId: Id, lines: seq<Line>, now: int, last: nat)
    requires s.logs == [] && s.localClock <= last
    ensures Quiet(s, Followed(s, executionId, lines, Reading(0, now)), last)
  {
  }

  /** Such a reading leaves nothing pending and keeps what is stored. */
  lemma {:induction false} ReadingKeeps(s: Streaming, executionId: Id, lines: seq<Line>, n: nat, now: int, last: nat)
    requires s.logs == [] && n <= |lines| && s.localClock <= last && n <= last + 1
    ensures Quiet(s, Followed(s, executionId, lines, Reading(n, now)), last)
    decreases n
  {
    hide Followed, Happened, Reading, Quiet;
    if n == 0 {
      NothingRead(s, executionId, lines, now, last);
    } else {
      ReadingKeeps(s, executionId, lines, n - 1, now, last);
      ReadingGrows(s, executionId, lines, n - 1, now);
      QuietLine(s, Followed(s, executionId, lines, Reading(n - 1, now)), executionId, lines, n - 1, now, last);
    }
  }

  /** And it stores a last line that has no timestamp, with the time of the reading. */
  lemma ReadingStores(s: Streaming, executionId: Id, lines: seq<Line>, clock: nat, now: int)
    requires s.logs == [] && s.localClock <= clock < |lines| && now > 0
    requires lines[clock].text != "" && lines[clock].stamp.None?
    ensures var t := Followed(s, executionId, lines, Reading(clock + 1, now));
      && t.logs == [] && s.stored <= t.stored && t.localClock == clock
      && HasKey(t.stored, (executionId, now, Container, clock))
  {
    hide Followed, Happened, Reading;
    ReadingKeeps(s, executionId, lines, clock, now, clock);
    ReadingGrows(s, executionId, lines, clock, now);
    LineIsSent(Followed(s, executionId, lines, Reading(clock, now)), executionId, lines, clock, now);
  }

  /** Two connections, at different times, that read the lines up to one. */
  function TwoReadings(clock: nat): seq<Attempt> {
    [Stream(Reading(clock + 1, 1), Closed(true)), Stream(Reading(clock + 1, 2), Unfinished)]
  }

  lemma TwoReadingsAreDelivered(executionId: Id, lines: seq<Line>, clock: nat)
    requires clock < |lines|
    ensures AllDelivered(TwoReadings(clock)) && OthersAreForeign(TwoReadings(clock), executionId)
  {
    ReadingArrives(clock + 1, 1, |lines|);
    ReadingArrives(clock + 1, 2, |lines|);
  }

  lemma TwoReadingsStream(s: Streaming, executionId: Id, lines: seq<Line>, clock: nat)
    requires s.logs == [] && Followed(s, executionId, lines, Reading(clock + 1, 1)).logs == []
    ensures Streamed(s, executionId, lines, TwoReadings(clock)) ==
            Followed(Followed(s, executionId, lines, Reading(clock + 1, 1)), executionId, lines, Reading(clock + 1, 2))
  {
    var attempts := TwoReadings(clock);
    assert attempts[1..] == [Stream(Reading(clock + 1, 2), Unfinished)];
  }

  /** A line that is not empty and has no timestamp is stored twice when it is read at two times. */
  lemma UndatedLineIsStoredTwice(executionId: Id, lines: seq<Line>, clock: nat)
    requires clock < |lines| && lines[clock].text != "" && lines[clock].stamp.None?
    ensures AllDelivered(TwoReadings(clock)) && !StoresOnce(executionId, lines, TwoReadings(clock), [])
  {
    var begin := Streaming(0, [], [], 0, false);
    TwoReadingsAreDelivered(executionId, lines, clock);
    ReadingStores(begin, executionId, lines, clock, 1);
    var once := Followed(begin, executionId, lines, Reading(clock + 1, 1));
    ReadingStores(once, executionId, lines, clock, 2);
    TwoReadingsStream(begin, executionId, lines, clock);
    var twice := Followed(once, executionId, lines, Reading(clock + 1, 2));
    assert HasKey(twice.stored, (executionId, 1, Container, clock)) by {
      var i :| 0 <= i < |once.stored| && once.stored[i].Key() == (executionId, 1, Container, clock);
      assert twice.stored[i] == once.stored[i];
    }
    TwoKeysAreTwoRows(twice.stored, executionId, clock);
  }

  lemma TwoKeysAreTwoRows(logs: seq<LogRow>, executionId: Id, clock: nat)
    requires HasKey(logs, (executionId, 1, Container, clock)) && HasKey(logs, (executionId, 2, Container, clock))
    ensures !StoredOnce(ContainerLogs(logs, executionId))
  {
    ContainerLogsHaveKey(logs, LogRow(executionId, 1, Container, clock, ""));
    ContainerLogsHaveKey(logs, LogRow(executionId, 2, Container, clock, ""));
    var rows := ContainerLogs(logs, executionId);
    var i :| 0 <= i < |rows| && rows[i].Key() == (executionId, 1, Container, clock);
    var j :| 0 <= j < |rows| && rows[j].Key() == (executionId, 2, Container, clock);
    assert i != j && rows[i].clock == rows[j].clock;
  }

  lemma DatableLinesAreStoredOnce(executionId: Id, lines: seq<Line>, attempts: seq<Attempt>, stored0: seq<LogRow>)
    requires Datable(lines)
    ensures StoresOnce(executionId, lines, attempts, stored0)
  {
    if ContainerLogs(stored0, executionId) == [] && OthersAreForeign(attempts, executionId) {
      StreamKeeps(Streaming(0, [], stored0, 0, false), executionId, lines, attempts);
    }
  }

  /** No attempts whatever store a line twice, if and only if every line that is not empty has a timestamp. */
  lemma LinesAreStoredOnceIff(executionId: Id, lines: seq<Line>)
    ensures (forall attempts, stored0 :: StoresOnce(executionId, lines, attempts, stored0)) <==> Datable(lines)
  {
    if Datable(lines) {
      forall attempts, stored0 ensures StoresOnce(executionId, lines, attempts, stored0) {
        DatableLinesAreStoredOnce(executionId, lines, attempts, stored0);
      }
    } else {
      var clock :| 0 <= clock < |lines| && lines[clock].text != "" && lines[clock].stamp.None?;
      UndatedLineIsStoredTwice(executionId, lines, clock);
    }
  }
}
