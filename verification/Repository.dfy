/**
  The repository object that owns the tables, and the three runner handlers that
  change them through it. Outcomes of the random generator, of the clock and of
  the database (`selected`, `saved`, ...) are parameters.
 */
module Repositories {
  import opened Wrappers
  import opened Executions

  datatype Error = RecordNotFound | DatabaseError

  datatype LogEntry = LogEntry(timestamp: int, source: string, message: string, clock: nat)

  datatype Reply = Accepted(executionId: Id) | Invalid | NotFound | Internal

  function NewRow(id: Id, taskId: nat, userId: nat, parameters: string, now: Time, token: string): Execution {
    Execution(id, taskId, userId, now, parameters, "", Pending, None, "", token, None, None)
  }

  function Retarget(executionId: Id, rows: seq<LogRow>): (r: seq<LogRow>)
    ensures |r| == |rows|
    ensures forall i :: 0 <= i < |r| ==> r[i] == rows[i].(executionId := executionId)
  {
    seq(|rows|, i requires 0 <= i < |rows| => rows[i].(executionId := executionId))
  }

  lemma InsertLogKeys(logs: seq<LogRow>, row: LogRow)
    requires UniqueKeys(logs)
    ensures UniqueKeys(InsertLog(logs, row))
    ensures forall key :: HasKey(InsertLog(logs, row), key) <==> HasKey(logs, key) || key == row.Key()
  {
    var next := InsertLog(logs, row);
    forall key ensures HasKey(next, key) <==> HasKey(logs, key) || key == row.Key() {
      if HasKey(logs, key) {
        var i :| 0 <= i < |logs| && logs[i].Key() == key;
        assert next[i].Key() == key;
      }
      if key == row.Key() && next != logs {
        assert next[|logs|].Key() == key;
      }
    }
  }

  lemma KeysOfBatch(rows: seq<LogRow>, key: (Id, int, Source, nat))
    requires rows != []
    ensures HasKey(rows, key) <==> key == rows[0].Key() || HasKey(rows[1..], key)
  {
    if HasKey(rows[1..], key) {
      var i :| 0 <= i < |rows[1..]| && rows[1..][i].Key() == key;
      assert rows[i + 1].Key() == key;
    }
  }

  /** Inserting keeps the index unique, keeps every key, and adds the keys of the batch. */
  lemma {:induction false} InsertLogsKeys(logs: seq<LogRow>, rows: seq<LogRow>)
    requires UniqueKeys(logs)
    ensures UniqueKeys(InsertLogs(logs, rows))
    ensures forall key :: HasKey(InsertLogs(logs, rows), key) <==> HasKey(logs, key) || HasKey(rows, key)
    decreases |rows|
  {
    if rows != [] {
      InsertLogKeys(logs, rows[0]);
      InsertLogsKeys(InsertLog(logs, rows[0]), rows[1..]);
      forall key ensures HasKey(InsertLogs(logs, rows), key) <==> HasKey(logs, key) || HasKey(rows, key) {
        KeysOfBatch(rows, key);
      }
    }
  }

  class Repository {
    var executions: Table
    var logs: seq<LogRow>
    var files: seq<FileRow>

    ghost predicate Valid()
      reads this
    {
      WellFormed(executions) && TokensDiffer(executions) && UniqueKeys(logs)
    }

    constructor ()
      ensures Valid() && executions == [] && logs == [] && files == []
    {
      executions, logs, files := [], [], [];
    }

    /** Inserts a row with a token that no other row may have. */
    method Create(taskId: nat, userId: nat, parameters: string, now: Time, token: Option<string>, inserted: bool)
      returns (r: Result<Id, Error>)
      requires Valid()
      requires forall i :: 0 <= i < |executions| ==> executions[i].createdAt < now
      modifies this`executions
      ensures Valid()
      ensures r == if token.Some? && inserted && TokenFree(old(executions), |old(executions)|, token.value)
                   then Success(|old(executions)|) else Failure(DatabaseError)
      ensures executions ==
              if r.Failure? then old(executions)
              else old(executions) + [NewRow(|old(executions)|, taskId, userId, parameters, now, token.value)]
      ensures r.Success? ==>
                var row := executions[r.value];
                && row.id == r.value && row.taskId == taskId && row.userId == userId && row.createdAt == now
                && row.inputParameters == parameters && Some(row.runnerToken) == token
                && row.status == Pending && row.containerId == "" && row.exitCode == None && row.errorMessage == ""
                && row.startedAt == None && row.finishedAt == None
    {
      if token.None? {
        return Failure(DatabaseError);
      }
      var id := |executions|;
      if !inserted || !TokenFree(executions, id, token.value) {
        return Failure(DatabaseError);
      }
      executions := executions + [NewRow(id, taskId, userId, parameters, now, token.value)];
      r := Success(id);
    }

    /**
      Claims the oldest unclaimed execution in one transaction. A failure of the
      query, of the token generator or of the save rolls the transaction back; the
      save also fails when another row has the token.
     */
    method NextTask(selected: bool, now: Time, token: Option<string>, saved: bool) returns (r: Result<Execution, Error>)
      requires Valid()
      modifies this`executions
      ensures Valid()
      ensures r == Failure(RecordNotFound) <==>
              selected && forall i :: 0 <= i < |old(executions)| ==> old(executions)[i].Claimed()
      ensures r == Failure(DatabaseError) <==>
              !selected || (var found := OldestUnclaimed(old(executions));
                            && found.Some?
                            && (token.None? || !saved || !TokenFree(old(executions), found.value, token.value)))
      ensures r.Failure? ==> executions == old(executions)
      ensures r.Success? ==> token.Some? && OldestUnclaimed(old(executions)) == Some(r.value.id)
      ensures r.Success? ==>
                  var i := r.value.id;
                  && executions == old(executions)[i := r.value]
                  && r.value == ClaimRow(old(executions)[i], now, token.value)
                  && r.value == old(executions)[i].(startedAt := Some(now), runnerToken := token.value)
                  && forall j :: 0 <= j < |old(executions)| && !old(executions)[j].Claimed() ==>
                       old(executions)[i].createdAt <= old(executions)[j].createdAt
    {
      if !selected {
        return Failure(DatabaseError);
      }
      var found := OldestUnclaimed(executions);
      if found.None? {
        return Failure(RecordNotFound);
      }
      var execution := executions[found.value];
      execution := execution.(startedAt := Some(now));
      if token.None? {
        return Failure(DatabaseError);
      }
      execution := execution.(runnerToken := token.value);
      if !saved || !TokenFree(executions, execution.id, execution.runnerToken) {
        return Failure(DatabaseError);
      }
      executions := executions[execution.id := execution];
      r := Success(execution);
    }

    /** A save of the whole row, its token included. Rows are never deleted, so a loaded row still exists. */
    method Update(execution: Execution, saved: bool) returns (ok: bool)
      requires Valid()
      requires execution.id < |executions|
      requires executions[execution.id].createdAt == execution.createdAt
      modifies this`executions
      ensures Valid()
      ensures ok == (saved && TokenFree(old(executions), execution.id, execution.runnerToken))
      ensures executions == if ok then old(executions)[execution.id := execution] else old(executions)
    {
      ok := saved && TokenFree(executions, execution.id, execution.runnerToken);
      if ok {
        executions := executions[execution.id := execution];
      }
    }

    /** Inserts a batch; the database refuses an empty one. */
    method AddLog(executionId: Id, rows: seq<LogRow>, saved: bool) returns (ok: bool)
      requires Valid()
      modifies this`logs
      ensures Valid()
      ensures ok == (saved && rows != [])
      ensures logs == if ok then InsertLogs(old(logs), Retarget(executionId, rows)) else old(logs)
    {
      var retargeted: seq<LogRow> := [];
      for i := 0 to |rows|
        invariant retargeted == Retarget(executionId, rows[..i])
      {
        retargeted := retargeted + [rows[i].(executionId := executionId)];
      }
      assert rows[..|rows|] == rows;
      ok := saved && rows != [];
      if ok {
        InsertLogsKeys(logs, retargeted);
        logs := InsertLogs(logs, retargeted);
      }
    }

    method AddFile(executionId: Id, file: FileRow, saved: bool) returns (ok: bool)
      modifies this`files
      ensures ok == saved
      ensures files == old(files) + if saved then [file.(executionId := executionId)] else []
    {
      if saved {
        files := files + [file.(executionId := executionId)];
      }
      ok := saved;
    }

    /** Four columns of one row change. A row that waits goes on waiting: its start time stays null. */
    method SetCompleted(executionId: Id, exitCode: int, message: string, now: Time, saved: bool)
      requires Valid()
      modifies this`executions
      ensures Valid()
      ensures executions ==
              if saved && executionId < |old(executions)|
              then old(executions)[executionId := Completed(old(executions)[executionId], exitCode, message, now)]
              else old(executions)
      ensures saved && executionId < |executions| ==>
                executions[executionId] == old(executions)[executionId].(
                  exitCode := Some(exitCode), errorMessage := message, finishedAt := Some(now),
                  status := if exitCode == 0 && message == "" then Succeeded else Failed)
      ensures forall i :: 0 <= i < |executions| ==> executions[i].startedAt == old(executions)[i].startedAt
    {
      if saved && executionId < |executions| {
        executions := executions[executionId := Completed(executions[executionId], exitCode, message, now)];
      }
    }
  }

  class Handler {
    const store: Repository

    constructor (store: Repository)
      ensures this.store == store
    {
      this.store := store;
    }

    /** Assigns the fields that the request carries, one by one. */
    static method AssignFields(loaded: Execution, request: StatusRequest) returns (execution: Execution)
      ensures execution == Merge(loaded, request)
    {
      execution := loaded;
      execution := execution.(status := request.status);
      if request.containerId != "" {
        execution := execution.(containerId := request.containerId);
      }
      if request.exitCode.Some? {
        execution := execution.(exitCode := request.exitCode);
      }
      if request.error != "" {
        execution := execution.(errorMessage := request.error);
      }
      if request.startedAt.Some? {
        execution := execution.(startedAt := request.startedAt);
      }
      if request.finishedAt.Some? {
        execution := execution.(finishedAt := request.finishedAt);
      }
    }

    /** The newest execution of a task; `loaded` says whether the query succeeds. */
    method LoadExecution(taskId: nat, loaded: bool) returns (r: Result<Execution, Error>)
      ensures r == if !loaded then Failure(DatabaseError)
                   else match Newest(store.executions, taskId)
                        case None => Failure(RecordNotFound)
                        case Some(i) => Success(store.executions[i])
    {
      if !loaded {
        return Failure(DatabaseError);
      }
      var executions := GetByTaskID(store.executions, taskId, 1, 0);
      NewestIsFirstPage(store.executions, taskId);
      if |executions| == 0 {
        return Failure(RecordNotFound);
      }
      return Success(executions[0]);
    }

    /**
      Reads the newest execution of the task, assigns the fields that the request
      carries, saves the whole row, then adds a system log entry. Run without
      interruption it changes that one row, and exactly as `Merge` says.
     */
    method TaskStatus(taskId: nat, request: StatusRequest, loaded: bool, saved: bool, logged: bool)
      returns (reply: Reply)
      requires store.Valid()
      modifies store`executions, store`logs
      ensures store.Valid()
      ensures reply.Invalid? <==> !request.Valid()
      ensures reply.NotFound? <==> request.Valid() && loaded && Newest(old(store.executions), taskId).None?
      ensures reply.Internal? <==>
                request.Valid() && (!loaded || (Newest(old(store.executions), taskId).Some? && !saved))
      ensures !reply.Accepted? ==> store.executions == old(store.executions) && store.logs == old(store.logs)
      ensures reply.Accepted? ==>
                && Newest(old(store.executions), taskId) == Some(reply.executionId)
                && var i := reply.executionId;
                   && store.executions == old(store.executions)[i := Merge(old(store.executions)[i], request)]
                   && store.logs == InsertLogs(old(store.logs), if logged then [StatusLog(i, request)] else [])
    {
      if !request.Valid() {
        return Invalid;
      }
      var found := LoadExecution(taskId, loaded);
      if found.Failure? {
        return if found.error.RecordNotFound? then NotFound else Internal;
      }
      var execution := AssignFields(found.value, request);
      var ok := store.Update(execution, saved);
      if !ok {
        return Internal;
      }
      var entry := StatusLog(execution.id, request);
      assert Retarget(execution.id, [entry]) == [entry];
      var _ := store.AddLog(execution.id, [entry], logged);
      reply := Accepted(execution.id);
    }

    /** Appends a batch of entries to the newest execution of the task. */
    method TaskTrace(taskId: nat, entries: seq<LogEntry>, loaded: bool, saved: bool) returns (reply: Reply)
      requires store.Valid()
      modifies store`logs
      ensures store.Valid()
      ensures reply.Invalid? <==> !AcceptsTrace(entries)
      ensures reply.NotFound? <==> AcceptsTrace(entries) && loaded && Newest(store.executions, taskId).None?
      ensures reply.Internal? <==> AcceptsTrace(entries) && !loaded
      ensures !reply.Accepted? ==> store.logs == old(store.logs)
      ensures reply.Accepted? ==>
                && Newest(store.executions, taskId) == Some(reply.executionId)
                && store.logs == if saved then InsertLogs(old(store.logs), TraceRows(reply.executionId, entries))
                                 else old(store.logs)
    {
      if !AcceptsTrace(entries) {
        return Invalid;
      }
      var found := LoadExecution(taskId, loaded);
      if found.Failure? {
        return if found.error.RecordNotFound? then NotFound else Internal;
      }
      var execution := found.value;
      var rows: seq<LogRow> := [];
      for i := 0 to |entries|
        invariant rows == TraceRows(execution.id, entries[..i])
      {
        assert entries[..i + 1] == entries[..i] + [entries[i]];
        rows := rows + [TraceRow(execution.id, entries[i])];
      }
      assert entries[..|entries|] == entries;
      assert Retarget(execution.id, rows) == rows;
      var _ := store.AddLog(execution.id, rows, saved);
      reply := Accepted(execution.id);
    }

    /**
      Stores output files, part by part, under the newest execution of the task. A
      part that fails is skipped. The parts come in whatever order the request
      yields them; `malformed` says that its body is no multipart form.
     */
    method TaskOutputs(taskId: nat, malformed: bool, parts: seq<Part>, loaded: bool)
      returns (reply: Reply, filesStored: nat)
      requires store.Valid()
      modifies store`files
      ensures reply.Invalid? <==> malformed
      ensures reply.NotFound? <==> !malformed && loaded && Newest(store.executions, taskId).None?
      ensures reply.Internal? <==> !malformed && !loaded
      ensures !reply.Accepted? ==> store.files == old(store.files) && filesStored == 0
      ensures reply.Accepted? ==>
                && Newest(store.executions, taskId) == Some(reply.executionId)
                && FilesOf(store.files, reply.executionId)
                == FilesOf(old(store.files), reply.executionId) + StoredFiles(reply.executionId, parts)
                && filesStored == |StoredFiles(reply.executionId, parts)|
      ensures forall other :: !reply.Accepted? || other != reply.executionId ==>
                FilesOf(store.files, other) == FilesOf(old(store.files), other)
    {
      filesStored := 0;
      if malformed {
        return Invalid, 0;
      }
      var found := LoadExecution(taskId, loaded);
      if found.Failure? {
        return if found.error.RecordNotFound? then NotFound else Internal, 0;
      }
      var execution := found.value;
      for i := 0 to |parts|
        invariant store.files == old(store.files) + StoredFiles(execution.id, parts[..i])
        invariant filesStored == |StoredFiles(execution.id, parts[..i])|
      {
        assert parts[..i + 1][..i] == parts[..i];
        if !parts[i].readable || !parts[i].written {
          continue;
        }
        var ok := store.AddFile(execution.id, FileRow(execution.id, parts[i].filename, parts[i].content, true),
                                parts[i].recorded);
        if ok {
          filesStored := filesStored + 1;
        }
      }
      assert parts[..|parts|] == parts;
      forall id ensures FilesOf(store.files, id)
                     == FilesOf(old(store.files), id) + if id == execution.id then StoredFiles(id, parts) else []
      {
        FilesOfConcat(old(store.files), StoredFiles(execution.id, parts), id);
        StoredFilesAreOf(execution.id, parts, id);
      }
      reply := Accepted(execution.id);
    }
  }

  /* ------------------------------------------------------------ output files */

  /** A file of an upload, and whether it can be opened, written to the storage and recorded. */
  datatype Part = Part(filename: string, content: string, readable: bool, written: bool, recorded: bool)

  /** The rows of the parts that do not fail. */
  function StoredFiles(executionId: Id, parts: seq<Part>): seq<FileRow> {
    if parts == [] then
      []
    else
      var before, last := StoredFiles(executionId, parts[..|parts| - 1]), parts[|parts| - 1];
      if last.readable && last.written && last.recorded
      then before + [FileRow(executionId, last.filename, last.content, true)]
      else before
  }

  /** A part becomes an output file of its name and content iff it can be opened, written and recorded. */
  lemma {:induction false} StoredFilesSay(executionId: Id, parts: seq<Part>, row: FileRow)
    ensures row in StoredFiles(executionId, parts) <==>
      && row.executionId == executionId && row.isOutput
      && exists k :: 0 <= k < |parts|
           && parts[k].readable && parts[k].written && parts[k].recorded
           && parts[k].filename == row.filename && parts[k].content == row.content
  {
    if parts != [] {
      var n := |parts| - 1;
      StoredFilesSay(executionId, parts[..n], row);
      assert forall k :: 0 <= k < n ==> parts[..n][k] == parts[k];
    }
  }

  lemma {:induction false} StoredFilesAreOf(executionId: Id, parts: seq<Part>, id: Id)
    ensures FilesOf(StoredFiles(executionId, parts), id)
         == if id == executionId then StoredFiles(executionId, parts) else []
  {
    if parts != [] {
      StoredFilesAreOf(executionId, parts[..|parts| - 1], id);
      var before := StoredFiles(executionId, parts[..|parts| - 1]);
      var rows := StoredFiles(executionId, parts);
      assert rows != before ==> rows[..|rows| - 1] == before;
    }
  }

  /* ------------------------------------------------------- trace validation */

  datatype TraceError = LogsRequired | SourceRequired(i: nat) | SourceUnknown(i: nat)
                      | MessageRequired(i: nat) | TimestampRequired(i: nat)

  /** The first complaint of `TaskTraceRequest.Validate`, entry by entry. */
  function ValidateEntries(entries: seq<LogEntry>, i: nat): Option<TraceError>
    requires i <= |entries|
    decreases |entries| - i
  {
    if i == |entries| then None
    else if entries[i].source == "" then Some(SourceRequired(i))
    else if entries[i].source != "container" && entries[i].source != "system" then Some(SourceUnknown(i))
    else if entries[i].message == "" then Some(MessageRequired(i))
    else if entries[i].timestamp <= 0 then Some(TimestampRequired(i))
    else ValidateEntries(entries, i + 1)
  }

  function ValidateTrace(entries: seq<LogEntry>): Option<TraceError> {
    if |entries| == 0 then Some(LogsRequired) else ValidateEntries(entries, 0)
  }

  predicate AcceptsTrace(entries: seq<LogEntry>) {
    ValidateTrace(entries).None?
  }

  predicate GoodEntry(entry: LogEntry) {
    entry.source in {"container", "system"} && entry.message != "" && entry.timestamp > 0
  }

  lemma {:induction false} EntriesAcceptedIffGood(entries: seq<LogEntry>, i: nat)
    requires i <= |entries|
    ensures ValidateEntries(entries, i).None? <==> forall j :: i <= j < |entries| ==> GoodEntry(entries[j])
    decreases |entries| - i
  {
    if i < |entries| {
      EntriesAcceptedIffGood(entries, i + 1);
    }
  }

  /** One bad entry is enough for the server to refuse a whole batch. */
  lemma TraceAcceptedIffAllGood(entries: seq<LogEntry>)
    ensures AcceptsTrace(entries) <==> entries != [] && forall entry :: entry in entries ==> GoodEntry(entry)
  {
    EntriesAcceptedIffGood(entries, 0);
    if AcceptsTrace(entries) {
      forall entry | entry in entries ensures GoodEntry(entry) {
        var j :| 0 <= j < |entries| && entries[j] == entry;
      }
    } else if entries != [] {
      var j :| 0 <= j < |entries| && !GoodEntry(entries[j]);
      assert entries[j] in entries;
    }
  }

  /** What is wrong with an entry, checks in order. */
  ghost predicate WrongWith(entry: LogEntry, complaint: TraceError) {
    match complaint
    case LogsRequired => false
    case SourceRequired(_) => entry.source == ""
    case SourceUnknown(_) => entry.source !in {"", "container", "system"}
    case MessageRequired(_) => entry.source in {"container", "system"} && entry.message == ""
    case TimestampRequired(_) =>
      entry.source in {"container", "system"} && entry.message != "" && entry.timestamp <= 0
  }

  /** The complaint is about the first bad entry, and about the first thing wrong with it. */
  lemma {:induction false} ComplaintIsFirst(entries: seq<LogEntry>, i: nat)
    requires i <= |entries| && ValidateEntries(entries, i).Some?
    ensures var complaint := ValidateEntries(entries, i).value;
      && !complaint.LogsRequired? && i <= complaint.i < |entries|
      && WrongWith(entries[complaint.i], complaint)
      && forall j :: i <= j < complaint.i ==> GoodEntry(entries[j])
    decreases |entries| - i
  {
    if GoodEntry(entries[i]) {
      ComplaintIsFirst(entries, i + 1);
    }
  }

  /** Every entry of an accepted batch becomes a row that says the same. */
  lemma TraceRowsSay(executionId: Id, entries: seq<LogEntry>, k: nat)
    requires AcceptsTrace(entries) && k < |entries|
    ensures var row := TraceRows(executionId, entries)[k];
      && row.executionId == executionId && row.timestamp == entries[k].timestamp
      && row.clock == entries[k].clock && row.message == entries[k].message
      && (row.source == Container <==> entries[k].source == "container")
      && (row.source == System <==> entries[k].source == "system")
  {
    TraceAcceptedIffAllGood(entries);
    assert entries[k] in entries;
  }

  function TraceRow(executionId: Id, entry: LogEntry): LogRow {
    LogRow(executionId, entry.timestamp, if entry.source == "container" then Container else System,
           entry.clock, entry.message)
  }

  function TraceRows(executionId: Id, entries: seq<LogEntry>): (rows: seq<LogRow>)
    ensures |rows| == |entries|
    ensures forall i :: 0 <= i < |rows| ==> rows[i] == TraceRow(executionId, entries[i])
  {
    seq(|entries|, i requires 0 <= i < |entries| => TraceRow(executionId, entries[i]))
  }
}
