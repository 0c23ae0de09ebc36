/**
  The execution table of the server, its log and file tables, and the
  repository that reads and changes them.

  A table is a sequence of rows in insertion order. The row at index `i` has
  identifier `i` (the database counts from 1), and creation times increase along
  the sequence. A transaction is one step that either takes effect or leaves the
  tables as they were.
 */
module Executions {
  import opened Wrappers

  type Id = nat
  type Time = int

  /** A status is any text; the sixteen that the runner sends have a constructor. */
  datatype Status =
    | Pending | PullingImage | ImagePulled | CreatingContainer | ContainerCreated
    | UploadingFiles | FilesUploaded | StartingContainer | ContainerStarted
    | Running | Finished | DownloadingFiles | FilesDownloaded
    | Succeeded | Failed | Killed
    | Other(text: string)
  {
    predicate Terminal() {
      Succeeded? || Failed? || Killed?
    }

    function Text(): string {
      match this
      case Pending => "pending"
      case PullingImage => "pulling_image"
      case ImagePulled => "image_pulled"
      case CreatingContainer => "creating_container"
      case ContainerCreated => "container_created"
      case UploadingFiles => "uploading_files"
      case FilesUploaded => "files_uploaded"
      case StartingContainer => "starting_container"
      case ContainerStarted => "container_started"
      case Running => "running"
      case Finished => "finished"
      case DownloadingFiles => "downloading_files"
      case FilesDownloaded => "files_downloaded"
      case Succeeded => "succeeded"
      case Failed => "failed"
      case Killed => "killed"
      case Other(text) => text
    }
  }

  /** The status that a text names. */
  function StatusNamed(text: string): Status {
    if text == "pending" then Pending
    else if text == "pulling_image" then PullingImage
    else if text == "image_pulled" then ImagePulled
    else if text == "creating_container" then CreatingContainer
    else if text == "container_created" then ContainerCreated
    else if text == "uploading_files" then UploadingFiles
    else if text == "files_uploaded" then FilesUploaded
    else if text == "starting_container" then StartingContainer
    else if text == "container_started" then ContainerStarted
    else if text == "running" then Running
    else if text == "finished" then Finished
    else if text == "downloading_files" then DownloadingFiles
    else if text == "files_downloaded" then FilesDownloaded
    else if text == "succeeded" then Succeeded
    else if text == "failed" then Failed
    else if text == "killed" then Killed
    else Other(text)
  }

  /** A text is kept by the status that it names. */
  lemma TextTravels(text: string)
    ensures StatusNamed(text).Text() == text
  {
  }

  datatype Execution = Execution(
    id: Id,
    taskId: nat,
    userId: nat,
    createdAt: Time,
    inputParameters: string,
    containerId: string,
    status: Status,
    exitCode: Option<int>,
    errorMessage: string,
    runnerToken: string,
    startedAt: Option<Time>,
    finishedAt: Option<Time>)
  {
    predicate Claimed() {
      startedAt.Some?
    }
  }

  type Table = seq<Execution>

  ghost predicate WellFormed(table: Table) {
    && (forall i {:trigger table[i].id} :: 0 <= i < |table| ==> table[i].id == i)
    && (forall i, j :: 0 <= i < j < |table| ==> table[i].createdAt < table[j].createdAt)
  }

  /** The unique index on runner tokens lets row `id` take a token. */
  predicate TokenFree(table: Table, id: Id, token: string) {
    forall i :: 0 <= i < |table| && i != id ==> table[i].runnerToken != token
  }

  /** What that index keeps. */
  ghost predicate TokensDiffer(table: Table) {
    forall i, j :: 0 <= i < j < |table| ==> table[i].runnerToken != table[j].runnerToken
  }

  /* ---------------------------------------------------------------- queries */

  /** Identifiers of the rows that wait for a runner, oldest first. */
  function Unclaimed(table: Table): (ids: seq<Id>)
    ensures forall i :: i in ids <==> 0 <= i < |table| && !table[i].Claimed()
    ensures forall k, l :: 0 <= k < l < |ids| ==> ids[k] < ids[l]
  {
    if table == [] then
      []
    else
      var last := |table| - 1;
      var before := Unclaimed(table[..last]);
      assert forall k :: 0 <= k < |before| ==> before[k] in before;
      if table[last].Claimed() then before else before + [last]
  }

  /** The oldest row whose start time is null. */
  function OldestUnclaimed(table: Table): (r: Option<Id>)
    ensures r.None? <==> forall i :: 0 <= i < |table| ==> table[i].Claimed()
    ensures r.Some? ==> r.value < |table| && !table[r.value].Claimed()
    ensures r.Some? ==> forall i :: 0 <= i < r.value ==> table[i].Claimed()
  {
    if table == [] then
      None
    else
      var last := |table| - 1;
      var before := OldestUnclaimed(table[..last]);
      if before.Some? || table[last].Claimed() then
        assert before.Some? ==> forall i :: 0 <= i < before.value ==> table[..last][i].Claimed();
        before
      else
        Some(last)
  }

  /** The most recently created execution of a task. */
  function Newest(table: Table, taskId: nat): (r: Option<Id>)
    ensures r.None? <==> forall i :: 0 <= i < |table| ==> table[i].taskId != taskId
    ensures r.Some? ==> r.value < |table| && table[r.value].taskId == taskId
    ensures r.Some? ==> forall i :: r.value < i < |table| ==> table[i].taskId != taskId
  {
    if table == [] then
      None
    else if table[|table| - 1].taskId == taskId then
      Some(|table| - 1)
    else
      Newest(table[..|table| - 1], taskId)
  }

  /** Rows that satisfy a condition, newest first. */
  function Select(table: Table, keep: Execution -> bool): (rows: seq<Execution>)
    ensures forall row :: row in rows <==> row in table && keep(row)
  {
    if table == [] then
      []
    else
      var older := Select(table[..|table| - 1], keep);
      var row := table[|table| - 1];
      assert table == table[..|table| - 1] + [row];
      if keep(row) then [row] + older else older
  }

  /** LIMIT and OFFSET, each ignored unless positive. */
  function Page<T>(rows: seq<T>, limit: int, offset: int): seq<T> {
    var rest := if offset <= 0 then rows else if offset <= |rows| then rows[offset..] else [];
    if 0 < limit < |rest| then rest[..limit] else rest
  }

  function OfTask(taskId: nat): Execution -> bool {
    (row: Execution) => row.taskId == taskId
  }

  function GetByTaskID(table: Table, taskId: nat, limit: int, offset: int): seq<Execution> {
    Page(Select(table, OfTask(taskId)), limit, offset)
  }

  /** The row that the handlers load: a page of one, newest first. */
  lemma NewestIsFirstPage(table: Table, taskId: nat)
    ensures GetByTaskID(table, taskId, 1, 0)
         == match Newest(table, taskId) case None => [] case Some(i) => [table[i]]
  {
    SelectStartsWithNewest(table, taskId);
    var rows := Select(table, OfTask(taskId));
    if rows != [] {
      assert Page(rows, 1, 0) == [rows[0]];
    }
  }

  lemma {:induction false} SelectStartsWithNewest(table: Table, taskId: nat)
    ensures Newest(table, taskId).None? <==> Select(table, OfTask(taskId)) == []
    ensures Newest(table, taskId).Some? ==> Select(table, OfTask(taskId))[0] == table[Newest(table, taskId).value]
  {
    if table != [] {
      SelectStartsWithNewest(table[..|table| - 1], taskId);
    }
  }

  /* ---------------------------------------------------------------- updates */

  /** The body of a status request. */
  datatype StatusRequest = StatusRequest(
    status: Status,
    containerId: string,
    exitCode: Option<int>,
    error: string,
    startedAt: Option<Time>,
    finishedAt: Option<Time>,
    timestamp: int)
  {
    predicate Valid() {
      status.Text() != ""
    }
  }

  /** What `handleTaskStatus` makes of the row it loaded. */
  function Merge(row: Execution, request: StatusRequest): Execution {
    row.(
      status := request.status,
      containerId := if request.containerId != "" then request.containerId else row.containerId,
      exitCode := if request.exitCode.Some? then request.exitCode else row.exitCode,
      errorMessage := if request.error != "" then request.error else row.errorMessage,
      startedAt := if request.startedAt.Some? then request.startedAt else row.startedAt,
      finishedAt := if request.finishedAt.Some? then request.finishedAt else row.finishedAt)
  }

  /** The row says what the request carries. */
  lemma MergeSays(row: Execution, request: StatusRequest)
    ensures var merged := Merge(row, request);
      && merged.status == request.status
      && (request.containerId != "" ==> merged.containerId == request.containerId)
      && (request.exitCode.Some? ==> merged.exitCode == request.exitCode)
      && (request.error != "" ==> merged.errorMessage == request.error)
      && (request.startedAt.Some? ==> merged.startedAt == request.startedAt)
      && (request.finishedAt.Some? ==> merged.finishedAt == request.finishedAt)
  {
  }

  /** Two requests in turn, as one: a column that the later one carries is the later one's. */
  function Combined(first: StatusRequest, second: StatusRequest): StatusRequest {
    StatusRequest(
      second.status,
      if second.containerId != "" then second.containerId else first.containerId,
      if second.exitCode.Some? then second.exitCode else first.exitCode,
      if second.error != "" then second.error else first.error,
      if second.startedAt.Some? then second.startedAt else first.startedAt,
      if second.finishedAt.Some? then second.finishedAt else first.finishedAt,
      second.timestamp)
  }

  /** Merging two requests in turn is merging their combination. */
  lemma MergeComposes(row: Execution, first: StatusRequest, second: StatusRequest)
    ensures Merge(Merge(row, first), second) == Merge(row, Combined(first, second))
  {
  }

  /** Two rows differ at most in columns that the request carries. */
  predicate AgreeOutside(x: Execution, y: Execution, request: StatusRequest) {
    && (x.id, x.taskId, x.userId, x.createdAt) == (y.id, y.taskId, y.userId, y.createdAt)
    && (x.inputParameters, x.runnerToken) == (y.inputParameters, y.runnerToken)
    && (request.containerId == "" ==> x.containerId == y.containerId)
    && (request.exitCode.None? ==> x.exitCode == y.exitCode)
    && (request.error == "" ==> x.errorMessage == y.errorMessage)
    && (request.startedAt.None? ==> x.startedAt == y.startedAt)
    && (request.finishedAt.None? ==> x.finishedAt == y.finishedAt)
  }

  /** A merge replaces the columns that the request carries, the status among them, and keeps all others. */
  lemma MergeAgreesIff(x: Execution, y: Execution, request: StatusRequest)
    ensures Merge(x, request) == Merge(y, request) <==> AgreeOutside(x, y, request)
    ensures AgreeOutside(x, Merge(x, request), request)
  {
  }

  function ClaimRow(row: Execution, now: Time, token: string): Execution {
    row.(startedAt := Some(now), runnerToken := token)
  }

  function Completed(row: Execution, exitCode: int, message: string, now: Time): Execution {
    row.(
      exitCode := Some(exitCode),
      errorMessage := message,
      finishedAt := Some(now),
      status := if exitCode == 0 && message == "" then Succeeded else Failed)
  }

  /* ------------------------------------------------------------------- logs */

  datatype Source = Container | System

  datatype LogRow = LogRow(
    executionId: Id, timestamp: int, source: Source, clock: nat, message: string)
  {
    /** The columns of the unique index. */
    function Key(): (Id, int, Source, nat) {
      (executionId, timestamp, source, clock)
    }
  }

  datatype FileRow = FileRow(executionId: Id, filename: string, content: string, isOutput: bool)

  function FilesOf(files: seq<FileRow>, executionId: Id): seq<FileRow> {
    if files == [] then
      []
    else
      var before := FilesOf(files[..|files| - 1], executionId);
      var last := files[|files| - 1];
      if last.executionId == executionId then before + [last] else before
  }

  lemma {:induction false} FilesOfConcat(files: seq<FileRow>, more: seq<FileRow>, executionId: Id)
    ensures FilesOf(files + more, executionId) == FilesOf(files, executionId) + FilesOf(more, executionId)
    decreases |more|
  {
    if more == [] {
      assert files + more == files;
    } else {
      var last := |more| - 1;
      assert (files + more)[..|files + more| - 1] == files + more[..last];
      FilesOfConcat(files, more[..last], executionId);
    }
  }

  /** INSERT ... ON CONFLICT DO NOTHING over the unique index. */
  function InsertLog(logs: seq<LogRow>, row: LogRow): seq<LogRow> {
    if exists i :: 0 <= i < |logs| && logs[i].Key() == row.Key() then logs else logs + [row]
  }

  function InsertLogs(logs: seq<LogRow>, rows: seq<LogRow>): (r: seq<LogRow>)
    ensures logs <= r
    decreases |rows|
  {
    if rows == [] then logs else InsertLogs(InsertLog(logs, rows[0]), rows[1..])
  }

  /** A row is added unless another has its execution, timestamp, source and clock; nothing else happens. */
  lemma InsertLogAddsIff(logs: seq<LogRow>, row: LogRow)
    ensures InsertLog(logs, row) == logs || InsertLog(logs, row) == logs + [row]
    ensures InsertLog(logs, row) == logs <==>
      exists i :: 0 <= i < |logs|
        && logs[i].executionId == row.executionId && logs[i].timestamp == row.timestamp
        && logs[i].source == row.source && logs[i].clock == row.clock
  {
    if i :| 0 <= i < |logs| && logs[i].executionId == row.executionId && logs[i].timestamp == row.timestamp
            && logs[i].source == row.source && logs[i].clock == row.clock {
      assert logs[i].Key() == row.Key();
    }
  }

  ghost predicate UniqueKeys(logs: seq<LogRow>) {
    forall i, j :: 0 <= i < j < |logs| ==> logs[i].Key() != logs[j].Key()
  }

  ghost predicate HasKey(logs: seq<LogRow>, key: (Id, int, Source, nat)) {
    exists i :: 0 <= i < |logs| && logs[i].Key() == key
  }

  /** Log rows of one execution, in insertion order. */
  function LogsOf(logs: seq<LogRow>, executionId: Id): seq<LogRow> {
    if logs == [] then
      []
    else
      var before := LogsOf(logs[..|logs| - 1], executionId);
      var last := logs[|logs| - 1];
      if last.executionId == executionId then before + [last] else before
  }

  /** An unsigned 64-bit conversion of a signed integer. */
  function ToUint(x: int): nat {
    x % 0x1_0000_0000_0000_0000
  }

  function StatusLog(executionId: Id, request: StatusRequest): LogRow {
    LogRow(executionId, request.timestamp, System, ToUint(request.timestamp),
           "Status changed to: " + request.status.Text())
  }

  /** The entry for a status names it; its clock is the timestamp as an unsigned number of 64 bits. */
  lemma StatusLogSays(executionId: Id, request: StatusRequest)
    requires -0x8000_0000_0000_0000 <= request.timestamp < 0x8000_0000_0000_0000
    ensures var row := StatusLog(executionId, request);
      && row.executionId == executionId && row.timestamp == request.timestamp && row.source == System
      && row.message == "Status changed to: " + request.status.Text()
      && row.clock == if request.timestamp >= 0 then request.timestamp
                      else request.timestamp + 0x1_0000_0000_0000_0000
  {
  }
}
