/**
  From the executor's states to the status column: the runner's callback turns
  each snapshot into a status request, requests may be lost, and the server merges
  those that arrive into the row.
 */
module StatusUpdates {
  import opened Wrappers
  import opened Executions
  import Docker = DockerExecutor

  /** The position of a status in the order of the executor's states. */
  function Rank(status: Status): int {
    match status
    case Pending => 0
    case PullingImage => 1
    case ImagePulled => 2
    case CreatingContainer => 3
    case ContainerCreated => 4
    case UploadingFiles => 5
    case FilesUploaded => 6
    case StartingContainer => 7
    case ContainerStarted => 8
    case Running => 9
    case Finished => 10
    case DownloadingFiles => 11
    case FilesDownloaded => 12
    case Succeeded => 13
    case Failed => 14
    case Killed => 15
    case Other(_) => -1
  }

  /** Keeps the order of states and tells terminal ones from others. */
  function StatusOf(state: Docker.ExecState): (status: Status)
    ensures Rank(status) == state.Rank() && (status.Terminal() <==> state.Terminal()) && status.Text() != ""
  {
    match state
    case ProcessingRequest => Pending
    case PullingImage => PullingImage
    case ImagePulled => ImagePulled
    case CreatingContainer => CreatingContainer
    case ContainerCreated => ContainerCreated
    case UploadingFiles => UploadingFiles
    case FilesUploaded => FilesUploaded
    case StartingContainer => StartingContainer
    case ContainerStarted => ContainerStarted
    case ContainerRunning => Running
    case ContainerFinished => Finished
    case DownloadingFiles => DownloadingFiles
    case FilesDownloaded => FilesDownloaded
    case Succeeded => Succeeded
    case Failed => Failed
    case Killed => Killed
  }

  function ErrorText(error: Option<Docker.ExecError>): string {
    if error.Some? then error.value.Text() else ""
  }

  function RequestFor(e: Docker.Snapshot, now: Time): StatusRequest {
    StatusRequest(StatusOf(e.state), e.containerId, if e.exitCode != 0 then Some(e.exitCode) else None,
                  ErrorText(e.error), e.startedAt, e.finishedAt, now)
  }

  /** What the callback does after it has sent the update. */
  datatype Action = StreamLogs(containerId: string) | UploadOutputs | Nothing

  method Callback(e: Docker.Snapshot, now: Time) returns (request: StatusRequest, action: Action)
    ensures request == RequestFor(e, now) && request.Valid()
    ensures request.status == StatusOf(e.state) && request.timestamp == now
    ensures request.containerId == e.containerId
    ensures request.startedAt == e.startedAt && request.finishedAt == e.finishedAt
    ensures request.exitCode == if e.exitCode == 0 then None else Some(e.exitCode)
    ensures request.error == match e.error case None => "" case Some(error) => error.Text()
    ensures action == StreamLogs(e.containerId) <==> e.state.ContainerStarted?
    ensures action == UploadOutputs <==> e.state.FilesDownloaded? && e.outputs
  {
    request := StatusRequest(StatusOf(e.state), e.containerId, None, "", None, None, now);
    if e.startedAt.Some? {
      request := request.(startedAt := e.startedAt);
    }
    if e.finishedAt.Some? {
      request := request.(finishedAt := e.finishedAt);
    }
    if e.exitCode != 0 {
      request := request.(exitCode := Some(e.exitCode));
    }
    if e.error.Some? {
      request := request.(error := e.error.value.Text());
    }
    action := Nothing;
    match e.state {
      case ContainerStarted => action := StreamLogs(e.containerId);
      case FilesDownloaded =>
        if e.outputs {
          action := UploadOutputs;
        }
      case _ =>
    }
  }

  /** The update that a runner sends before it downloads the inputs. */
  function Opening(now: Time): StatusRequest {
    StatusRequest(PullingImage, "", None, "", Some(now), None, 0)
  }

  function DownloadFailure(error: string, now: Time): StatusRequest {
    StatusRequest(Failed, "", None, error, None, Some(now), 0)
  }

  /** The callback's requests for a trace; `clock` is the time of each. */
  function Requests(trace: seq<Docker.Snapshot>, clock: nat -> Time): (r: seq<StatusRequest>)
    ensures |r| == |trace|
    ensures forall i :: 0 <= i < |r| ==> r[i] == RequestFor(trace[i], clock(i))
  {
    seq(|trace|, i requires 0 <= i < |trace| => RequestFor(trace[i], clock(i)))
  }

  /**
    `executeTask` up to its last status update. `inputs` is the number of files
    downloaded, or the error that prevented it.
   */
  method ExecuteTask(imageRef: string, inputs: Result<nat, string>, docker: Docker.Docker, start: Time,
                     clock: nat -> Time)
    returns (requests: seq<StatusRequest>, ghost trace: seq<Docker.Snapshot>)
    ensures inputs.Success? ==>
              && Docker.CompleteRun(trace, imageRef, docker, inputs.value)
              && requests == [Opening(start)] + Requests(trace, clock)
    ensures inputs.Failure? ==> requests == [Opening(start), DownloadFailure(inputs.error, clock(0))]
    ensures |requests| >= 2 && requests[0].status == PullingImage && requests[0].startedAt == Some(start)
    ensures requests[0].containerId == "" && requests[0].exitCode == None && requests[0].error == ""
    ensures requests[0].finishedAt == None && requests[0].timestamp == 0
    ensures inputs.Failure? ==>
              && |requests| == 2
              && requests[1].status == Failed && requests[1].error == inputs.error
              && requests[1].finishedAt == Some(clock(0))
              && requests[1].containerId == "" && requests[1].exitCode == None && requests[1].startedAt == None
              && requests[1].timestamp == 0
  {
    requests, trace := [Opening(start)], [];
    if inputs.Failure? {
      requests := requests + [DownloadFailure(inputs.error, clock(0))];
      return;
    }
    var timeline := Docker.Execute(imageRef, inputs.value, docker);
    trace := Docker.Emissions(timeline);
    var updates := SendUpdates(Docker.Emissions(timeline), clock);
    requests := requests + updates;
  }

  /** The callback, called for each emission in turn. */
  method SendUpdates(trace: seq<Docker.Snapshot>, clock: nat -> Time) returns (requests: seq<StatusRequest>)
    ensures requests == Requests(trace, clock)
  {
    requests := [];
    for i := 0 to |trace|
      invariant |requests| == i
      invariant forall k :: 0 <= k < i ==> requests[k] == RequestFor(trace[k], clock(k))
    {
      var request, _ := Callback(trace[i], clock(i));
      requests := requests + [request];
    }
  }

  /* ------------------------------------------------------------ lost updates */

  /** The elements that arrive. */
  function Kept<T>(xs: seq<T>, arrived: seq<bool>): seq<T>
    requires |xs| == |arrived|
  {
    if xs == [] then []
    else Kept(xs[..|xs| - 1], arrived[..|xs| - 1]) + if arrived[|xs| - 1] then [xs[|xs| - 1]] else []
  }

  /** Elements that arrive keep their order: where the ones at i < j come from. */
  lemma {:induction false} KeptOrigins<T>(xs: seq<T>, arrived: seq<bool>, i: nat, j: nat) returns (p: nat, q: nat)
    requires |xs| == |arrived| && i < j < |Kept(xs, arrived)|
    ensures p < q < |xs| && arrived[p] && arrived[q]
    ensures Kept(xs, arrived)[i] == xs[p] && Kept(xs, arrived)[j] == xs[q]
  {
    var n := |xs| - 1;
    var before := Kept(xs[..n], arrived[..n]);
    if j < |before| {
      p, q := KeptOrigins(xs[..n], arrived[..n], i, j);
    } else {
      p := KeptOrigin(xs[..n], arrived[..n], i);
      q := n;
    }
  }

  lemma {:induction false} KeptOrigin<T>(xs: seq<T>, arrived: seq<bool>, i: nat) returns (p: nat)
    requires |xs| == |arrived| && i < |Kept(xs, arrived)|
    ensures p < |xs| && arrived[p] && Kept(xs, arrived)[i] == xs[p]
  {
    var n := |xs| - 1;
    if i < |Kept(xs[..n], arrived[..n])| {
      p := KeptOrigin(xs[..n], arrived[..n], i);
    } else {
      p := n;
    }
  }

  /** And where the ones at p < q go. */
  lemma {:induction false} KeptPlaces<T>(xs: seq<T>, arrived: seq<bool>, p: nat, q: nat) returns (i: nat, j: nat)
    requires |xs| == |arrived| && p < q < |xs| && arrived[p] && arrived[q]
    ensures i < j < |Kept(xs, arrived)|
    ensures Kept(xs, arrived)[i] == xs[p] && Kept(xs, arrived)[j] == xs[q]
  {
    var n := |xs| - 1;
    if q < n {
      i, j := KeptPlaces(xs[..n], arrived[..n], p, q);
    } else {
      i := KeptPlace(xs[..n], arrived[..n], p);
      j := |Kept(xs[..n], arrived[..n])|;
    }
  }

  lemma {:induction false} KeptPlace<T>(xs: seq<T>, arrived: seq<bool>, p: nat) returns (i: nat)
    requires |xs| == |arrived| && p < |xs| && arrived[p]
    ensures i < |Kept(xs, arrived)| && Kept(xs, arrived)[i] == xs[p]
  {
    var n := |xs| - 1;
    if p < n {
      i := KeptPlace(xs[..n], arrived[..n], p);
    } else {
      i := |Kept(xs[..n], arrived[..n])|;
    }
  }

  /* ------------------------------------------------------------- on the row */

  /** The row after each merge, the initial one first. */
  function History(row: Execution, requests: seq<StatusRequest>): (rows: seq<Execution>)
    ensures |rows| == |requests| + 1 && rows[0] == row
  {
    if requests == [] then [row]
    else
      var rows := History(row, requests[..|requests| - 1]);
      rows + [Merge(rows[|rows| - 1], requests[|requests| - 1])]
  }

  lemma {:induction false} HistoryStep(row: Execution, requests: seq<StatusRequest>, i: nat)
    requires i < |requests|
    ensures History(row, requests)[i + 1] == Merge(History(row, requests)[i], requests[i])
  {
    var n := |requests| - 1;
    if i < n {
      HistoryStep(row, requests[..n], i);
    }
  }

  /** Nothing that the row says is taken back; at most it is replaced. */
  ghost predicate NothingCleared(before: Execution, after: Execution) {
    && (before.containerId != "" ==> after.containerId != "")
    && (before.errorMessage != "" ==> after.errorMessage != "")
    && (before.exitCode.Some? ==> after.exitCode.Some?)
    && (before.startedAt.Some? ==> after.startedAt.Some?)
    && (before.finishedAt.Some? ==> after.finishedAt.Some?)
  }

  lemma {:induction false} HistoryClearsNothing(row: Execution, requests: seq<StatusRequest>, i: nat, j: nat)
    requires i <= j <= |requests|
    ensures NothingCleared(History(row, requests)[i], History(row, requests)[j])
    decreases j
  {
    if i < j {
      HistoryClearsNothing(row, requests, i, j - 1);
      HistoryStep(row, requests, j - 1);
    }
  }

  /** Statuses strictly advance and nothing follows a terminal one. */
  ghost predicate Advances(requests: seq<StatusRequest>) {
    forall i, j :: 0 <= i < j < |requests| ==>
      Rank(requests[i].status) < Rank(requests[j].status) && !requests[i].status.Terminal()
  }

  /** States strictly increase and nothing follows a terminal one. */
  ghost predicate Steady(trace: seq<Docker.Snapshot>) {
    forall i, j :: 0 <= i < j < |trace| ==>
      trace[i].state.Rank() < trace[j].state.Rank() && !trace[i].state.Terminal()
  }

  lemma CompleteRunIsSteady(trace: seq<Docker.Snapshot>, imageRef: string, docker: Docker.Docker, inputs: nat)
    requires Docker.CompleteRun(trace, imageRef, docker, inputs)
    ensures Steady(trace) && |trace| > 2
    ensures trace[0].state == Docker.ProcessingRequest && trace[1].state == Docker.PullingImage
  {
    assert Docker.Reports(trace, Docker.PullingImage);
    var i :| 0 <= i < |trace| && trace[i].state == Docker.PullingImage;
    assert i > 0 && trace[0].state.Rank() < trace[1].state.Rank() <= trace[i].state.Rank();
  }

  lemma SteadyUpdatesAdvance(trace: seq<Docker.Snapshot>, clock: nat -> Time, arrived: seq<bool>)
    requires Steady(trace) && |arrived| == |trace|
    ensures Advances(Kept(Requests(trace, clock), arrived))
  {
    var requests := Kept(Requests(trace, clock), arrived);
    forall i, j | 0 <= i < j < |requests|
      ensures Rank(requests[i].status) < Rank(requests[j].status) && !requests[i].status.Terminal()
    {
      var p, q := KeptOrigins(Requests(trace, clock), arrived, i, j);
      assert trace[p].state.Rank() < trace[q].state.Rank();
    }
  }

  /**
    Whichever callback updates are lost, the statuses that the row takes strictly
    advance in the executor's order, nothing follows a terminal status, and no
    field once set is cleared.
   */
  lemma StatusOnlyAdvances(row: Execution, trace: seq<Docker.Snapshot>, clock: nat -> Time, arrived: seq<bool>,
                           imageRef: string, docker: Docker.Docker, inputs: nat, i: nat, j: nat)
    requires Docker.CompleteRun(trace, imageRef, docker, inputs) && |arrived| == |trace|
    requires i < j <= |Kept(Requests(trace, clock), arrived)|
    ensures var rows := History(row, Kept(Requests(trace, clock), arrived));
            && (0 < i ==> Rank(rows[i].status) < Rank(rows[j].status) && !rows[i].status.Terminal())
            && NothingCleared(rows[i], rows[j])
  {
    var requests := Kept(Requests(trace, clock), arrived);
    HistoryClearsNothing(row, requests, i, j);
    CompleteRunIsSteady(trace, imageRef, docker, inputs);
    SteadyUpdatesAdvance(trace, clock, arrived);
    if 0 < i {
      AdvancesInHistory(row, requests, i, j);
    }
  }

  lemma AdvancesInHistory(row: Execution, requests: seq<StatusRequest>, i: nat, j: nat)
    requires Advances(requests) && 0 < i < j <= |requests|
    ensures var rows := History(row, requests);
      Rank(rows[i].status) < Rank(rows[j].status) && !rows[i].status.Terminal()
  {
    HistoryStep(row, requests, i - 1);
    HistoryStep(row, requests, j - 1);
  }

  /**
    The opening update breaks this: sent first, it says `pulling_image`, and the
    callback then starts over from `pending`. With it, statuses advance exactly
    when it is lost or the callback's first two updates are.
   */
  lemma OpeningAdvancesIff(trace: seq<Docker.Snapshot>, clock: nat -> Time, start: Time, arrived: seq<bool>,
                           imageRef: string, docker: Docker.Docker, inputs: nat)
    requires Docker.CompleteRun(trace, imageRef, docker, inputs) && |arrived| == |trace| + 1
    ensures Advances(Kept([Opening(start)] + Requests(trace, clock), arrived))
       <==> !arrived[0] || (!arrived[1] && !arrived[2])
  {
    CompleteRunIsSteady(trace, imageRef, docker, inputs);
    if !arrived[0] || (!arrived[1] && !arrived[2]) {
      OpeningAdvances(trace, clock, start, arrived);
    } else {
      var all := [Opening(start)] + Requests(trace, clock);
      var i, j := KeptPlaces(all, arrived, 0, if arrived[1] then 1 else 2);
      assert Rank(Kept(all, arrived)[i].status) >= Rank(Kept(all, arrived)[j].status);
    }
  }

  lemma OpeningAdvances(trace: seq<Docker.Snapshot>, clock: nat -> Time, start: Time, arrived: seq<bool>)
    requires Steady(trace) && |trace| > 2 && trace[1].state == Docker.PullingImage
    requires |arrived| == |trace| + 1 && (!arrived[0] || (!arrived[1] && !arrived[2]))
    ensures Advances(Kept([Opening(start)] + Requests(trace, clock), arrived))
  {
    var all := [Opening(start)] + Requests(trace, clock);
    var kept := Kept(all, arrived);
    forall i, j | 0 <= i < j < |kept|
      ensures Rank(kept[i].status) < Rank(kept[j].status) && !kept[i].status.Terminal()
    {
      var p, q := KeptOrigins(all, arrived, i, j);
      var x := if p == 0 then 1 else p - 1;
      assert trace[x].state.Rank() < trace[q - 1].state.Rank();
    }
  }

  /** The row says what a snapshot says, and otherwise what it said at first. */
  ghost predicate Agrees(row: Execution, initial: Execution, e: Docker.Snapshot) {
    && row.status == StatusOf(e.state)
    && row.containerId == (if e.containerId != "" then e.containerId else initial.containerId)
    && row.exitCode == (if e.exitCode != 0 then Some(e.exitCode) else initial.exitCode)
    && row.errorMessage == (if e.error.Some? then e.error.value.Text() else initial.errorMessage)
    && row.startedAt == (if e.startedAt.Some? then e.startedAt else initial.startedAt)
    && row.finishedAt == (if e.finishedAt.Some? then e.finishedAt else initial.finishedAt)
  }

  /** Fields that a snapshot leaves open have their first value. */
  ghost predicate Untouched(row: Execution, initial: Execution, e: Docker.Snapshot) {
    && (e.containerId == "" ==> row.containerId == initial.containerId)
    && (e.exitCode == 0 ==> row.exitCode == initial.exitCode)
    && (e.error.None? ==> row.errorMessage == initial.errorMessage)
    && (e.startedAt.None? ==> row.startedAt == initial.startedAt)
    && (e.finishedAt.None? ==> row.finishedAt == initial.finishedAt)
  }

  /** A merge of an earlier snapshot's update sets no field that the last snapshot leaves open. */
  lemma MergeSetsNoMore(row: Execution, initial: Execution, e: Docker.Snapshot, now: Time, last: Docker.Snapshot)
    requires Untouched(row, initial, last) && Docker.Keeps(e, last)
    ensures Untouched(Merge(row, RequestFor(e, now)), initial, last)
  {
  }

  lemma LastOfHistory(row: Execution, requests: seq<StatusRequest>, request: StatusRequest)
    ensures var before, after := History(row, requests), History(row, requests + [request]);
      after[|after| - 1] == Merge(before[|before| - 1], request)
  {
    assert (requests + [request])[..|requests|] == requests;
  }

  lemma RequestsButLast(trace: seq<Docker.Snapshot>, clock: nat -> Time, arrived: seq<bool>)
    requires trace != [] && |arrived| == |trace|
    ensures var n := |trace| - 1;
      var before := Kept(Requests(trace[..n], clock), arrived[..n]);
      Kept(Requests(trace, clock), arrived) == if arrived[n] then before + [RequestFor(trace[n], clock(n))] else before
  {
    var n := |trace| - 1;
    assert Requests(trace, clock)[..n] == Requests(trace[..n], clock);
    var before := Kept(Requests(trace[..n], clock), arrived[..n]);
    assert before + [] == before;
  }

  /** As snapshots are cumulative, what the last one leaves open no earlier one has set. */
  lemma {:induction false} EarlierUpdatesSetNoMore(row: Execution, trace: seq<Docker.Snapshot>, clock: nat -> Time,
                                                   arrived: seq<bool>, last: Docker.Snapshot)
    requires |arrived| == |trace|
    requires forall i :: 0 <= i < |trace| ==> Docker.Keeps(trace[i], last)
    ensures var rows := History(row, Kept(Requests(trace, clock), arrived));
            Untouched(rows[|rows| - 1], row, last)
  {
    hide Requests, Untouched, Docker.Keeps, RequestFor;
    if trace == [] {
      NothingArrived(row, trace, clock, arrived, last);
    } else {
      var n := |trace| - 1;
      EarlierUpdatesSetNoMore(row, trace[..n], clock, arrived[..n], last);
      RequestsButLast(trace, clock, arrived);
      var before := Kept(Requests(trace[..n], clock), arrived[..n]);
      if arrived[n] {
        LastOfHistory(row, before, RequestFor(trace[n], clock(n)));
        var rows := History(row, before);
        MergeSetsNoMore(rows[|rows| - 1], row, trace[n], clock(n), last);
      }
    }
  }

  lemma NothingArrived(row: Execution, trace: seq<Docker.Snapshot>, clock: nat -> Time, arrived: seq<bool>,
                       last: Docker.Snapshot)
    requires trace == [] && arrived == []
    ensures var rows := History(row, Kept(Requests(trace, clock), arrived));
            Untouched(rows[|rows| - 1], row, last)
  {
  }

  /**
    If the last update arrives, whatever else is lost, the row agrees with the
    executor's last snapshot.
   */
  lemma LastUpdateDecides(row: Execution, trace: seq<Docker.Snapshot>, clock: nat -> Time, arrived: seq<bool>,
                          imageRef: string, docker: Docker.Docker, inputs: nat)
    requires Docker.CompleteRun(trace, imageRef, docker, inputs) && |arrived| == |trace|
    requires arrived[|trace| - 1]
    ensures var rows := History(row, Kept(Requests(trace, clock), arrived));
            Agrees(rows[|rows| - 1], row, Docker.FinalSnapshot(imageRef, docker, inputs))
  {
    LastOfCumulativeDecides(row, trace, clock, arrived);
  }

  lemma LastOfCumulativeDecides(row: Execution, trace: seq<Docker.Snapshot>, clock: nat -> Time, arrived: seq<bool>)
    requires trace != [] && |arrived| == |trace| && arrived[|trace| - 1]
    requires Docker.Cumulative(trace)
    ensures var rows := History(row, Kept(Requests(trace, clock), arrived));
            Agrees(rows[|rows| - 1], row, trace[|trace| - 1])
  {
    var n := |trace| - 1;
    forall i | 0 <= i < n ensures Docker.Keeps(trace[..n][i], trace[n]) {
      assert Docker.Keeps(trace[i], trace[n]);
    }
    EarlierUpdatesSetNoMore(row, trace[..n], clock, arrived[..n], trace[n]);
    RequestsButLast(trace, clock, arrived);
    LastOfHistory(row, Kept(Requests(trace[..n], clock), arrived[..n]), RequestFor(trace[n], clock(n)));
  }

  /** When the inputs cannot be downloaded and both updates arrive, the row says when it started and how it failed. */
  lemma DownloadFailureIsShown(row: Execution, error: string, start: Time, finish: Time)
    ensures var rows := History(row, [Opening(start), DownloadFailure(error, finish)]);
      && |rows| == 3
      && rows[1] == row.(status := PullingImage, startedAt := Some(start))
      && rows[2] == row.(status := Failed, startedAt := Some(start), finishedAt := Some(finish),
                         errorMessage := if error != "" then error else row.errorMessage)
  {
    var opening, failure := Opening(start), DownloadFailure(error, finish);
    assert [opening, failure][..1] == [opening] && [opening][..0] == [];
    assert History(row, [opening]) == [row] + [Merge(row, opening)];
  }
}
