/**
  The container execution state machine. Docker's answers are an input; the
  observable behaviour is a timeline of the states reported to `onChange` and of
  the resources that the run opens and releases.
 */
module DockerExecutor {
  import opened Wrappers

  /** Execution states in their order of declaration. */
  datatype ExecState =
    | ProcessingRequest | PullingImage | ImagePulled | CreatingContainer | ContainerCreated
    | UploadingFiles | FilesUploaded | StartingContainer | ContainerStarted | ContainerRunning
    | ContainerFinished | DownloadingFiles | FilesDownloaded | Succeeded | Failed | Killed
  {
    function Rank(): nat {
      match this
      case ProcessingRequest => 0
      case PullingImage => 1
      case ImagePulled => 2
      case CreatingContainer => 3
      case ContainerCreated => 4
      case UploadingFiles => 5
      case FilesUploaded => 6
      case StartingContainer => 7
      case ContainerStarted => 8
      case ContainerRunning => 9
      case ContainerFinished => 10
      case DownloadingFiles => 11
      case FilesDownloaded => 12
      case Succeeded => 13
      case Failed => 14
      case Killed => 15
    }

    predicate Terminal() {
      Succeeded? || Failed? || Killed?
    }
  }

  datatype ErrorType = ImagePullFailed | FileUploadFailed | FileDownloadFailed | DockerDaemonError
  {
    function Text(): string {
      match this
      case ImagePullFailed => "image_pull_failed"
      case FileUploadFailed => "file_upload_failed"
      case FileDownloadFailed => "file_download_failed"
      case DockerDaemonError => "docker_daemon_error"
    }
  }

  /** The step of the run that went wrong. */
  datatype Problem =
    | PullingFailed(imageRef: string) | CreatingFailed | UploadingFailed
    | StartingFailed | WaitingFailed | DownloadingFailed
  {
    function Text(): string {
      match this
      case PullingFailed(imageRef) => "failed to pull image " + imageRef
      case CreatingFailed => "failed to create container"
      case UploadingFailed => "failed to upload files to container"
      case StartingFailed => "failed to start container"
      case WaitingFailed => "error waiting for container"
      case DownloadingFailed => "error downloading files"
    }
  }

  datatype ExecError = ExecError(kind: ErrorType, problem: Problem, containerId: string)
  {
    function Text(): (r: string)
      ensures r != ""
    {
      if containerId != "" then kind.Text() + " (container: " + containerId + "): " + problem.Text()
      else kind.Text() + ": " + problem.Text()
    }
  }

  /** What is known about a run; a zero time is `None`. */
  datatype Snapshot = Snapshot(
    state: ExecState,
    containerId: string,
    exitCode: int,
    startedAt: Option<int>,
    finishedAt: Option<int>,
    error: Option<ExecError>,
    outputs: bool)

  datatype Waited = Cancelled | WaitFailed | WaitEnded | Exited(code: int)
  datatype Download = NoOutputs | Outputs | DownloadFailed

  /** Docker's answers and the clock during one run. */
  datatype Docker = Docker(
    pulled: bool,
    created: Option<string>,
    uploaded: bool,
    startTime: int,
    started: bool,
    waited: Waited,
    finishTime: int,
    download: Download)

  datatype Event =
    | Emit(snapshot: Snapshot)
    | ContainerMade(id: string)
    | ReaderOpened
    | ReaderClosed
    | Removed(id: string)

  /** What has happened, growing at the end. */
  datatype Timeline = Start | Then(past: Timeline, event: Event)

  function Events(timeline: Timeline): seq<Event> {
    match timeline
    case Start => []
    case Then(past, event) => Events(past) + [event]
  }

  /** The snapshots passed to `onChange`, in order. */
  function Emissions(timeline: Timeline): seq<Snapshot> {
    match timeline
    case Start => []
    case Then(past, Emit(snapshot)) => Emissions(past) + [snapshot]
    case Then(past, _) => Emissions(past)
  }

  function Last<T>(s: seq<T>): T
    requires s != []
  {
    s[|s| - 1]
  }

  /** States strictly increase along the emissions. */
  ghost predicate Increasing(trace: seq<Snapshot>) {
    forall i, j :: 0 <= i < j < |trace| ==> trace[i].state.Rank() < trace[j].state.Rank()
  }

  /** What a snapshot says is repeated by every later one. */
  ghost predicate Keeps(x: Snapshot, y: Snapshot) {
    && (x.containerId != "" ==> y.containerId == x.containerId)
    && (x.exitCode != 0 ==> y.exitCode == x.exitCode)
    && (x.startedAt.Some? ==> y.startedAt == x.startedAt)
    && (x.finishedAt.Some? ==> y.finishedAt == x.finishedAt)
    && (x.error.Some? ==> y.error == x.error)
  }

  ghost predicate Cumulative(trace: seq<Snapshot>) {
    forall i, j :: 0 <= i <= j < |trace| ==> Keeps(trace[i], trace[j])
  }

  ghost predicate Reports(trace: seq<Snapshot>, state: ExecState) {
    exists i :: 0 <= i < |trace| && trace[i].state == state
  }

  /* -------------------------------------- what a run should say, by its answers */

  predicate Made(docker: Docker) {
    docker.pulled && docker.created.Some?
  }

  /** The container exists and has its inputs. */
  predicate Ready(docker: Docker, inputs: nat) {
    Made(docker) && (inputs > 0 ==> docker.uploaded)
  }

  predicate Starts(docker: Docker, inputs: nat) {
    Ready(docker, inputs) && docker.started
  }

  /** The container ended, and no exit code other than 0 was recorded. */
  predicate EndsWell(docker: Docker, inputs: nat) {
    Starts(docker, inputs) && (docker.waited == Exited(0) || docker.waited.WaitEnded?)
  }

  predicate Succeeds(docker: Docker, inputs: nat) {
    EndsWell(docker, inputs) && !docker.download.DownloadFailed?
  }

  predicate Opened(docker: Docker, inputs: nat) {
    Succeeds(docker, inputs) && docker.download.Outputs?
  }

  /** The error of the first step that went wrong. */
  function Diagnosis(imageRef: string, docker: Docker, inputs: nat): Option<ExecError> {
    if !docker.pulled then Some(ExecError(ImagePullFailed, PullingFailed(imageRef), ""))
    else if docker.created.None? then Some(ExecError(DockerDaemonError, CreatingFailed, ""))
    else if !Ready(docker, inputs) then Some(ExecError(FileUploadFailed, UploadingFailed, docker.created.value))
    else if !docker.started then Some(ExecError(DockerDaemonError, StartingFailed, docker.created.value))
    else if docker.waited.Cancelled? || docker.waited.WaitFailed? then
      Some(ExecError(DockerDaemonError, WaitingFailed, docker.created.value))
    else if EndsWell(docker, inputs) && docker.download.DownloadFailed? then
      Some(ExecError(FileDownloadFailed, DownloadingFailed, docker.created.value))
    else None
  }

  function FinalSnapshot(imageRef: string, docker: Docker, inputs: nat): Snapshot {
    var exited := Starts(docker, inputs) && docker.waited.Exited?;
    Snapshot(
      if Succeeds(docker, inputs) then Succeeded
      else if Starts(docker, inputs) && docker.waited.Cancelled? then Killed else Failed,
      if Made(docker) then docker.created.value else "",
      if exited then docker.waited.code else 0,
      if Ready(docker, inputs) then Some(docker.startTime) else None,
      if exited then Some(docker.finishTime) else None,
      Diagnosis(imageRef, docker, inputs),
      Opened(docker, inputs))
  }

  /** The states, other than the final one, that a run passes through. */
  predicate Passes(state: ExecState, docker: Docker, inputs: nat) {
    match state
    case ProcessingRequest | PullingImage => true
    case ImagePulled | CreatingContainer => docker.pulled
    case ContainerCreated => Made(docker)
    case UploadingFiles => Made(docker) && inputs > 0
    case FilesUploaded => Ready(docker, inputs) && inputs > 0
    case StartingContainer => Ready(docker, inputs)
    case ContainerStarted => Starts(docker, inputs)
    case ContainerFinished => Starts(docker, inputs) && docker.waited.Exited?
    case DownloadingFiles => EndsWell(docker, inputs)
    case FilesDownloaded => Succeeds(docker, inputs)
    case _ => false
  }

  /**
    The reports of a complete run. As states strictly increase, the two clauses on
    which states are reported fix the sequence of states.
   */
  ghost predicate CompleteRun(trace: seq<Snapshot>, imageRef: string, docker: Docker, inputs: nat) {
    && |trace| >= 3
    && trace[0].state == ProcessingRequest
    && Increasing(trace) && Cumulative(trace)
    && (forall i :: 0 <= i < |trace| ==> (trace[i].state.Terminal() <==> i == |trace| - 1))
    && Last(trace) == FinalSnapshot(imageRef, docker, inputs)
    && (forall state: ExecState :: !state.Terminal() ==> (Reports(trace, state) <==> Passes(state, docker, inputs)))
  }

  /* ------------------------------------------------- growing a trace by one */

  /** The states that a timeline has reported. */
  function Path(timeline: Timeline): seq<ExecState> {
    match timeline
    case Start => []
    case Then(past, Emit(snapshot)) => Path(past) + [snapshot.state]
    case Then(past, _) => Path(past)
  }

  lemma {:induction false} PathIsReports(timeline: Timeline)
    ensures |Path(timeline)| == |Emissions(timeline)|
    ensures forall i :: 0 <= i < |Path(timeline)| ==> Path(timeline)[i] == Emissions(timeline)[i].state
  {
    if timeline.Then? {
      PathIsReports(timeline.past);
    }
  }

  function LastReport(timeline: Timeline): Option<Snapshot> {
    match timeline
    case Start => None
    case Then(_, Emit(snapshot)) => Some(snapshot)
    case Then(past, _) => LastReport(past)
  }

  /** The reader over the outputs is open. */
  function ReaderOpen(timeline: Timeline): bool {
    match timeline
    case Start => false
    case Then(_, ReaderOpened) => true
    case Then(_, ReaderClosed) => false
    case Then(past, _) => ReaderOpen(past)
  }

  /** A run so far, described from one snapshot to the next; a reader that it shows is open. */
  ghost predicate Grown(timeline: Timeline) {
    match timeline
    case Start => true
    case Then(past, Emit(snapshot)) =>
      && Grown(past)
      && (snapshot.outputs ==> ReaderOpen(past))
      && (match LastReport(past)
          case None => snapshot.state == ProcessingRequest
          case Some(previous) => Follows(previous, snapshot))
    case Then(past, _) => Grown(past)
  }

  /** States only move forward, a terminal one is the last, and nothing known is forgotten. */
  ghost predicate Follows(previous: Snapshot, next: Snapshot) {
    && previous.state.Rank() < next.state.Rank()
    && !previous.state.Terminal()
    && Keeps(previous, next)
  }

  lemma {:induction false} LastReportIsLast(timeline: Timeline)
    ensures var trace := Emissions(timeline);
            LastReport(timeline) == if trace == [] then None else Some(Last(trace))
  {
    if timeline.Then? {
      LastReportIsLast(timeline.past);
    }
  }

  /** From neighbours to all pairs. */
  lemma {:induction false} PairIsOrdered(timeline: Timeline, i: nat, j: nat)
    requires Grown(timeline) && i < j < |Emissions(timeline)|
    ensures var x, y := Emissions(timeline)[i], Emissions(timeline)[j];
            x.state.Rank() < y.state.Rank() && Keeps(x, y) && !x.state.Terminal()
  {
    var n := |Emissions(timeline)| - 1;
    if j < n || !timeline.event.Emit? {
      PairIsOrdered(timeline.past, i, j);
    } else {
      LastReportIsLast(timeline.past);
      if i < n - 1 {
        PairIsOrdered(timeline.past, i, n - 1);
      }
    }
  }

  lemma GrownIsOrdered(timeline: Timeline)
    requires Grown(timeline)
    ensures var trace := Emissions(timeline);
            && Increasing(trace) && Cumulative(trace)
            && (forall i :: 0 <= i < |trace| - 1 ==> !trace[i].state.Terminal())
  {
    var trace := Emissions(timeline);
    forall i, j | 0 <= i < j < |trace|
      ensures trace[i].state.Rank() < trace[j].state.Rank() && Keeps(trace[i], trace[j])
    {
      PairIsOrdered(timeline, i, j);
    }
    forall i | 0 <= i < |trace| - 1 ensures !trace[i].state.Terminal() {
      PairIsOrdered(timeline, i, |trace| - 1);
    }
  }

  /* ------------------------------------------------------------ the executor */

  /** The effects on resources, in order. */
  function Effects(timeline: Timeline): seq<Event> {
    match timeline
    case Start => []
    case Then(past, Emit(_)) => Effects(past)
    case Then(past, event) => Effects(past) + [event]
  }

  /** The run so far, with the snapshot that was reported last. */
  ghost predicate At(timeline: Timeline, path: seq<ExecState>, execution: Snapshot) {
    Grown(timeline) && LastReport(timeline) == Some(execution) && Path(timeline) == path
  }

  /** Assigns the next snapshot and reports it. */
  method OnChange(timeline: Timeline, ghost path: seq<ExecState>, ghost previous: Snapshot, next: Snapshot)
    returns (t: Timeline, ghost longer: seq<ExecState>, execution: Snapshot)
    requires At(timeline, path, previous) && Follows(previous, next)
    requires next.outputs ==> ReaderOpen(timeline)
    ensures execution == next && At(t, longer, execution) && longer == path + [next.state]
    ensures Effects(t) == Effects(timeline) && ReaderOpen(t) == ReaderOpen(timeline)
  {
    t, longer, execution := Then(timeline, Emit(next)), path + [next.state], next;
  }

  function Fail(execution: Snapshot, state: ExecState, kind: ErrorType, problem: Problem): Snapshot {
    execution.(state := state, error := Some(ExecError(kind, problem, execution.containerId)))
  }

  /** What a run acquires, in order. */
  function Acquired(docker: Docker, inputs: nat): seq<Event> {
    if !Made(docker) then []
    else if Opened(docker, inputs) then [ContainerMade(docker.created.value), ReaderOpened]
    else [ContainerMade(docker.created.value)]
  }

  /** What it releases at the end: the last acquired first. */
  function Released(docker: Docker, inputs: nat): seq<Event> {
    if !Made(docker) then []
    else if Opened(docker, inputs) then [ReaderClosed, Removed(docker.created.value)]
    else [Removed(docker.created.value)]
  }

  /* The states that each part of a run reports. */

  function Provisioning(docker: Docker): seq<ExecState> {
    if !docker.pulled then [ProcessingRequest, PullingImage, Failed]
    else if docker.created.None? then [ProcessingRequest, PullingImage, ImagePulled, CreatingContainer, Failed]
    else [ProcessingRequest, PullingImage, ImagePulled, CreatingContainer, ContainerCreated]
  }

  function Launching(docker: Docker, inputs: nat): seq<ExecState> {
    var last := if docker.started then ContainerStarted else Failed;
    if inputs == 0 then [StartingContainer, last]
    else if docker.uploaded then [UploadingFiles, FilesUploaded, StartingContainer, last]
    else [UploadingFiles, Failed]
  }

  function Awaiting(docker: Docker): seq<ExecState> {
    match docker.waited
    case Cancelled => [Killed]
    case WaitFailed => [Failed]
    case WaitEnded => []
    case Exited(_) => [ContainerFinished]
  }

  function Collecting(docker: Docker, failed: bool): seq<ExecState> {
    if failed then [Failed]
    else if docker.download.DownloadFailed? then [DownloadingFiles, Failed]
    else [DownloadingFiles, FilesDownloaded, Succeeded]
  }

  function Itinerary(docker: Docker, inputs: nat): seq<ExecState> {
    var launching := Provisioning(docker) + Launching(docker, inputs);
    if !Made(docker) then Provisioning(docker)
    else if !Starts(docker, inputs) then launching
    else if docker.waited.Cancelled? || docker.waited.WaitFailed? then launching + Awaiting(docker)
    else launching + Awaiting(docker) + Collecting(docker, !EndsWell(docker, inputs))
  }

  lemma ProvisioningPasses(docker: Docker, state: ExecState)
    requires !state.Terminal()
    ensures state in Provisioning(docker) <==> state.Rank() <= ContainerCreated.Rank() && Passes(state, docker, 0)
  {
  }

  lemma LaunchingPasses(docker: Docker, inputs: nat, state: ExecState)
    requires !state.Terminal() && Made(docker)
    ensures state in Launching(docker, inputs) <==>
              ContainerCreated.Rank() < state.Rank() <= ContainerStarted.Rank() && Passes(state, docker, inputs)
  {
  }

  lemma ItineraryPasses(docker: Docker, inputs: nat, state: ExecState)
    requires !state.Terminal()
    ensures state in Itinerary(docker, inputs) <==> Passes(state, docker, inputs)
  {
    ProvisioningPasses(docker, state);
    if Made(docker) {
      LaunchingPasses(docker, inputs, state);
    }
  }

  lemma FinishedRunIsComplete(timeline: Timeline, imageRef: string, docker: Docker, inputs: nat)
    requires At(timeline, Itinerary(docker, inputs), FinalSnapshot(imageRef, docker, inputs))
    ensures CompleteRun(Emissions(timeline), imageRef, docker, inputs)
  {
    var trace := Emissions(timeline);
    GrownIsOrdered(timeline);
    LastReportIsLast(timeline);
    PathIsReports(timeline);
    forall state: ExecState | !state.Terminal() ensures Reports(trace, state) <==> Passes(state, docker, inputs) {
      ItineraryPasses(docker, inputs, state);
      if state in Path(timeline) {
        var i :| 0 <= i < |Path(timeline)| && Path(timeline)[i] == state;
        assert trace[i].state == state;
      }
      if Reports(trace, state) {
        var i :| 0 <= i < |trace| && trace[i].state == state;
        assert Path(timeline)[i] == state;
      }
    }
  }

  /** Pulls the image. */
  method Pull(imageRef: string, docker: Docker)
    returns (timeline: Timeline, ghost path: seq<ExecState>, execution: Snapshot)
    ensures At(timeline, path, execution)
    ensures execution ==
            Snapshot(if docker.pulled then ImagePulled else Failed, "", 0, None, None,
                     if docker.pulled then None else Diagnosis(imageRef, docker, 0), false)
    ensures path == [ProcessingRequest, PullingImage, execution.state]
    ensures Effects(timeline) == []
  {
    execution := Snapshot(ProcessingRequest, "", 0, None, None, None, false);
    timeline, path := Then(Start, Emit(execution)), [ProcessingRequest];

    timeline, path, execution := OnChange(timeline, path, execution, execution.(state := PullingImage));

    if !docker.pulled {
      timeline, path, execution := OnChange(timeline, path, execution,
                                            Fail(execution, Failed, ImagePullFailed, PullingFailed(imageRef)));
      return;
    }

    timeline, path, execution := OnChange(timeline, path, execution, execution.(state := ImagePulled));
  }

  /** Pulls the image and creates the container; `made` says that it exists. */
  method Provision(imageRef: string, docker: Docker)
    returns (timeline: Timeline, ghost path: seq<ExecState>, execution: Snapshot, made: bool)
    ensures At(timeline, path, execution)
    ensures made == Made(docker)
    ensures execution ==
            if made then Snapshot(ContainerCreated, docker.created.value, 0, None, None, None, false)
            else Snapshot(Failed, "", 0, None, None, Diagnosis(imageRef, docker, 0), false)
    ensures path == Provisioning(docker)
    ensures Effects(timeline) == if made then [ContainerMade(docker.created.value)] else []
  {
    made := false;
    timeline, path, execution := Pull(imageRef, docker);
    if !docker.pulled {
      return;
    }

    timeline, path, execution := OnChange(timeline, path, execution, execution.(state := CreatingContainer));

    if docker.created.None? {
      timeline, path, execution := OnChange(timeline, path, execution,
                                            Fail(execution, Failed, DockerDaemonError, CreatingFailed));
      return;
    }

    timeline, made := Then(timeline, ContainerMade(docker.created.value)), true;
    timeline, path, execution := OnChange(timeline, path, execution,
      execution.(containerId := docker.created.value, state := ContainerCreated));
  }

  /** Uploads the inputs, if there are any. */
  method Upload(inputs: nat, docker: Docker, timeline0: Timeline, ghost path0: seq<ExecState>, execution0: Snapshot)
    returns (timeline: Timeline, ghost path: seq<ExecState>, execution: Snapshot)
    requires At(timeline0, path0, execution0) && Made(docker)
    requires execution0 == Snapshot(ContainerCreated, docker.created.value, 0, None, None, None, false)
    ensures At(timeline, path, execution)
    ensures execution ==
            if inputs == 0 then execution0
            else if docker.uploaded then execution0.(state := FilesUploaded)
            else Fail(execution0, Failed, FileUploadFailed, UploadingFailed)
    ensures path == path0 + if inputs == 0 then [] else [UploadingFiles, execution.state]
    ensures Effects(timeline) == Effects(timeline0)
  {
    timeline, path, execution := timeline0, path0, execution0;
    if inputs > 0 {
      timeline, path, execution := OnChange(timeline, path, execution, execution.(state := UploadingFiles));

      if !docker.uploaded {
        timeline, path, execution := OnChange(timeline, path, execution,
                                              Fail(execution, Failed, FileUploadFailed, UploadingFailed));
        return;
      }

      timeline, path, execution := OnChange(timeline, path, execution, execution.(state := FilesUploaded));
    }
  }

  /** Uploads the inputs and starts the container. */
  method Launch(inputs: nat, docker: Docker, timeline0: Timeline, ghost path0: seq<ExecState>, execution0: Snapshot)
    returns (timeline: Timeline, ghost path: seq<ExecState>, execution: Snapshot, launched: bool)
    requires At(timeline0, path0, execution0) && Made(docker)
    requires execution0 == Snapshot(ContainerCreated, docker.created.value, 0, None, None, None, false)
    ensures At(timeline, path, execution)
    ensures launched == Starts(docker, inputs)
    ensures execution ==
            Snapshot(if launched then ContainerStarted else Failed, docker.created.value, 0,
                     if Ready(docker, inputs) then Some(docker.startTime) else None, None,
                     if launched then None else Diagnosis("", docker, inputs), false)
    ensures path == path0 + Launching(docker, inputs)
    ensures Effects(timeline) == Effects(timeline0)
  {
    launched := false;
    timeline, path, execution := Upload(inputs, docker, timeline0, path0, execution0);
    if execution.state.Failed? {
      return;
    }

    timeline, path, execution := OnChange(timeline, path, execution,
      execution.(startedAt := Some(docker.startTime), state := StartingContainer));

    if !docker.started {
      timeline, path, execution := OnChange(timeline, path, execution,
                                            Fail(execution, Failed, DockerDaemonError, StartingFailed));
      return;
    }

    timeline, path, execution := OnChange(timeline, path, execution, execution.(state := ContainerStarted));
    launched := true;
  }

  /**
    Waits for the container. When Docker closes the error channel without an
    error, the run goes on with no exit code and no finish time recorded.
   */
  method Await(docker: Docker, timeline0: Timeline, ghost path0: seq<ExecState>, execution0: Snapshot)
    returns (timeline: Timeline, ghost path: seq<ExecState>, execution: Snapshot, ended: bool)
    requires At(timeline0, path0, execution0)
    requires execution0.state == ContainerStarted && execution0.exitCode == 0
    requires execution0.finishedAt.None? && execution0.error.None? && !execution0.outputs
    ensures At(timeline, path, execution)
    ensures ended == (docker.waited.WaitEnded? || docker.waited.Exited?)
    ensures execution ==
            match docker.waited
            case Cancelled => Fail(execution0, Killed, DockerDaemonError, WaitingFailed)
            case WaitFailed => Fail(execution0, Failed, DockerDaemonError, WaitingFailed)
            case WaitEnded => execution0
            case Exited(code) =>
              execution0.(exitCode := code, finishedAt := Some(docker.finishTime), state := ContainerFinished)
    ensures path == path0 + Awaiting(docker)
    ensures Effects(timeline) == Effects(timeline0)
  {
    timeline, path, execution, ended := timeline0, path0, execution0, false;
    match docker.waited {
      case Cancelled =>
        timeline, path, execution := OnChange(timeline, path, execution,
                                              Fail(execution, Killed, DockerDaemonError, WaitingFailed));
        return;
      case WaitFailed =>
        timeline, path, execution := OnChange(timeline, path, execution,
                                              Fail(execution, Failed, DockerDaemonError, WaitingFailed));
        return;
      case WaitEnded =>
      case Exited(code) =>
        timeline, path, execution := OnChange(timeline, path, execution,
                                              execution.(exitCode := code, finishedAt := Some(docker.finishTime),
                                                         state := ContainerFinished));
    }
    ended := true;
  }

  /** Downloads the outputs of a container that ended well. */
  method Fetch(docker: Docker, timeline0: Timeline, ghost path0: seq<ExecState>, execution0: Snapshot)
    returns (timeline: Timeline, ghost path: seq<ExecState>, execution: Snapshot, hasReader: bool)
    requires At(timeline0, path0, execution0)
    requires execution0.state == ContainerStarted || execution0.state == ContainerFinished
    requires execution0.error.None? && !execution0.outputs
    ensures At(timeline, path, execution)
    ensures execution ==
            if docker.download.DownloadFailed? then Fail(execution0, Failed, FileDownloadFailed, DownloadingFailed)
            else execution0.(state := FilesDownloaded, outputs := hasReader)
    ensures path == path0 + [DownloadingFiles, if docker.download.DownloadFailed? then Failed else FilesDownloaded]
    ensures hasReader == docker.download.Outputs? && (hasReader ==> ReaderOpen(timeline))
    ensures Effects(timeline) == if hasReader then Effects(timeline0) + [ReaderOpened] else Effects(timeline0)
  {
    timeline, path, execution := OnChange(timeline0, path0, execution0, execution0.(state := DownloadingFiles));
    hasReader := docker.download.Outputs?;
    if docker.download.DownloadFailed? {
      timeline, path, execution := OnChange(timeline, path, execution,
                                            Fail(execution, Failed, FileDownloadFailed, DownloadingFailed));
      return;
    }
    if hasReader {
      timeline := Then(timeline, ReaderOpened);
    }
    timeline, path, execution := OnChange(timeline, path, execution,
                                          execution.(outputs := hasReader, state := FilesDownloaded));
  }

  /** Fetches the outputs unless the exit code says that the container failed, and reports the final state. */
  method Collect(docker: Docker, timeline0: Timeline, ghost path0: seq<ExecState>, execution0: Snapshot)
    returns (timeline: Timeline, ghost path: seq<ExecState>, execution: Snapshot, hasReader: bool)
    requires At(timeline0, path0, execution0)
    requires execution0.state == ContainerStarted || execution0.state == ContainerFinished
    requires execution0.error.None? && !execution0.outputs
    ensures At(timeline, path, execution)
    ensures execution ==
            if execution0.exitCode != 0 then execution0.(state := Failed)
            else if docker.download.DownloadFailed? then Fail(execution0, Failed, FileDownloadFailed, DownloadingFailed)
            else execution0.(state := Succeeded, outputs := hasReader)
    ensures path == path0 + Collecting(docker, execution0.exitCode != 0)
    ensures hasReader == (execution.state == Succeeded && docker.download.Outputs?)
    ensures Effects(timeline) == if hasReader then Effects(timeline0) + [ReaderOpened] else Effects(timeline0)
  {
    timeline, path, execution, hasReader := timeline0, path0, execution0, false;
    var failed := execution.exitCode != 0;
    if !failed {
      timeline, path, execution, hasReader := Fetch(docker, timeline, path, execution);
      if docker.download.DownloadFailed? {
        return;
      }
    }
    timeline, path, execution := OnChange(timeline, path, execution,
                                          execution.(state := if failed then Failed else Succeeded));
  }

  /**
    The body of `Execute`, part by part. Deferred releases are pushed in front of
    `deferred`, to run after the body in that order.
   */
  method Steps(imageRef: string, inputs: nat, docker: Docker)
    returns (timeline: Timeline, deferred: seq<Event>)
    ensures At(timeline, Itinerary(docker, inputs), FinalSnapshot(imageRef, docker, inputs))
    ensures Effects(timeline) == Acquired(docker, inputs)
    ensures deferred == Released(docker, inputs)
  {
    deferred := [];
    var execution, proceed;
    ghost var path;
    timeline, path, execution, proceed := Provision(imageRef, docker);
    if !proceed {
      return;
    }
    deferred := [Removed(docker.created.value)] + deferred;
    timeline, path, execution, proceed := Launch(inputs, docker, timeline, path, execution);
    if !proceed {
      return;
    }
    timeline, path, execution, proceed := Await(docker, timeline, path, execution);
    if !proceed {
      return;
    }
    var hasReader;
    timeline, path, execution, hasReader := Collect(docker, timeline, path, execution);
    if hasReader {
      deferred := [ReaderClosed] + deferred;
    }
  }

  /* ------------------------------------------------------- after the body */

  ghost predicate IsRelease(event: Event) {
    event.ReaderClosed? || event.Removed?
  }

  /** Releases come after everything that is reported, the reader before the container. */
  ghost predicate ReleasedAtTheEnd(timeline: Timeline, docker: Docker, inputs: nat) {
    var events := Events(timeline);
    var n := |events|;
    && (forall i :: 0 <= i < n ==> (events[i].Removed? <==> Made(docker) && i == n - 1))
    && (forall i :: 0 <= i < n ==> (events[i].ReaderClosed? <==> Opened(docker, inputs) && i == n - 2))
    && (Made(docker) ==> n > 0 && events[n - 1] == Removed(docker.created.value))
  }

  lemma {:induction false} EffectsAreEvents(timeline: Timeline, i: nat)
    requires i < |Events(timeline)| && !Events(timeline)[i].Emit?
    ensures Events(timeline)[i] in Effects(timeline)
  {
    var events := Events(timeline.past);
    if i < |events| {
      assert Events(timeline)[i] == events[i];
      EffectsAreEvents(timeline.past, i);
      assert Effects(timeline.past) <= Effects(timeline);
    } else {
      assert Effects(timeline)[|Effects(timeline.past)|] == timeline.event;
    }
  }

  /** Every snapshot that shows outputs is reported while their reader is open. */
  ghost predicate ShowsOpenReaders(timeline: Timeline) {
    match timeline
    case Start => true
    case Then(past, event) => ShowsOpenReaders(past) && (event.Emit? && event.snapshot.outputs ==> ReaderOpen(past))
  }

  lemma {:induction false} GrownShowsOpenReaders(timeline: Timeline)
    requires Grown(timeline)
    ensures ShowsOpenReaders(timeline)
  {
    if timeline.Then? {
      GrownShowsOpenReaders(timeline.past);
    }
  }

  /** Deferred releases put after a body that releases nothing come at the end. */
  lemma DeferredComeLast(body: Timeline, timeline: Timeline, docker: Docker, inputs: nat)
    requires Effects(body) == Acquired(docker, inputs)
    requires Events(timeline) == Events(body) + Released(docker, inputs)
    ensures ReleasedAtTheEnd(timeline, docker, inputs)
  {
    forall i | 0 <= i < |Events(body)| ensures !IsRelease(Events(body)[i]) {
      if !Events(body)[i].Emit? {
        EffectsAreEvents(body, i);
      }
    }
  }

  lemma {:induction false} EffectsHappened(timeline: Timeline, effect: Event)
    requires !effect.Emit?
    ensures effect in Effects(timeline) <==> effect in Events(timeline)
  {
    if timeline.Then? {
      EffectsHappened(timeline.past, effect);
    }
  }

  /** What a run acquires happens, and nothing else is acquired. */
  lemma AcquiredAreEvents(body: Timeline, timeline: Timeline, docker: Docker, inputs: nat)
    requires Effects(body) == Acquired(docker, inputs)
    requires Events(timeline) == Events(body) + Released(docker, inputs)
    ensures forall id :: ContainerMade(id) in Events(timeline) <==> docker.pulled && docker.created == Some(id)
    ensures ReaderOpened in Events(timeline) <==> Opened(docker, inputs)
  {
    EffectsHappened(body, ReaderOpened);
    forall id ensures ContainerMade(id) in Events(timeline) <==> docker.pulled && docker.created == Some(id) {
      EffectsHappened(body, ContainerMade(id));
    }
  }

  /** The deferred releases run after the body, in the order given. */
  function RunDeferred(body: Timeline, deferred: seq<Event>): Timeline
    decreases |deferred|
  {
    if deferred == [] then body else RunDeferred(Then(body, deferred[0]), deferred[1..])
  }

  lemma {:induction false} DeferredReportNothing(body: Timeline, deferred: seq<Event>)
    requires ShowsOpenReaders(body) && forall i :: 0 <= i < |deferred| ==> IsRelease(deferred[i])
    ensures Events(RunDeferred(body, deferred)) == Events(body) + deferred
    ensures Emissions(RunDeferred(body, deferred)) == Emissions(body)
    ensures ShowsOpenReaders(RunDeferred(body, deferred))
    decreases |deferred|
  {
    if deferred != [] {
      DeferredReportNothing(Then(body, deferred[0]), deferred[1..]);
      assert Events(body) + [deferred[0]] + deferred[1..] == Events(body) + deferred;
    }
  }

  /**
    `Execute`, with what it defers. For every combination of Docker's answers the
    reported states start at ProcessingRequest, strictly increase and end with one
    terminal state that says how the run went; a container is removed once if and
    only if one was created, after the last report; outputs are shown while their
    reader is open, and it is closed before the removal.
   */
  method Execute(imageRef: string, inputs: nat, docker: Docker) returns (timeline: Timeline)
    ensures CompleteRun(Emissions(timeline), imageRef, docker, inputs)
    ensures ReleasedAtTheEnd(timeline, docker, inputs)
    ensures ShowsOpenReaders(timeline)
    ensures forall id :: ContainerMade(id) in Events(timeline) <==>
              docker.pulled && docker.created == Some(id)
    ensures ReaderOpened in Events(timeline) <==>
              Last(Emissions(timeline)).state == Succeeded && docker.download == Outputs
  {
    var body, deferred := Steps(imageRef, inputs, docker);
    FinishedRunIsComplete(body, imageRef, docker, inputs);
    GrownShowsOpenReaders(body);
    timeline := RunDeferred(body, deferred);
    DeferredReportNothing(body, deferred);
    DeferredComeLast(body, timeline, docker, inputs);
    AcquiredAreEvents(body, timeline, docker, inputs);
  }

  // ---------------------------------------------------------------- what the last snapshot says

  /** A run succeeds iff every step did and no exit code but 0 was recorded. */
  lemma SucceedsIff(imageRef: string, docker: Docker, inputs: nat)
    ensures FinalSnapshot(imageRef, docker, inputs).state == Succeeded <==>
      && docker.pulled && docker.created.Some? && (inputs > 0 ==> docker.uploaded) && docker.started
      && (docker.waited == WaitEnded || docker.waited == Exited(0)) && docker.download != DownloadFailed
  {
  }

  /** It is killed iff it was cancelled while its container ran, and else it fails. */
  lemma KilledIff(imageRef: string, docker: Docker, inputs: nat)
    ensures FinalSnapshot(imageRef, docker, inputs).state == Killed <==>
      && docker.pulled && docker.created.Some? && (inputs > 0 ==> docker.uploaded) && docker.started
      && docker.waited == Cancelled
    ensures FinalSnapshot(imageRef, docker, inputs).state in {Succeeded, Killed, Failed}
  {
  }

  /** The container was started and its exit code was reported. */
  predicate EndedByItself(docker: Docker, inputs: nat) {
    && docker.pulled && docker.created.Some? && (inputs > 0 ==> docker.uploaded) && docker.started
    && docker.waited.Exited?
  }

  /** A run without error succeeded, or its container exited with another code, which is then told. */
  lemma NoErrorIff(imageRef: string, docker: Docker, inputs: nat)
    ensures var last := FinalSnapshot(imageRef, docker, inputs);
      && (last.error == None <==> last.state == Succeeded || last.exitCode != 0)
      && last.finishedAt == (if EndedByItself(docker, inputs) then Some(docker.finishTime) else None)
      && last.exitCode == (if EndedByItself(docker, inputs) then docker.waited.code else 0)
      && last.containerId == (if docker.pulled && docker.created.Some? then docker.created.value else "")
      && (last.startedAt == None || last.startedAt == Some(docker.startTime))
      && (last.startedAt == None <==> !docker.pulled || docker.created == None || (inputs > 0 && !docker.uploaded))
      && (last.outputs <==> last.state == Succeeded && docker.download == Outputs)
  {
  }

  /** The error told is that of the first step that went wrong. */
  lemma FirstErrorIsTold(imageRef: string, docker: Docker, inputs: nat)
    ensures var last := FinalSnapshot(imageRef, docker, inputs);
      && (!docker.pulled ==> last.error == Some(ExecError(ImagePullFailed, PullingFailed(imageRef), "")))
      && (docker.pulled && docker.created == None ==>
            last.error == Some(ExecError(DockerDaemonError, CreatingFailed, "")))
      && (docker.pulled && docker.created.Some? && inputs > 0 && !docker.uploaded ==>
            last.error == Some(ExecError(FileUploadFailed, UploadingFailed, docker.created.value)))
      && (docker.pulled && docker.created.Some? && (inputs > 0 ==> docker.uploaded) && !docker.started ==>
            last.error == Some(ExecError(DockerDaemonError, StartingFailed, docker.created.value)))
      && (docker.pulled && docker.created.Some? && (inputs > 0 ==> docker.uploaded) && docker.started ==>
            && (docker.waited == Cancelled || docker.waited == WaitFailed ==>
                  last.error == Some(ExecError(DockerDaemonError, WaitingFailed, docker.created.value)))
            && ((docker.waited == WaitEnded || docker.waited == Exited(0)) && docker.download == DownloadFailed ==>
                  last.error == Some(ExecError(FileDownloadFailed, DownloadingFailed, docker.created.value))))
  {
  }

  /** The texts by which a user learns what went wrong. */
  lemma ErrorTexts(imageRef: string, id: string)
    ensures ExecError(ImagePullFailed, PullingFailed(imageRef), "").Text()
         == "image_pull_failed" + ": " + ("failed to pull image " + imageRef)
    ensures ExecError(DockerDaemonError, CreatingFailed, "").Text()
         == "docker_daemon_error" + ": " + "failed to create container"
    ensures id != "" ==>
      && ExecError(FileUploadFailed, UploadingFailed, id).Text()
      == "file_upload_failed" + " (container: " + id + "): " + "failed to upload files to container"
      && ExecError(DockerDaemonError, StartingFailed, id).Text()
      == "docker_daemon_error" + " (container: " + id + "): " + "failed to start container"
      && ExecError(DockerDaemonError, WaitingFailed, id).Text()
      == "docker_daemon_error" + " (container: " + id + "): " + "error waiting for container"
      && ExecError(FileDownloadFailed, DownloadingFailed, id).Text()
      == "file_download_failed" + " (container: " + id + "): " + "error downloading files"
  {
  }
}
