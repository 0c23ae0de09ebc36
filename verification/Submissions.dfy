/**
  The submission of a task: an execution is created, then its input files are
  stored. A failure of the second step marks the execution as failed, but leaves
  it in the queue.
 */
module Submissions {
  import opened Wrappers
  import opened Executions
  import opened Repositories
  import Forms
  import Tasks

  /** Whether the file of an input can be written to the storage, and recorded. */
  datatype Storing = Storing(written: bool, recorded: bool)

  /** The first upload for an input, if there is one. */
  function Uploaded(input: Tasks.Input, files: Forms.Files): Option<Forms.Upload> {
    if input.name in files && files[input.name] != [] then Some(files[input.name][0]) else None
  }

  /** Why the file of an input cannot be stored, if so. */
  function InputProblem(input: Tasks.Input, files: Forms.Files, storing: Storing): Option<string> {
    if !input.kind.File? then None
    else
      match Uploaded(input, files)
      case None => if input.required then Some("required file not provided") else None
      case Some(upload) =>
        if upload.content.Failure? then Some("failed to open uploaded file")
        else if !storing.written then Some("failed to store input file")
        else None
  }

  /** The row of a stored input: it is named after the input, not after the upload. */
  function InputRow(executionId: Id, input: Tasks.Input, files: Forms.Files, storing: Storing): seq<FileRow> {
    if input.kind.File? && Uploaded(input, files).Some? && InputProblem(input, files, storing).None? && storing.recorded
    then [FileRow(executionId, input.name, Uploaded(input, files).value.content.value, false)]
    else []
  }

  function InputRows(executionId: Id, inputs: seq<Tasks.Input>, files: Forms.Files, storing: nat -> Storing)
    : seq<FileRow>
  {
    if inputs == [] then []
    else
      var n := |inputs| - 1;
      InputRows(executionId, inputs[..n], files, storing) + InputRow(executionId, inputs[n], files, storing(n))
  }

  /**
    An input can be stored iff it is no file, or optional and not uploaded, or its first
    upload can be read and written.
   */
  lemma NoProblemIff(input: Tasks.Input, files: Forms.Files, storing: Storing)
    ensures InputProblem(input, files, storing).None? <==>
      || input.kind != Tasks.File
      || ((input.name !in files || files[input.name] == []) && !input.required)
      || (input.name in files && files[input.name] != [] && files[input.name][0].content.Success? && storing.written)
  {
  }

  /** What the user is told about an input that cannot be stored. */
  lemma ProblemSays(input: Tasks.Input, files: Forms.Files, storing: Storing)
    requires InputProblem(input, files, storing).Some?
    ensures InputProblem(input, files, storing).value ==
      if input.name !in files || files[input.name] == [] then "required file not provided"
      else if files[input.name][0].content.Failure? then "failed to open uploaded file"
      else "failed to store input file"
  {
  }

  /** Exactly the recorded ones are stored: under the name of the input, with the content of its first upload. */
  lemma {:induction false} InputRowsSay(executionId: Id, inputs: seq<Tasks.Input>, files: Forms.Files,
                                        storing: nat -> Storing, row: FileRow)
    requires forall i :: 0 <= i < |inputs| ==> InputProblem(inputs[i], files, storing(i)).None?
    ensures row in InputRows(executionId, inputs, files, storing) <==>
      && row.executionId == executionId && !row.isOutput
      && exists i :: 0 <= i < |inputs|
           && inputs[i].kind == Tasks.File && inputs[i].name == row.filename && storing(i).recorded
           && inputs[i].name in files && files[inputs[i].name] != []
           && files[inputs[i].name][0].content == Success(row.content)
  {
    if inputs != [] {
      var n := |inputs| - 1;
      InputRowsSay(executionId, inputs[..n], files, storing, row);
      assert forall i :: 0 <= i < n ==> inputs[..n][i] == inputs[i];
      NoProblemIff(inputs[n], files, storing(n));
    }
  }

  /** Input `n` is the first that cannot be stored. */
  ghost predicate FailsAt(inputs: seq<Tasks.Input>, files: Forms.Files, storing: nat -> Storing, n: nat,
                          error: string) {
    && n < |inputs|
    && InputProblem(inputs[n], files, storing(n)) == Some(error)
    && forall i :: 0 <= i < n ==> InputProblem(inputs[i], files, storing(i)).None?
  }

  /** Stores the first upload of each file input, up to the first that cannot be stored; a record may be missing. */
  method StoreInputFiles(store: Repository, executionId: Id, inputs: seq<Tasks.Input>, files: Forms.Files,
                         storing: nat -> Storing) returns (error: Option<string>, ghost stored: nat)
    modifies store`files
    ensures stored <= |inputs|
    ensures store.files == old(store.files) + InputRows(executionId, inputs[..stored], files, storing)
    ensures error.None? ==>
      && stored == |inputs|
      && forall i :: 0 <= i < |inputs| ==> InputProblem(inputs[i], files, storing(i)).None?
    ensures error.Some? ==> FailsAt(inputs, files, storing, stored, error.value)
  {
    stored := 0;
    for i := 0 to |inputs|
      invariant stored == i
      invariant forall k :: 0 <= k < i ==> InputProblem(inputs[k], files, storing(k)).None?
      invariant store.files == old(store.files) + InputRows(executionId, inputs[..i], files, storing)
    {
      var input := inputs[i];
      assert inputs[..i + 1][..i] == inputs[..i];
      ghost var before := store.files;
      if input.kind.File? {
        if input.name in files && |files[input.name]| > 0 {
          var upload := files[input.name][0];
          if upload.content.Failure? {
            return Some("failed to open uploaded file"), stored;
          }
          if !storing(i).written {
            return Some("failed to store input file"), stored;
          }
          var _ := store.AddFile(executionId, FileRow(executionId, input.name, upload.content.value, false),
                                 storing(i).recorded);
        } else if input.required {
          return Some("required file not provided"), stored;
        }
      }
      assert store.files == before + InputRow(executionId, input, files, storing(i));
      stored := stored + 1;
    }
    assert inputs[..|inputs|] == inputs;
    error := None;
  }

  /** A row was added; it says so if its inputs could not be stored and that could be marked. */
  ghost predicate Submitted(before: Table, after: Table, r: Result<Id, string>, marked: bool, row: Execution,
                            later: Time) {
    after == before + [if r.Failure? && marked then Completed(row, -1, r.error, later) else row]
  }

  /**
    Creates the execution and stores its inputs. Once created, the execution waits
    for a runner, whether or not its inputs could be stored and even when it is
    already marked as failed.
   */
  method SubmitTask(store: Repository, taskId: nat, userId: nat, parameters: string, now: Time, token: Option<string>,
                    inserted: bool, inputs: seq<Tasks.Input>, files: Forms.Files, storing: nat -> Storing,
                    later: Time, marked: bool)
    returns (r: Result<Id, string>)
    requires store.Valid()
    requires forall i :: 0 <= i < |store.executions| ==> store.executions[i].createdAt < now
    modifies store`executions, store`files
    ensures store.Valid()
    ensures r.Success? ==>
              && r.value == |old(store.executions)|
              && forall i :: 0 <= i < |inputs| ==> InputProblem(inputs[i], files, storing(i)).None?
    ensures |store.executions| == |old(store.executions)| ==> r.Failure? && store.executions == old(store.executions)
    ensures |store.executions| != |old(store.executions)| ==>
              && token.Some?
              && Submitted(old(store.executions), store.executions, r, marked,
                           NewRow(|old(store.executions)|, taskId, userId, parameters, now, token.value), later)
              && |old(store.executions)| in Unclaimed(store.executions)
    ensures |store.executions| != |old(store.executions)| ==>
              var row := store.executions[|old(store.executions)|];
              && row.taskId == taskId && row.userId == userId && row.inputParameters == parameters
              && row.createdAt == now && Some(row.runnerToken) == token
              && row.startedAt == None && row.containerId == ""
              && (if r.Failure? && marked then
                    && row.status == Failed && row.exitCode == Some(-1) && row.errorMessage == r.error
                    && row.finishedAt == Some(later)
                  else
                    row.status == Pending && row.exitCode == None && row.errorMessage == "" && row.finishedAt == None)
    ensures r.Success? ==> store.files == old(store.files) + InputRows(r.value, inputs, files, storing)
  {
    var created := store.Create(taskId, userId, parameters, now, token, inserted);
    if created.Failure? {
      return Failure("could not create the execution");
    }
    var id := created.value;
    var error, _ := StoreInputFiles(store, id, inputs, files, storing);
    assert inputs[..|inputs|] == inputs;
    if error.Some? {
      store.SetCompleted(id, -1, error.value, later, marked);
      return Failure(error.value);
    }
    return Success(id);
  }
}
