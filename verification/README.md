# Oplet: a verified model

Oplet is a task queue. A web server stores executions of containerised tasks,
runners claim them over HTTP, run the containers, and send statuses, logs and
output files back. This project models the parts of it where a mistake would be
hard to see by reading, and proves what they keep. `dafny verify dfyconfig.toml`
checks everything.

## What is modelled

**The protocol between server and runners.** `Executions.dfy` holds the tables
and the queries on them, `Repository.dfy` the repository object and the status,
trace and output handlers that change the tables in place, `Submissions.dfy` the
submission of a task. `Protocol.dfy` turns them into a step system: creations,
claims, completions, and handlers whose load and save are separate steps,
interleaved in any way; any handler may be abandoned at any point, and the unique
index on runner tokens refuses a step that would give two rows one token. On top
of it,
- `ClaimSafety.dfy` shows that executions are handed out in creation order and
  each at most once, as long as no save unclaims an execution at or before one
  that was handed out. Atomic status updates need no such proviso.
- `Draining.dfy` shows that any calls that ask for work serve the waiting
  executions oldest first, and that the proviso is exact: a save is harmless in
  all continuations if and only if it meets it, and likewise a load if and only
  if the row to be saved is claimed. The runs that show this draw tokens never
  used before and read increasing times.
- `Routing.dfy` shows that a runner's messages, which name only the task, reach
  the execution it claimed, as long as executions of one task do not overlap; and
  that the unprotected read and save then act as one atomic update if, besides,
  each runner waits for replies and nobody completes a claimed row from outside.
  `LostUpdates.dfy` has runs in which an update, or a completion, is lost without
  either condition.
- `RowHistories.dfy` shows that in such orderly runs a row follows the updates
  that reach it one by one, so that its status advances as the executor's states
  do in the interleaved system too, and ends as the executor's run ended.
- `DeliveredLogs.dfy` shows that in runs without overlap the log of an execution
  is what its own runner recorded, and that the batches of the log streamer that
  reach the server store the lines of the container's log in order, each once.

**A run seen from the container to the status column.** `DockerExecutor.dfy` is
the execution state machine with its deferred releases, for every combination of
Docker's answers. `StatusUpdates.dfy` follows its states through the runner's
callback, through lost updates, into the row. `LogStreaming.dfy` is the
reconnecting log streamer with its local clock, against the idempotent insert of
the server and the rows that others write meanwhile.

**From image labels to the container's environment.** `Labels.dfy` parses labels
over maps visited in arbitrary order, `LabelPrinter.dfy` prints them in the
documented form, `Forms.dfy` and `TaskForms.dfy` build, fill and validate the
form, `Environments.dfy` carries the submitted values to the container, and
`Provider.dfy` shows that nothing depends on which fetch of the image's labels,
with its own order of inputs, each step works from.
`Text.dfy` has the few string operations this takes.

**Storage and small routines.** `Transactions.dfy` is the bounded retry,
`Seeding.dfy` the seeders that run once, `Queries.dfy` the searches and counts,
`UrlMutations.dfy` the deletion of query values in place, and `FileSizes.dfy` the
choice of a unit.

## Conventions

- A table is a sequence of rows; the row at index `i` has identifier `i` (the
  database counts from 1), and creation times increase along it. A transaction is
  one step that takes effect or changes nothing.
- What the network, Docker, the clock, the random generator and the database
  answer is a parameter: every result holds for all answers.
- Strings are compared by code points, which is the order of their UTF-8 bytes.
- A map is visited by picking an arbitrary remaining key, so a method's contract
  holds for every order of visit.
- A loop of the source whose result is worth a name is specified by a function of
  its inputs; what the function means is then stated by lemmas.

## Where the code differs from what one would expect

The model follows the code, where its documentation says otherwise too.
- `internal/task/oci/README.md` documents the types `env` and `file` and a
  property `value_type`. The parser knows `text`, `number`, `file`, `secret` and
  `boolean`, refuses `env`, and ignores `value_type`.
- The seeding routine calls the retry routine without any error code, so its
  transactions are never retried.
- A status request with any non-empty status is accepted, also one that is not
  among the sixteen statuses.
- The runner sends `pulling_image` before the executor starts over from
  `pending`: see `StatusUpdates.OpeningAdvancesIff`.
- Deleting several values of one query key leaves blanks behind: see
  `UrlMutations.DeletedIs`.

## Model

| member | source | states |
|---|---|---|
| Repositories.Repository.Create | internal/store/repository/execution/execution.go:16-30 | appends one row with the given task, user, parameters, time and token that is pending and has nothing else set; when no token can be generated, another row has it or the insert fails, nothing |
| Repositories.Repository.NextTask | internal/store/repository/execution/queue.go:16-52 | hands out the unclaimed row created first, setting start time and token and nothing else; finds nothing iff the query succeeds and every row is claimed; fails iff the query, the token or the save does, and then leaves the table as it was |
| Repositories.Repository.Update | internal/store/repository/execution/execution.go:62-69 | replaces one whole row, unless the save fails or another row has its token, and keeps the table well formed |
| Repositories.Repository.AddLog | internal/store/repository/execution/execution.go:233-246 | inserts a batch under the given execution, skipping rows whose key exists, and keeps the keys unique; an empty batch is refused |
| Repositories.Repository.SetCompleted | internal/store/repository/execution/execution.go:320-339 | changes exit code, message, finish time and status of one row; the start time stays, so an unclaimed row stays claimable |
| Executions.MergeSays | internal/http/handler/runner/handler.go:161-177 | after a merge the row says, column by column, what the request carries |
| Executions.MergeAgreesIff | internal/http/handler/runner/handler.go:161-177 | a merge replaces the columns that the request carries, the status among them, and keeps every other: two rows become equal by it iff they agree outside those columns |
| Executions.MergeComposes | internal/http/handler/runner/handler.go:161-177 | two requests in turn are one request in which a column that the later carries is the later's |
| Executions.InsertLogAddsIff | internal/store/task.go:70-78 | a log row is added unless one has its execution, timestamp, source and clock; nothing else happens |
| Executions.StatusLogSays | internal/http/handler/runner/handler.go:184-191 | the entry for a status names it, is a system entry, and its clock is the timestamp as an unsigned 64-bit number |
| Executions.TextTravels | internal/store/task.go:49-68 | a text is kept by the status that it names |
| Repositories.InsertLogsKeys | internal/store/task.go:70-78 | inserting a batch keeps the index unique, loses no key and adds exactly the keys of the batch |
| Executions.Unclaimed | internal/store/repository/execution/queue.go:23-31 | the waiting rows are exactly those with a null start time, in ascending order |
| Executions.NewestIsFirstPage | internal/store/repository/execution/execution.go:82-101 | the page of one, newest first, that handlers load is the most recently created execution of the task |
| Repositories.Handler.TaskStatus | internal/http/handler/runner/handler.go:114-211 | undisturbed, a status request changes only the newest execution of the task, by the merge, and adds one system log entry; each error reply has its exact cause and leaves everything unchanged |
| Repositories.Handler.TaskTrace | internal/http/handler/runner/task.go:143-215 | an accepted batch is inserted under the newest execution of the task; a refused one, a failing query or an unknown task changes nothing |
| Repositories.Handler.TaskOutputs | internal/http/handler/runner/task.go:341-435 | the parts that do not fail are appended, in order, to the output files of the newest execution of the task, and counted; the files of every other execution are unchanged; a malformed body, a failing query or an unknown task changes nothing |
| Repositories.TraceRowsSay | internal/http/handler/runner/task.go:191-202 | every entry of an accepted batch becomes a row with its timestamp, clock, message and source |
| Repositories.StoredFilesSay | internal/http/handler/runner/task.go:410-435 | a part becomes an output file of its name and content iff it can be opened, written and recorded |
| Submissions.NoProblemIff | internal/http/handler/webui/task/new_task.go:233-279 | an input can be stored iff it is no file, or optional and not uploaded, or its first upload can be read and written |
| Submissions.ProblemSays | internal/http/handler/webui/task/new_task.go:240-277 | what a user is told about an input that cannot be stored |
| Submissions.InputRowsSay | internal/http/handler/webui/task/new_task.go:235-268 | exactly the recorded inputs have a row, an input file under the input's name with the content of its first upload |
| Submissions.StoreInputFiles | internal/http/handler/webui/task/new_task.go:229-283 | stores the first upload of each file input under the input's name, up to the first input that cannot be stored, and says why; a required file without upload is such |
| Submissions.SubmitTask | internal/http/handler/webui/task/new_task.go:148-179 | the created execution has the task, user, parameters and token given, is pending, or failed with the reason if its inputs could not be stored and that could be marked, and waits for a runner in either case |
| Repositories.TraceAcceptedIffAllGood | internal/http/handler/runner/models.go:112-131 | a batch is accepted iff it is not empty and every entry has a known source, a message and a positive timestamp: one bad entry refuses all |
| Repositories.ComplaintIsFirst | internal/http/handler/runner/models.go:116-129 | the complaint about a batch is about its first bad entry and the first thing wrong with it |
| ClaimSafety.RowsKeepTheirOrigin | internal/store/repository/execution/execution.go:16-30 | in any interleaving there is one row for each creation that took effect, in order, and it keeps the task, user, parameters and time it was created with |
| ClaimSafety.SoundRun | internal/store/task.go:35 | in any interleaving no two rows ever share a runner token, and rows keep their task and creation time |
| ClaimSafety.ClaimsAreOrderedAndUnique | internal/http/handler/runner/handler.go:147-182 | in any interleaving where no save unclaims an execution at or before one that was handed out, hand-outs are strictly in creation order, hence each execution at most once |
| ClaimSafety.StartTimesAreKept | internal/http/handler/runner/handler.go:161-182 | if no save unclaims a claimed row, no start time is ever cleared, and the order condition holds |
| ClaimSafety.AtomicRunsAreOrdered | internal/store/repository/execution/queue.go:16-52 | if every effective save directly follows its load, hand-outs are in creation order and no start time is cleared, with no condition on claims |
| ClaimSafety.LoadsClaimedRun | internal/http/handler/runner/handler.go:147-182 | if every status handler loads a row that it will save as claimed, no save unclaims a row |
| Draining.ClaimTakesFirst | internal/store/repository/execution/queue.go:18-46 | a claim removes exactly the head of the waiting list and finds nothing iff the list is empty |
| Draining.Drain | internal/store/repository/execution/queue.go:16-52 | of any calls, each with its own clock and token, those that succeed return the first waiting executions, oldest first, and leave the others; failing calls change nothing |
| Draining.GrantedClaimsSucceed | internal/store/repository/execution/queue.go:16-52 | k calls none of which has its token refused succeed min(k, n) times on n waiting rows |
| Draining.SaveIsHarmlessIff | internal/http/handler/runner/handler.go:179-182 | after an ordered run, a save is harmless in all continuations iff it leaves its row claimed or neither this execution nor a younger one was handed out; else a continuation with new tokens and increasing times hands out an older execution late or one twice |
| Draining.StaleCallRepeatsClaim | internal/http/handler/runner/handler.go:147-182 | a handler about to save an unclaimed copy of a waiting or handed-out row can be continued, with new tokens and increasing times, into a run that hands the row out twice |
| Draining.LoadIsHarmlessIffClaimed | internal/http/handler/runner/handler.go:147-177 | what a handler can check when it loads: the load repeats no hand-out in any continuation iff the row to be saved is claimed; else one with new tokens and increasing times does |
| Draining.StaleCallIsReachable | internal/http/handler/runner/handler.go:147-182 | a run from nothing, with distinct tokens and increasing times, in which a late message of a task's earlier execution makes the server hold an unclaimed copy of the later one |
| Routing.TargetIsSenderIffNewest | internal/store/repository/execution/execution.go:82-101 | a message reaches its sender's execution iff the task has no younger one |
| Routing.CallChangesItsRow | internal/http/handler/runner/handler.go:179-196 | saving and recording a call changes rows, logs and files of the loaded execution only |
| Routing.MessagesReachTheirExecution | internal/http/handler/runner/task.go:177-204 | in every run whose executions of one task do not overlap, each load takes the row of the sender's own execution, each save replaces it by its merge, each recorded status entry, log batch or output file is stored, whole, under it, no other execution changes, and hand-outs are in order |
| Routing.RoutedRun | internal/http/handler/runner/handler.go:147-182 | in such runs no save unclaims a row |
| Routing.UninterruptedTrace | internal/http/handler/runner/task.go:157-204 | load and record in a row store a batch of any number of good entries whole under its sender's execution, and change nothing else |
| Routing.UninterruptedOutput | internal/http/handler/runner/task.go:368-394 | load and record in a row store any file under its sender's execution, and change nothing else |
| Routing.LoadsWhatIsAcceptable | internal/http/handler/runner/models.go:105-131 | a running runner's message is taken iff its status is not empty, its batch is a non-empty one of good entries, or it is a file |
| Routing.ServerStepsArePossible | internal/store/repository/execution/queue.go:16-52 | a creation is possible iff its time is later and its token unused; a claim with an unused token iff a row waits; a completion iff the row exists |
| Routing.CallsGoOn | internal/http/handler/runner/handler.go:179-196 | in orderly runs a handler in flight can always save or record; abandoning it changes nothing but itself |
| Routing.FinishedTaskMayRunAgain | internal/http/handler/webui/task/new_task.go:148-161 | a runner with nothing in flight can finish, and then the task can be created again without overlap |
| Routing.SaveIsAtomicIff | internal/http/handler/runner/handler.go:161-182 | a save equals merging the request into the row as it is iff copy and row agree on every column that the request does not carry |
| Routing.SavesAreAtomic | internal/http/handler/runner/handler.go:147-182 | when, besides, runners wait for replies and no claimed row is completed from outside, every save of the run is such: no update is lost |
| LostUpdates.UpdateIsLost | internal/http/handler/runner/handler.go:147-182 | without the first condition: a run from nothing in which the container of a saved update is gone after the next save |
| LostUpdates.CompletionIsLost | internal/store/repository/execution/execution.go:320-339 | without the second condition: a run from nothing in which a row that says it finished no longer does after a save |
| RowHistories.RowFollowsSaves | internal/http/handler/runner/handler.go:161-182 | in an orderly run a claimed row is what the saves that reached it make of it, one by one, whatever else happens |
| RowHistories.SavesAreSomeLoads | internal/http/handler/runner/handler.go:147-182 | the updates saved to an execution are some of those received for it, in the same order |
| RowHistories.InterleavedStatusAdvances | internal/runner/runner.go:234-264 | in an orderly run, with updates lost before or after the server receives them, the row's status strictly advances from save to save, nothing follows a terminal one, and no field is cleared |
| Routing.UninterruptedUpdate | internal/http/handler/runner/handler.go:147-196 | load, save and record in a row have the effect the handler method promises |
| RowHistories.TerminalRowAgrees | internal/runner/runner.go:234-264 | in an orderly run, once the status of an execution is terminal, its row agrees with the executor's last snapshot, whatever else was lost |
| DeliveredLogs.LogsFollowRecords | internal/http/handler/runner/task.go:177-204 | in a run without overlap, the log of an execution is its runner's recorded status entries and batches, inserted in turn, and its output files are those its runner sent |
| DeliveredLogs.StreamInStep | internal/runner/runner.go:322-366 | for any connections cut anywhere, the batches submitted are consecutive lines, each going on where the last ended or one line before |
| DeliveredLogs.ChainIsStored | internal/store/repository/execution/execution.go:233-246 | whichever of such batches arrive, they store lines in order and none twice; if all do, all lines up to the end of the last |
| DeliveredLogs.ContainerLogIsStoredOnce | internal/runner/runner.go:286-369 | in a run without overlap, where some of the streamer's batches are recorded, in order, among everybody else's messages, the container's rows are lines of its log, in order and none twice; if none was lost, exactly the first lines |
| DockerExecutor.Execute | internal/task/docker/executor.go:50-243 | for all answers of Docker, the reported states start at the first, strictly increase, end in one terminal state, are exactly the ones the answers call for, and end in the snapshot with the first error; a container is made iff image and creation allow it, and is removed once iff it was made, after all reports; the reader is open whenever outputs are shown and is closed before the removal |
| DockerExecutor.SucceedsIff | internal/task/docker/executor.go:201-237 | a run succeeds iff the image was pulled, the container created, inputs uploaded, the container started, no exit code but 0 recorded and outputs not failed |
| DockerExecutor.KilledIff | internal/task/docker/executor.go:166-180 | it is killed iff it was cancelled while its container ran; else it succeeds or fails |
| DockerExecutor.NoErrorIff | internal/task/docker/executor.go:194-239 | no error is told iff the run succeeded or its container exited with another code; code, times, container and outputs are told exactly when they are known |
| DockerExecutor.FirstErrorIsTold | internal/task/docker/executor.go:77-226 | the error told is that of the first step that went wrong, with its kind and container |
| DockerExecutor.ErrorTexts | internal/task/executor.go:117-136 | the texts by which each step's failure is told |
| DockerExecutor.Steps | internal/task/docker/executor.go:60-240 | the body acquires the container and the reader in order and defers their releases in reverse |
| DockerExecutor.FinishedRunIsComplete | internal/task/docker/executor.go:60-240 | a run that went along its path reports a state iff the answers up to it allow it; upload states only with inputs, success only if every step succeeded and no exit code but 0 was recorded |
| DockerExecutor.DeferredComeLast | internal/task/docker/executor.go:112-119 | deferred releases put after the body come after everything reported, the reader before the container |
| DockerExecutor.PairIsOrdered | internal/task/executor.go:43-60 | of any two reports the later one has the higher state and repeats all that the earlier one said |
| StatusUpdates.StatusOf | internal/runner/runner.go:371-408 | the mapping of states to statuses keeps the order and the terminal states |
| StatusUpdates.Callback | internal/runner/runner.go:234-284 | each request is valid and says status, container, code, error and times of the snapshot; log streaming starts exactly at the container's start, the upload exactly when outputs are downloaded |
| StatusUpdates.ExecuteTask | internal/runner/runner.go:82-137 | the first request says `pulling_image` and when it started; then follow those of a complete run, or one that says `failed`, why and when |
| StatusUpdates.DownloadFailureIsShown | internal/runner/runner.go:82-108 | when inputs cannot be downloaded and both updates arrive, the row says that it failed, why, when it started and when it finished, and nothing else changed |
| StatusUpdates.StatusOnlyAdvances | internal/http/handler/runner/handler.go:161-177 | whichever callback updates are lost, the row's status strictly advances, nothing follows a terminal one, and no field is cleared |
| StatusUpdates.OpeningAdvancesIff | internal/runner/runner.go:82-89 | with the opening update, statuses advance iff it is lost or the callback's first two are |
| StatusUpdates.HistoryClearsNothing | internal/http/handler/runner/handler.go:161-177 | no sequence of status requests clears container id, message, exit code, start or finish time |
| StatusUpdates.LastUpdateDecides | internal/runner/runner.go:234-264 | if the last update arrives, the row agrees with the executor's last snapshot whatever else was lost |
| LogStreaming.LinesAreStoredOnceIff | internal/task/docker/executor.go:511-536 | no attempts whatever store a line twice iff every line that is not empty has a timestamp |
| LogStreaming.UndatedLineIsStoredTwice | internal/runner/runner.go:346-364 | a line without a timestamp, read by two connections at two times with everything delivered, is stored twice |
| LogStreaming.InsertConsecutive | internal/store/repository/execution/execution.go:233-246 | a batch of consecutive lines that starts at most one line before the end is appended without that line |
| LogStreaming.OtherRowsDoNotMatter | internal/store/repository/execution/execution.go:233-246 | rows of other executions, and system rows, do not disturb the container's rows |
| LogStreaming.ReceiveKeeps | internal/runner/runner.go:346-360 | a line is taken iff no earlier reading has gone beyond it; then it continues what is stored and pending, and the clock follows |
| LogStreaming.SubmitKeeps | internal/runner/runner.go:299-311 | submitting stores what is pending without a gap or a repeat |
| LogStreaming.StreamKeeps | internal/runner/runner.go:322-366 | any number of reconnections, cut anywhere, with others writing meanwhile, keeps the clock, the pending entries and the stored rows in step |
| LogStreaming.StreamLogs | internal/runner/runner.go:286-369 | while others write their own rows: if every non-empty line has a timestamp, the stored rows are lines of the log, in order, none twice, whatever is lost; when messages are not empty and submissions arrive, they are exactly the first lines without a gap, and every line seen is stored or pending |
| Labels.KeyParts | internal/task/label/parser.go:96-107 | name and property are read back from a key of the documented form, for dot-free names |
| Labels.GroupLabel | internal/task/label/parser.go:96-114 | files one label under its name and property; fails iff the key has no second part |
| Labels.GroupLabels | internal/task/label/parser.go:48-63 | in any order of visit, the groups hold exactly the labels below their prefix, or a key without a second part is blamed |
| Labels.BuildInputLabels | internal/task/label/parser.go:117-137 | fails iff the type is missing or unknown, and says which |
| Labels.ParseLabels | internal/task/label/parser.go:20-93 | in any order of visit, parsing succeeds iff every key below the two prefixes has both parts and every item a valid type; the result is a function of the labels; an error names a label at fault |
| Labels.BuildTaskDefinition | internal/task/label/parser.go:149-206 | succeeds iff there is a name and every `required` is empty or a boolean; lists each item once, in some order |
| Labels.ListsAgree | internal/task/label/parser.go:165-181 | two listings of the same items hold the same inputs |
| Labels.TypesSay | internal/task/definition.go:20-28 | the five types that an item may have |
| Labels.RequirementsSay | internal/task/label/parser.go:188-196 | which texts make an input required, which optional, and which are refused |
| Labels.FromSectionIff | internal/task/label/parser.go:198-205 | an input says what its labels say and has no tags, default value or constraints |
| Labels.KeysAreDocumented | internal/task/label/types.go:9-22 | the names of the labels |
| LabelPrinter.PrintThenParseIff | internal/task/label/types.go:3-22 | for dot-free names, printed labels are parsed back to what was printed iff every item has a label, a valid type, a non-empty list of space-free tags and no default value |
| LabelPrinter.ParseThenPrint | internal/task/label/parser.go:20-146 | whatever an image's labels mean can be printed and parsed again without loss |
| Forms.Form.Handle | internal/http/handler/webui/common/form/form.go:36-65 | copies each field's submission; refused iff the parsing fails that the presence of a file field asks for, and then nothing changes |
| Forms.SubmittedValue | internal/http/handler/webui/common/form/form.go:50-62 | exactly the names of plain fields take the submitted value, other values are kept |
| Forms.SubmittedFiles | internal/http/handler/webui/common/form/form.go:50-62 | exactly the names of file fields with uploads take them, other files are kept |
| Forms.Form.IsValid | internal/http/handler/webui/common/form/form.go:68-82 | replaces the errors by those of validating each field, and is true iff there are none |
| Forms.Form.ValidateField | internal/http/handler/webui/common/form/form.go:85-111 | replaces the error of one name; false for an unknown field |
| Forms.RuleFailsIff | internal/http/handler/webui/common/form/rule.go:21-39 | a required plain field fails iff it has no value or only white space, a required file field iff it has no entry; a constraint fails with the message of its violation, on files with that of the first upload that cannot be opened or violates it |
| Forms.Spaces | internal/http/handler/webui/common/form/rule.go:29 | white space is what Unicode calls so |
| Forms.FormIsValidIff | internal/http/handler/webui/common/form/form.go:68-82 | a form is valid iff what is submitted meets every rule of every field |
| Forms.RecordedErrorIsFirst | internal/http/handler/webui/common/form/form.go:68-82 | a recorded error is that of the field's first failing rule, and none is recorded iff no rule fails |
| Forms.ErrorFromIsFirst | internal/http/handler/webui/common/form/form.go:103-108 | looking from rule to rule finds the first failing one |
| Forms.BatchAndIncrementalAgreeIff | internal/http/handler/webui/common/form/form.go:68-111 | with distinct names, validating every field alone, in any order, gives the errors of the form iff the errors at the start are on validated names |
| Forms.ValidIffEveryFieldPasses | internal/http/handler/webui/common/form/form.go:68-111 | a form is valid iff validating each of its fields alone succeeds |
| TaskForms.EmptyRequiredFieldSaysSo | internal/http/handler/webui/common/task/form.go:107-120 | by the order of its rules, a required field left empty says so whatever its constraints say; else the first violated constraint in order speaks |
| TaskForms.TaskFormIsValidIff | internal/http/handler/webui/common/task/form.go:107-157 | a task's form is valid iff every required input is there and no constraint of any input rejects what is submitted |
| TaskForms.FieldSays | internal/http/handler/webui/common/task/form.go:33-45 | a field has the name, texts and kind that its input asks for |
| Text.LessIff | internal/http/handler/webui/common/task/form.go:61 | names are ordered by the first character in which they differ, a beginning before what it begins |
| TaskForms.SortFields | internal/http/handler/webui/common/task/form.go:53-62 | a permutation in which no field precedes one it should follow |
| TaskForms.BeforeIsStrictOrder | internal/http/handler/webui/common/task/form.go:53-62 | the comparator is irreflexive, transitive, and total on distinct names |
| TaskForms.NewForm | internal/http/handler/webui/common/task/form.go:29-69 | a fresh form whose fields are those of the inputs, sorted, with the given values and no errors |
| TaskForms.NewConfigurationForm | internal/http/handler/webui/common/task/form.go:20-27 | the values are the stored settings, the last of a name winning |
| TaskForms.LastSettingIsShown | internal/http/handler/webui/common/task/form.go:21-24 | exactly the names with a setting show a value, that of their last setting |
| TaskForms.FormIsCanonical | internal/http/handler/webui/common/task/form.go:29-69 | whatever order a definition lists its inputs in, the form has one and the same sequence of fields |
| TaskForms.FormIsOrdered | internal/http/handler/webui/common/task/form.go:53-62 | required fields come first and names ascend within each part |
| TaskForms.FormShowsEveryInput | internal/http/handler/webui/common/task/form.go:32-51 | every input has its field and every field its input |
| Environments.MarshalInputParameters | internal/http/handler/webui/task/new_task.go:181-226 | in any order of visit, each value gets the type of its input, and the names of uploaded files go under their own key |
| Environments.BuildEnvironment | internal/http/handler/runner/task.go:55-118 | the environment is a function of definition, parameters and settings; empty when the definition cannot be fetched |
| Environments.ConfiguredOverrides | internal/http/handler/runner/task.go:94-117 | a declared setting overrides the input of its name, the last setting winning; others leave the input alone |
| Environments.ConfiguredIff | internal/http/handler/runner/task.go:94-104 | a name is configured iff the definition declares it and some setting has it |
| Environments.LastSettingReachesContainer | internal/http/handler/runner/task.go:94-117 | the last setting of a declared name is in the environment: as its own text, or, for a boolean item, as `true` iff it is `on` and else as `false` |
| Environments.UndeclaredSettingsAreIgnored | internal/http/handler/runner/task.go:95-104 | settings of a name that the definition does not declare change nothing under it |
| Environments.FileInfoSays | internal/http/handler/webui/task/new_task.go:206-213 | under each file input, the names of its uploads in order |
| Environments.SubmittedValuesSurvive | internal/http/handler/webui/task/new_task.go:190-216 | from the submitted request to the container, every plain input keeps its text and every boolean is true iff submitted as on, unless overridden by a setting; file inputs do not appear; the one loss is an input called `_files` once a file is uploaded, with its exact outcome |
| Environments.NothingElseIsSet | internal/http/handler/runner/task.go:71-117 | a name that is no input is set iff it is configured |
| Provider.FetchTaskDefinition | internal/task/oci/provider.go:39-94 | a definition results iff the reference is not empty, the registry answers, and the labels parse and convert; it is one that the labels describe |
| Provider.FormsAgree | internal/http/handler/webui/common/task/form.go:14-69 | two fetches of an image give the same input form and the same configuration form |
| Provider.EnvironmentsAgree | internal/http/handler/runner/task.go:55-118 | two fetches of an image make the same environment of the same parameters and settings |
| Provider.ImageInputsSurvive | internal/http/handler/runner/task.go:55-118 | an input shown by one fetch reaches, as submitted, the container whose environment another fetch makes |
| Transactions.Store.Transaction | internal/store/store.go:74-80 | the state of the body is kept iff body and commit succeed |
| Transactions.Store.WithRetry | internal/store/store.go:63-105 | at most eleven transactions with doubling pauses; all but the last failed with a listed code, and the last succeeded, was the eleventh or failed otherwise; on success the state is the effect of one run on the starting state, on error it is the starting state |
| Transactions.RetryableIff | internal/store/store.go:81-98 | an attempt is followed by another iff its body or its commit failed with a listed code |
| Transactions.BackoffIsBounded | internal/store/store.go:69-96 | the pauses add up to at most 500 (2^10 - 1) milliseconds |
| Seeding.Seed | internal/store/repository/seed/seed.go:27-62 | each seeder's transaction is tried once, in order, up to the first error |
| Seeding.SeedersRunOnce | internal/store/repository/seed/seed.go:27-62 | over any history of calls failing anywhere, the seeders that took effect are a prefix of the list, each once, and exactly they are marked; once a call succeeded they are all of them |
| Seeding.SeederOutcome | internal/store/repository/seed/seed.go:29-55 | a seeder that ran does nothing unless forced; any other leaves effect and marker together or, if anything fails, neither, and the failure is told |
| Seeding.MarkersSayWhen | internal/store/repository/seed/seed.go:43-52 | a marker is an old one or has the time that this call gave its seeder |
| Seeding.ForcedMarkersAreDated | internal/store/repository/seed/seed.go:43-52 | a forced call dates the marker of every seeder it ran |
| Seeding.MarkersAreKept | internal/store/repository/seed/seed.go:35-52 | without force, no marker is removed or dated anew |
| Seeding.ForcedSeedersAllRun | internal/store/repository/seed/seed.go:35-52 | with force, every seeder runs again, marked or not |
| Queries.SearchFinds | internal/store/repository/execution/execution.go:523-568 | a row is found iff it has the status, user and task asked for, if any, and was created in the days asked for, where those are dates |
| Queries.UserSearchFinds | internal/store/repository/execution/execution.go:571-612 | likewise, of one user |
| Queries.UserTaskSearchFinds | internal/store/repository/execution/execution.go:615-652 | likewise, of one user and task |
| Queries.CountsAgree | internal/store/repository/execution/execution.go:662-737 | each count is the length of the unpaged search with the same filters |
| Queries.UserSearchAgrees | internal/store/repository/execution/execution.go:571-612 | for a positive user the search and the count for a user are the general ones with that user |
| Queries.UserTaskSearchAgrees | internal/store/repository/execution/execution.go:615-652 | likewise for a user and a task |
| Queries.UserZeroAgreesIff | internal/store/repository/execution/execution.go:532-534 | for user zero the two agree iff no row of anybody else matches |
| Queries.SearchIsNewestFirst | internal/store/repository/execution/execution.go:526 | a search lists rows newest first, each once |
| Queries.PagesCoverSearch | internal/store/repository/execution/execution.go:523-568 | pages of any size, one after another, hold the unpaged search without loss or repeat |
| Queries.PagesCoverUserSearch | internal/store/repository/execution/execution.go:571-612 | likewise for the search for a user |
| Queries.PagesCoverUserTaskSearch | internal/store/repository/execution/execution.go:615-652 | likewise for the search for a user and a task |
| UrlMutations.DeleteFunc | internal/http/url/mutation.go:87-89 | in place, the other values move to the front in order and the tail is blanked |
| UrlMutations.DeletedIs | internal/http/url/mutation.go:81-90 | several deletions under one key leave, besides the right values, a blank for each value that all but the last deletion removed, unless the last deletes blanks |
| UrlMutations.DeletedCleanlyIff | internal/http/url/mutation.go:81-90 | the deletions do what they say iff only the last one removes anything or the last one deletes blanks |
| UrlMutations.TwoDeletionsLeaveABlank | internal/http/url/mutation.go:81-90 | an input on which they do not |
| UrlMutations.WithoutMembers | internal/http/url/mutation.go:87-89 | a deletion keeps a value iff it is there and is not the deleted one |
| UrlMutations.OneDeletion | internal/http/url/mutation.go:81-90 | with one value per key, exactly its occurrences go, or the whole key for `*` |
| UrlMutations.KeyValuesToValues | internal/http/url/mutation.go:27-45 | groups alternating keys and values by key, in order |
| UrlMutations.PairsInOrder | internal/http/url/mutation.go:34-42 | the values of a key are those that follow it at even places of the arguments, in order |
| UrlMutations.Url.AddValues | internal/http/url/mutation.go:47-61 | in any order of visit, each key gets its new values after its old ones |
| UrlMutations.Url.DeletePairs | internal/http/url/mutation.go:69-94 | in any order of visit, each listed key is treated on its own, others are kept |
| UrlMutations.RemovingUndoesAddingIff | internal/http/url/mutation.go:47-94 | with one value per key, deleting what was added gives back the query iff, for each key that was there, the value is not `*` and was absent |
| UrlMutations.AddedLists | internal/http/url/mutation.go:50-60 | each key has its old values and then the new ones |
| UrlMutations.MutatedSays | internal/http/url/mutation.go:63-67 | a reset empties the query, a path replaces the path, and no mutation changes the other part |
| UrlMutations.MutationsInTurn | internal/http/url/mutation.go:15-23 | each mutation works on what those before it left |
| UrlMutations.Mutate | internal/http/url/mutation.go:15-23 | returns a fresh URL with all mutations applied in order and leaves its argument unchanged |
| FileSizes.FormatFileSize | internal/http/handler/webui/task/component/execution_page_templ.go:1080-1091 | for every 64-bit size from 1024 on, the divisor is 1024 to the exponent plus one and brackets the size, the exponent has a letter, and no product overflows |

## Left out

- HTTP, JSON, multipart, cookies, authentication, role checks: a call is delivered or lost, and JSON loses nothing of maps of strings and booleans.
- Docker, registries, archives and the file system: only their answers.
- Queries and migrations of the database layer: each query is modelled by its meaning. Creation times are distinct and increase with the identifier.
- Soft deletion (`Delete`, `CleanupOldExecutions`, `CleanupOrphanedLogs`): nothing calls them, so a loaded row still exists when it is saved.
- The random generator: a drawn token is any text, and the unique index refuses one that another row has.
- Downloading inputs and uploading outputs, file by file: `StatusUpdates.ExecuteTask` takes the number of inputs or the error, `Protocol` takes each output file as one message, and a file's content is a text.
- The polling loop around `NextTask` and its time-out: it only repeats the claim.
- Statistics, recent lists and lookups by container: filters like those of `Queries`.
- The parsing of a log line into timestamp and text: a line comes with its timestamp if one is parsed.
- The second failure report of the runner after a failed `Execute`: the executor reports its failures through the callback and returns no error.
- The in-place form of the library's sort: `TaskForms.SortFields` is an insertion sort on a sequence, with the contract that the library documents for its own.
- Names of statuses in another language, icons, page rendering: user interface.
- Routing.SavesAreAtomic: requires that no claimed execution is completed from outside, which a submission does when it cannot store input files of an execution that a runner has already claimed; `LostUpdates.CompletionIsLost` shows what then happens.
- RowHistories.InterleavedStatusAdvances: is about orderly runs, as without them an update can be lost whole.
- StatusUpdates.StatusOnlyAdvances: is about the updates of the callback; the opening update of the runner has its own exact result.
- LogStreaming.StreamLogs: promises exactness for lines whose timestamp is parsed; `LogStreaming.LinesAreStoredOnceIff` says that others are stored twice by some attempts.
- LabelPrinter.PrintThenParseIff: is stated for dot-free names, as a dot in a name cannot be told from the dot that ends it.
- UrlMutations.Url.AddValues: takes a query as the map it parses to; pairs that cannot be parsed, and escaping, are not modelled.
- UrlMutations.Mutate: a path is set to a joined text, the joining itself is not modelled.
- FileSizes.FormatFileSize: gives the two integers of the quotient; its rounding to one decimal is not modelled.
- Environments.BuildEnvironment: how the runtime prints a list of file names is a parameter.
