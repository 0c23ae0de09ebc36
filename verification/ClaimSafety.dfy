/**
  When executions are handed out in creation order, each to at most one runner.

  A handler that loaded an unclaimed row can save it after another step claimed
  it, and so give the row away again. Runs without such a save hand out every
  execution at most once and in creation order; a run with one can always be
  continued into one that does not.
 */
module ClaimSafety {
  import opened Executions
  import opened Protocol

  // ---------------------------------------------------------------- what every step keeps

  /** A loaded row is a version of a row of the table. */
  ghost predicate Matches(table: Table, row: Execution) {
    && row.id < |table|
    && table[row.id].createdAt == row.createdAt
    && table[row.id].taskId == row.taskId
    && table[row.id].userId == row.userId
    && table[row.id].inputParameters == row.inputParameters
  }

  ghost predicate CallsMatchRows(s: State) {
    forall c :: c in s.calls ==> Matches(s.executions, s.calls[c].row)
  }

  ghost predicate Sound(s: State) {
    WellFormed(s.executions) && TokensDiffer(s.executions) && CallsMatchRows(s)
  }

  /** Two versions of a row are of the same submission. */
  ghost predicate SameOrigin(x: Execution, y: Execution) {
    x.taskId == y.taskId && x.userId == y.userId && x.createdAt == y.createdAt && x.inputParameters == y.inputParameters
  }

  /** Rows are only added; they keep their task, user, parameters and creation time. */
  ghost predicate Grows(before: Table, after: Table) {
    |before| <= |after| && forall i :: 0 <= i < |before| ==> SameOrigin(before[i], after[i])
  }

  lemma ReplaceRow(table: Table, i: Id, row: Execution)
    requires WellFormed(table) && i < |table| && row.id == i && row.createdAt == table[i].createdAt
    ensures WellFormed(table[i := row])
  {
  }

  lemma ReplaceToken(table: Table, i: Id, row: Execution)
    requires TokensDiffer(table) && i < |table| && TokenFree(table, i, row.runnerToken)
    ensures TokensDiffer(table[i := row])
  {
  }

  lemma TableStep(s: State, e: Event)
    requires Sound(s) && Enabled(s, e)
    ensures WellFormed(NextExecutions(s, e)) && Grows(s.executions, NextExecutions(s, e))
  {
    match e
    case Claim(now, token) =>
      var i := OldestUnclaimed(s.executions).value;
      ReplaceRow(s.executions, i, ClaimRow(s.executions[i], now, token));
    case Complete(id, exitCode, error, now) =>
      ReplaceRow(s.executions, id, Completed(s.executions[id], exitCode, error, now));
    case Save(call) =>
      var c := s.calls[call];
      assert Matches(s.executions, c.row);
      ReplaceRow(s.executions, c.row.id, Merge(c.row, c.message.request));
    case _ =>
  }

  lemma TokensStep(s: State, e: Event)
    requires Sound(s) && Enabled(s, e)
    ensures TokensDiffer(NextExecutions(s, e))
  {
    match e
    case Claim(now, token) =>
      var i := OldestUnclaimed(s.executions).value;
      ReplaceToken(s.executions, i, ClaimRow(s.executions[i], now, token));
    case Complete(id, exitCode, error, now) =>
      ReplaceToken(s.executions, id, Completed(s.executions[id], exitCode, error, now));
    case Save(call) =>
      var c := s.calls[call];
      ReplaceToken(s.executions, c.row.id, Merge(c.row, c.message.request));
    case _ =>
  }

  lemma SoundStep(s: State, e: Event)
    requires Sound(s)
    ensures Sound(Apply(s, e)) && Grows(s.executions, Apply(s, e).executions)
  {
    if Enabled(s, e) {
      TableStep(s, e);
      TokensStep(s, e);
      forall c | c in NextCalls(s, e) ensures Matches(NextExecutions(s, e), NextCalls(s, e)[c].row) {
        if c in s.calls {
          assert Matches(s.executions, s.calls[c].row);
        }
      }
    }
  }

  /** Whatever interleaves, no two rows ever share a runner token and every loaded row stays one of the table. */
  lemma {:induction false} SoundRun(s: State, events: seq<Event>)
    requires Sound(s)
    ensures Sound(After(s, events)) && Grows(s.executions, After(s, events).executions)
  {
    if events != [] {
      SoundRun(s, events[..|events| - 1]);
      SoundStep(After(s, events[..|events| - 1]), events[|events| - 1]);
    }
  }

  /** The creations that took effect, in order. */
  function Creations(s: State, events: seq<Event>): (creations: seq<Event>)
    ensures forall i :: 0 <= i < |creations| ==> creations[i].Create?
  {
    if events == [] then []
    else
      var before, e := events[..|events| - 1], events[|events| - 1];
      Creations(s, before) + if e.Create? && Enabled(After(s, before), e) then [e] else []
  }

  /** A row is of the submission that an event created. */
  ghost predicate CreatedBy(row: Execution, e: Event)
    requires e.Create?
  {
    row.taskId == e.taskId && row.userId == e.userId && row.inputParameters == e.parameters && row.createdAt == e.now
  }

  lemma CreatedStep(s: State, e: Event)
    requires Sound(s) && Enabled(s, e)
    ensures |NextExecutions(s, e)| == |s.executions| + if e.Create? then 1 else 0
    ensures e.Create? ==> CreatedBy(NextExecutions(s, e)[|s.executions|], e)
  {
  }

  /** In any interleaving there is a row for each creation, in order, and it keeps what it was created with. */
  lemma {:induction false} RowsKeepTheirOrigin(events: seq<Event>)
    ensures var rows, creations := After(INITIAL, events).executions, Creations(INITIAL, events);
      |rows| == |creations| && forall i :: 0 <= i < |rows| ==> CreatedBy(rows[i], creations[i])
  {
    if events != [] {
      var before, e := events[..|events| - 1], events[|events| - 1];
      RowsKeepTheirOrigin(before);
      SoundRun(INITIAL, before);
      SoundStep(After(INITIAL, before), e);
      if Enabled(After(INITIAL, before), e) {
        CreatedStep(After(INITIAL, before), e);
      }
      OriginsKept(After(INITIAL, before).executions, After(INITIAL, events).executions, Creations(INITIAL, before));
    }
  }

  lemma OriginsKept(before: Table, after: Table, creations: seq<Event>)
    requires Grows(before, after) && |before| == |creations|
    requires forall i :: 0 <= i < |creations| ==> creations[i].Create? && CreatedBy(before[i], creations[i])
    ensures forall i :: 0 <= i < |creations| ==> CreatedBy(after[i], creations[i])
  {
    forall i | 0 <= i < |creations| ensures CreatedBy(after[i], creations[i]) {
      assert SameOrigin(before[i], after[i]);
    }
  }

  // ---------------------------------------------------------------- creation order

  ghost predicate ClaimsInOrder(s: State) {
    && (forall k, l :: 0 <= k < l < |s.claims| ==> s.claims[k] < s.claims[l])
    && (forall k :: 0 <= k < |s.claims| ==> s.claims[k] < |s.executions|)
    && (forall k, i :: 0 <= k < |s.claims| && 0 <= i <= s.claims[k] ==> s.executions[i].Claimed())
  }

  /** No execution that was created at the same time as `id`, or after it, was handed out. */
  ghost predicate NoneFrom(claims: seq<Id>, id: Id) {
    forall k :: 0 <= k < |claims| ==> claims[k] < id
  }

  /** The row that a status handler is about to save. */
  function Saving(s: State, call: nat): Execution
    requires Enabled(s, Save(call))
  {
    Merge(s.calls[call].row, s.calls[call].message.request)
  }

  /** A save leaves its row claimed, or neither this nor any younger execution was handed out yet. */
  ghost predicate KeepsOrder(s: State, e: Event) {
    e.Save? && Enabled(s, e) ==> Saving(s, e.call).Claimed() || NoneFrom(s.claims, s.calls[e.call].row.id)
  }

  lemma OrderStep(s: State, e: Event)
    requires Sound(s) && ClaimsInOrder(s) && KeepsOrder(s, e)
    ensures ClaimsInOrder(Apply(s, e))
  {
    if Enabled(s, e) {
      match e
      case Claim(_, _) => ClaimKeepsOrder(s, e);
      case Save(call) => SaveKeepsOrder(s, call);
      case Create(_, _, _, _, _) =>
      case Complete(_, _, _, _) =>
      case _ =>
    }
  }

  lemma ClaimKeepsOrder(s: State, e: Event)
    requires ClaimsInOrder(s) && e.Claim? && Enabled(s, e)
    ensures ClaimsInOrder(Apply(s, e))
  {
    var i := OldestUnclaimed(s.executions).value;
    forall k | 0 <= k < |s.claims| ensures s.claims[k] < i {
      assert !s.executions[i].Claimed();
    }
  }

  lemma SaveKeepsOrder(s: State, call: nat)
    requires Sound(s) && ClaimsInOrder(s) && Enabled(s, Save(call)) && KeepsOrder(s, Save(call))
    ensures ClaimsInOrder(Apply(s, Save(call)))
  {
    assert Matches(s.executions, s.calls[call].row);
  }

  lemma {:induction false} OrderRun(s: State, events: seq<Event>)
    requires Sound(s) && ClaimsInOrder(s) && Throughout(s, events, KeepsOrder)
    ensures Sound(After(s, events)) && ClaimsInOrder(After(s, events))
  {
    SoundRun(s, events);
    if events != [] {
      var before := events[..|events| - 1];
      OrderRun(s, before);
      OrderStep(After(s, before), events[|events| - 1]);
    }
  }

  /** Executions were handed out in creation order, each at most once, and those handed out are claimed. */
  ghost predicate HandedOutInOrder(s: State) {
    && (forall m, n :: 0 <= m < n < |s.claims| ==> s.claims[m] < s.claims[n])
    && (forall m :: 0 <= m < |s.claims| ==> s.claims[m] < |s.executions| && s.executions[s.claims[m]].Claimed())
    && (forall m, n :: 0 <= m < n < |s.claims| ==>
          s.executions[s.claims[m]].createdAt < s.executions[s.claims[n]].createdAt)
  }

  lemma OrderedClaims(s: State)
    requires Sound(s) && ClaimsInOrder(s)
    ensures HandedOutInOrder(s)
  {
  }

  /**
    Main result: whatever steps interleave, as long as no save unclaims an execution
    at or before one that was handed out, executions are handed out in creation
    order, each at most once.
   */
  lemma ClaimsAreOrderedAndUnique(events: seq<Event>)
    requires Throughout(INITIAL, events, KeepsOrder)
    ensures HandedOutInOrder(After(INITIAL, events))
  {
    OrderRun(INITIAL, events);
    OrderedClaims(After(INITIAL, events));
  }

  // ---------------------------------------------------------------- start times

  /** A save of a row that is claimed leaves it claimed. */
  ghost predicate KeepsClaim(s: State, e: Event) {
    e.Save? && Enabled(s, e) && s.executions[s.calls[e.call].row.id].Claimed() ==> Saving(s, e.call).Claimed()
  }

  lemma KeptClaimKeepsOrder(s: State, e: Event)
    requires ClaimsInOrder(s) && KeepsClaim(s, e)
    ensures KeepsOrder(s, e)
  {
    if e.Save? && Enabled(s, e) && !Saving(s, e.call).Claimed() {
      var id := s.calls[e.call].row.id;
      forall k | 0 <= k < |s.claims| ensures s.claims[k] < id {
        assert !s.executions[id].Claimed();
      }
    }
  }

  /** No row has lost its start time. */
  ghost predicate StaysClaimed(before: Table, after: Table) {
    && |before| <= |after|
    && (forall i :: 0 <= i < |before| && before[i].Claimed() ==> after[i].Claimed())
  }

  lemma ClaimedStep(s: State, e: Event)
    requires Sound(s) && KeepsClaim(s, e)
    ensures StaysClaimed(s.executions, Apply(s, e).executions)
  {
    SoundStep(s, e);
    if Enabled(s, e) {
      match e
      case Save(call) => assert Matches(s.executions, s.calls[call].row);
      case _ =>
    }
  }

  lemma {:induction false} ClaimedRun(s: State, events: seq<Event>)
    requires Sound(s) && ClaimsInOrder(s) && Throughout(s, events, KeepsClaim)
    ensures Throughout(s, events, KeepsOrder)
    ensures StaysClaimed(s.executions, After(s, events).executions)
  {
    if events != [] {
      var before, last := events[..|events| - 1], events[|events| - 1];
      ClaimedRun(s, before);
      OrderRun(s, before);
      KeptClaimKeepsOrder(After(s, before), last);
      ClaimedStep(After(s, before), last);
    }
  }

  /** When no save unclaims a row, a start time once set is never null again. */
  lemma StartTimesAreKept(first: seq<Event>, rest: seq<Event>)
    requires Throughout(INITIAL, first + rest, KeepsClaim)
    ensures StaysClaimed(After(INITIAL, first).executions, After(INITIAL, first + rest).executions)
    ensures Throughout(INITIAL, first + rest, KeepsOrder)
  {
    AfterConcat(INITIAL, first, rest);
    ThroughoutConcat(INITIAL, first, rest, KeepsClaim);
    ClaimedRun(INITIAL, first);
    OrderRun(INITIAL, first);
    ClaimedRun(After(INITIAL, first), rest);
    ThroughoutConcat(INITIAL, first, rest, KeepsOrder);
  }

  // ---------------------------------------------------------------- atomic status updates

  /** Every save that takes effect comes directly after the load of its copy. */
  ghost predicate SavesAtOnce(events: seq<Event>) {
    events == []
    || (var last := |events| - 1;
        && SavesAtOnce(events[..last])
        && (events[last].Save? && Enabled(After(INITIAL, events[..last]), events[last]) ==>
              last > 0 && LoadsFor(After(INITIAL, events[..last - 1]), events[last - 1], events[last].call)))
  }

  ghost predicate LoadsFor(s: State, e: Event, call: nat) {
    e.Load? && e.call == call && Enabled(s, e)
  }

  lemma FreshCopyKeepsClaim(s: State, load: Event, call: nat)
    requires Sound(s) && LoadsFor(s, load, call)
    ensures KeepsClaim(Apply(s, load), Save(call))
  {
    var i := Target(s, load.sender).value;
    assert s.executions[i].id == i;
  }

  lemma {:induction false} AtomicRunKeepsClaims(events: seq<Event>)
    requires SavesAtOnce(events)
    ensures Throughout(INITIAL, events, KeepsClaim)
  {
    if events != [] {
      var last := |events| - 1;
      AtomicRunKeepsClaims(events[..last]);
      if events[last].Save? && Enabled(After(INITIAL, events[..last]), events[last]) {
        SoundRun(INITIAL, events[..last - 1]);
        assert events[..last][..last - 1] == events[..last - 1];
        FreshCopyKeepsClaim(After(INITIAL, events[..last - 1]), events[last - 1], events[last].call);
      }
    }
  }

  /** If every status update is atomic, nothing else needs to be asked for. */
  lemma AtomicRunsAreOrdered(first: seq<Event>, rest: seq<Event>)
    requires SavesAtOnce(first + rest)
    ensures HandedOutInOrder(After(INITIAL, first + rest))
    ensures StaysClaimed(After(INITIAL, first).executions, After(INITIAL, first + rest).executions)
  {
    AtomicRunKeepsClaims(first + rest);
    StartTimesAreKept(first, rest);
    ClaimsAreOrderedAndUnique(first + rest);
  }

  // ---------------------------------------------------------------- a condition on loads

  /** A status handler loads a row that it will save as claimed: the row is, or the request says so. */
  ghost predicate LoadsClaimed(s: State, e: Event) {
    e.Load? && e.message.Update? && Enabled(s, e) ==>
      Merge(s.executions[Target(s, e.sender).value], e.message.request).Claimed()
  }

  ghost predicate CallsKeepClaims(s: State) {
    forall c :: c in s.calls && s.calls[c].message.Update? && !s.calls[c].saved ==>
      Merge(s.calls[c].row, s.calls[c].message.request).Claimed()
  }

  lemma CallsStep(s: State, e: Event)
    requires CallsKeepClaims(s) && LoadsClaimed(s, e)
    ensures CallsKeepClaims(Apply(s, e)) && KeepsClaim(s, e)
  {
    if Enabled(s, e) {
      match e
      case Load(_, _, _) =>
      case Save(_) =>
      case _ =>
    }
  }

  lemma {:induction false} LoadsClaimedRun(s: State, events: seq<Event>)
    requires CallsKeepClaims(s) && Throughout(s, events, LoadsClaimed)
    ensures CallsKeepClaims(After(s, events)) && Throughout(s, events, KeepsClaim)
  {
    if events != [] {
      LoadsClaimedRun(s, events[..|events| - 1]);
      CallsStep(After(s, events[..|events| - 1]), events[|events| - 1]);
    }
  }
}
