/**
  The row of an execution in the interleaved system. In orderly runs it follows the
  status updates that reach it as if they came one by one, so its status advances
  as the executor's states do, whatever else goes on and whatever is lost.
 */
module RowHistories {
  import opened Executions
  import opened Protocol
  import opened Routing
  import opened StatusUpdates
  import Docker = DockerExecutor

  // ---------------------------------------------------------------- updates of one execution

  /** The update that a step saves to an execution, if it does. */
  function SavedBy(s: State, e: Event, id: Id): seq<StatusRequest> {
    if e.Save? && Enabled(s, e) && s.calls[e.call].row.id == id then [s.calls[e.call].message.request] else []
  }

  /** The update that a step receives from the runner of an execution, if it does. */
  function LoadedBy(s: State, e: Event, id: Id): seq<StatusRequest> {
    if e.Load? && Enabled(s, e) && e.sender == id && e.message.Update? then [e.message.request] else []
  }

  function Saved(s: State, events: seq<Event>, id: Id): seq<StatusRequest> {
    if events == [] then []
    else
      var last := |events| - 1;
      Saved(s, events[..last], id) + SavedBy(After(s, events[..last]), events[last], id)
  }

  function Loaded(s: State, events: seq<Event>, id: Id): seq<StatusRequest> {
    if events == [] then []
    else
      var last := |events| - 1;
      Loaded(s, events[..last], id) + LoadedBy(After(s, events[..last]), events[last], id)
  }

  lemma {:induction false} SavedConcat(s: State, xs: seq<Event>, ys: seq<Event>, id: Id)
    ensures Saved(s, xs + ys, id) == Saved(s, xs, id) + Saved(After(s, xs), ys, id)
    decreases |ys|
  {
    if ys == [] {
      assert xs + ys == xs;
    } else {
      var last := |ys| - 1;
      assert (xs + ys)[..|xs + ys| - 1] == xs + ys[..last];
      AfterConcat(s, xs, ys[..last]);
      SavedConcat(s, xs, ys[..last], id);
    }
  }

  // ---------------------------------------------------------------- the row follows the saves

  /** The row that a history ends in. */
  function Final(row: Execution, requests: seq<StatusRequest>): Execution {
    var rows := History(row, requests);
    rows[|rows| - 1]
  }

  lemma FinalStep(row: Execution, requests: seq<StatusRequest>, more: seq<StatusRequest>)
    requires |more| <= 1
    ensures Final(row, requests + more)
         == if more == [] then Final(row, requests) else Merge(Final(row, requests), more[0])
  {
    if more == [] {
      assert requests + more == requests;
    } else {
      assert (requests + more)[..|requests + more| - 1] == requests;
    }
  }

  ghost predicate IsClaimed(s: State, id: Id) {
    id < |s.executions| && s.executions[id].Claimed()
  }

  /** A step changes a claimed row only by merging the update that it saves to it. */
  lemma RowStep(s: State, e: Event, id: Id)
    requires InOrder(s) && Orderly(s, e) && IsClaimed(s, id)
    ensures IsClaimed(Apply(s, e), id)
    ensures var saved := SavedBy(s, e, id);
      Apply(s, e).executions[id] == if saved == [] then s.executions[id] else Merge(s.executions[id], saved[0])
  {
    if Enabled(s, e) {
      RowsStayClaimed(s, e);
      match e
      case Save(call) => assert AwaitsSave(s.calls[call]);
      case _ =>
    }
  }

  /** In an orderly run, a claimed row is what the saves that reached it make of it, one by one. */
  lemma {:induction false} RowFollowsSaves(s: State, events: seq<Event>, id: Id)
    requires InOrder(s) && Throughout(s, events, Orderly) && IsClaimed(s, id)
    ensures IsClaimed(After(s, events), id)
    ensures After(s, events).executions[id] == Final(s.executions[id], Saved(s, events, id))
  {
    if events != [] {
      var before, e := events[..|events| - 1], events[|events| - 1];
      RowFollowsSaves(s, before, id);
      OrderlyRun(s, before);
      RowStep(After(s, before), e, id);
      FinalStep(s.executions[id], Saved(s, before, id), SavedBy(After(s, before), e, id));
    }
  }

  // ---------------------------------------------------------------- saves are some of the loads

  /** A status update of the execution is between its load and its save. */
  ghost predicate InFlight(s: State, c: nat, id: Id) {
    c in s.calls && AwaitsSave(s.calls[c]) && s.calls[c].sender == id
  }

  /** Which loads were saved; one in flight is the last load, and not saved yet. */
  ghost predicate Tallied(s: State, loaded: seq<StatusRequest>, saved: seq<StatusRequest>, arrived: seq<bool>, id: Id) {
    && |arrived| == |loaded| && saved == Kept(loaded, arrived)
    && (forall c :: InFlight(s, c, id) ==>
          loaded != [] && !arrived[|loaded| - 1] && s.calls[c].message.request == loaded[|loaded| - 1])
  }

  lemma KeptOneMore<T>(xs: seq<T>, arrived: seq<bool>, x: T, arrives: bool)
    requires |xs| == |arrived|
    ensures Kept(xs + [x], arrived + [arrives]) == Kept(xs, arrived) + if arrives then [x] else []
  {
    assert (xs + [x])[..|xs|] == xs && (arrived + [arrives])[..|xs|] == arrived;
  }

  lemma SavedLast<T>(xs: seq<T>, arrived: seq<bool>)
    requires xs != [] && |xs| == |arrived| && !arrived[|xs| - 1]
    ensures Kept(xs, arrived[|xs| - 1 := true]) == Kept(xs, arrived) + [xs[|xs| - 1]]
  {
    var n := |xs| - 1;
    assert arrived[n := true][..n] == arrived[..n];
    assert Kept(xs, arrived) == Kept(xs[..n], arrived[..n]) + [];
  }

  lemma TallyStep(s: State, e: Event, id: Id, loaded: seq<StatusRequest>, saved: seq<StatusRequest>, arrived: seq<bool>)
    returns (arrived': seq<bool>)
    requires InOrder(s) && Orderly(s, e) && Tallied(s, loaded, saved, arrived, id)
    ensures Tallied(Apply(s, e), loaded + LoadedBy(s, e, id), saved + SavedBy(s, e, id), arrived', id)
  {
    if LoadedBy(s, e, id) != [] {
      arrived' := arrived + [false];
      KeptOneMore(loaded, arrived, e.message.request, false);
      TallyLoad(s, e, id);
    } else if SavedBy(s, e, id) != [] {
      assert s.calls[e.call].row.id == s.calls[e.call].sender;
      assert InFlight(s, e.call, id);
      arrived' := arrived[|loaded| - 1 := true];
      SavedLast(loaded, arrived);
      assert loaded + [] == loaded;
      TallySave(s, e, id);
    } else {
      arrived' := arrived;
      assert loaded + [] == loaded && saved + [] == saved;
      TallyOther(s, e, id);
    }
  }

  lemma TallyLoad(s: State, e: Event, id: Id)
    requires Orderly(s, e) && LoadedBy(s, e, id) != []
    ensures forall c :: InFlight(Apply(s, e), c, id) ==> c == e.call && Apply(s, e).calls[c].message == e.message
  {
  }

  lemma TallySave(s: State, e: Event, id: Id)
    requires InOrder(s) && SavedBy(s, e, id) != []
    ensures forall c :: !InFlight(Apply(s, e), c, id)
  {
    assert AwaitsSave(s.calls[e.call]) && s.calls[e.call].row.id == s.calls[e.call].sender;
  }

  lemma TallyOther(s: State, e: Event, id: Id)
    requires LoadedBy(s, e, id) == [] && SavedBy(s, e, id) == []
    ensures forall c :: InFlight(Apply(s, e), c, id) ==> InFlight(s, c, id) && Apply(s, e).calls[c] == s.calls[c]
  {
    if Enabled(s, e) {
      match e
      case Load(_, _, _) =>
      case Save(_) =>
      case _ =>
    }
  }

  /** In an orderly run, the updates saved to an execution are some of those received for it, in the same order. */
  lemma {:induction false} SavesAreSomeLoads(s: State, events: seq<Event>, id: Id) returns (arrived: seq<bool>)
    requires InOrder(s) && Throughout(s, events, Orderly) && forall c :: !InFlight(s, c, id)
    ensures Tallied(After(s, events), Loaded(s, events, id), Saved(s, events, id), arrived, id)
  {
    if events == [] {
      arrived := [];
    } else {
      var before, e := events[..|events| - 1], events[|events| - 1];
      arrived := SavesAreSomeLoads(s, before, id);
      OrderlyRun(s, before);
      arrived := TallyStep(After(s, before), e, id, Loaded(s, before, id), Saved(s, before, id), arrived);
    }
  }

  // ---------------------------------------------------------------- the status advances

  /** What arrives of what was sent of a sequence is some of that sequence. */
  lemma {:induction false} KeptTwice<T>(xs: seq<T>, sent: seq<bool>, arrived: seq<bool>) returns (both: seq<bool>)
    requires |xs| == |sent| && |arrived| == |Kept(xs, sent)|
    ensures |both| == |xs| && Kept(xs, both) == Kept(Kept(xs, sent), arrived)
    decreases |xs|
  {
    if xs == [] {
      both := [];
    } else {
      var n := |xs| - 1;
      var before := Kept(xs[..n], sent[..n]);
      var m := |before|;
      assert xs[..n] + [xs[n]] == xs;
      var some := KeptTwice(xs[..n], sent[..n], arrived[..m]);
      if sent[n] {
        assert Kept(xs, sent) == before + [xs[n]];
        assert arrived[..m] + [arrived[m]] == arrived;
        KeptOneMore(before, arrived[..m], xs[n], arrived[m]);
        KeptOneMore(xs[..n], some, xs[n], arrived[m]);
        both := some + [arrived[m]];
      } else {
        assert Kept(xs, sent) == before + [] == before;
        assert arrived[..m] == arrived;
        KeptOneMore(xs[..n], some, xs[n], false);
        assert Kept(xs[..n], some) + [] == Kept(xs[..n], some);
        both := some + [false];
      }
    }
  }

  lemma {:induction false} HistoryAt(row: Execution, requests: seq<StatusRequest>, i: nat)
    requires i <= |requests|
    ensures History(row, requests)[i] == Final(row, requests[..i])
    decreases |requests|
  {
    if i == |requests| {
      assert requests[..i] == requests;
    } else {
      HistoryAt(row, requests[..|requests| - 1], i);
      assert requests[..|requests| - 1][..i] == requests[..i];
    }
  }

  /** The updates that the server received are callback updates of one complete run, in order; some may be missing. */
  ghost predicate FollowsRun(loaded: seq<StatusRequest>, trace: seq<Docker.Snapshot>, clock: nat -> Time,
                             sent: seq<bool>,
                             imageRef: string, docker: Docker.Docker, inputs: nat) {
    && Docker.CompleteRun(trace, imageRef, docker, inputs)
    && |sent| == |trace| && loaded == Kept(Requests(trace, clock), sent)
  }

  /**
    Main result: in an orderly run, from a claimed row on, while anything else happens
    and any updates are lost before or after they reach the server: whenever an update
    was saved and another one is, the row's status strictly advances in the executor's
    order and was not terminal, and no field of the row is ever cleared.
   */
  lemma InterleavedStatusAdvances(s: State, first: seq<Event>, rest: seq<Event>, id: Id,
                                  trace: seq<Docker.Snapshot>, clock: nat -> Time, sent: seq<bool>,
                                  imageRef: string, docker: Docker.Docker, inputs: nat)
    requires InOrder(s) && IsClaimed(s, id) && forall c :: !InFlight(s, c, id)
    requires Throughout(s, first + rest, Orderly)
    requires FollowsRun(Loaded(s, first + rest, id), trace, clock, sent, imageRef, docker, inputs)
    ensures IsClaimed(After(s, first), id) && IsClaimed(After(s, first + rest), id)
    ensures var early, late := After(s, first).executions[id], After(s, first + rest).executions[id];
      && NothingCleared(early, late)
      && (Saved(s, first, id) != [] && Saved(After(s, first), rest, id) != [] ==>
            Rank(early.status) < Rank(late.status) && !early.status.Terminal())
  {
    ThroughoutConcat(s, first, rest, Orderly);
    RowFollowsSaves(s, first, id);
    RowFollowsSaves(s, first + rest, id);
    SavedConcat(s, first, rest, id);
    var arrived := SavesAreSomeLoads(s, first + rest, id);
    var both := KeptTwice(Requests(trace, clock), sent, arrived);
    HistoryAdvances(s.executions[id], Saved(s, first, id), Saved(After(s, first), rest, id), trace, clock, both,
                    imageRef, docker, inputs);
  }

  lemma HistoryAdvances(row: Execution, first: seq<StatusRequest>, rest: seq<StatusRequest>,
                        trace: seq<Docker.Snapshot>, clock: nat -> Time, arrived: seq<bool>,
                        imageRef: string, docker: Docker.Docker, inputs: nat)
    requires Docker.CompleteRun(trace, imageRef, docker, inputs) && |arrived| == |trace|
    requires first + rest == Kept(Requests(trace, clock), arrived)
    ensures var early, late := Final(row, first), Final(row, first + rest);
      && NothingCleared(early, late)
      && (first != [] && rest != [] ==> Rank(early.status) < Rank(late.status) && !early.status.Terminal())
  {
    hide Docker.CompleteRun, NothingCleared;
    var requests := first + rest;
    HistoryAt(row, requests, |first|);
    HistoryAt(row, requests, |requests|);
    assert requests[..|first|] == first && requests[..|requests|] == requests;
    HistoryClearsNothing(row, requests, |first|, |requests|);
    if first != [] && rest != [] {
      StatusOnlyAdvances(row, trace, clock, arrived, imageRef, docker, inputs, |first|, |requests|);
    }
  }

  /** An update with a terminal status is the last of a complete run, so it arrived. */
  lemma TerminalIsLast(trace: seq<Docker.Snapshot>, clock: nat -> Time, arrived: seq<bool>,
                       imageRef: string, docker: Docker.Docker, inputs: nat)
    requires Docker.CompleteRun(trace, imageRef, docker, inputs) && |arrived| == |trace|
    requires var requests := Kept(Requests(trace, clock), arrived);
      requests != [] && requests[|requests| - 1].status.Terminal()
    ensures arrived[|trace| - 1]
  {
    hide Docker.CompleteRun;
    var requests := Kept(Requests(trace, clock), arrived);
    var p := KeptOrigin(Requests(trace, clock), arrived, |requests| - 1);
    OnlyLastIsTerminal(trace, imageRef, docker, inputs, p);
  }

  lemma OnlyLastIsTerminal(trace: seq<Docker.Snapshot>, imageRef: string, docker: Docker.Docker, inputs: nat, p: nat)
    requires Docker.CompleteRun(trace, imageRef, docker, inputs) && p < |trace|
    ensures trace[p].state.Terminal() <==> p == |trace| - 1
  {
  }

  lemma FinalStatus(row: Execution, requests: seq<StatusRequest>)
    ensures Final(row, requests).status == if requests == [] then row.status else requests[|requests| - 1].status
  {
  }

  /**
    In an orderly run, once the status of an execution is terminal, its row agrees with
    the executor's last snapshot, whatever else was lost.
   */
  lemma TerminalRowAgrees(s: State, events: seq<Event>, id: Id, trace: seq<Docker.Snapshot>, clock: nat -> Time,
                          sent: seq<bool>, imageRef: string, docker: Docker.Docker, inputs: nat)
    requires InOrder(s) && IsClaimed(s, id) && forall c :: !InFlight(s, c, id)
    requires !s.executions[id].status.Terminal() && Throughout(s, events, Orderly)
    requires FollowsRun(Loaded(s, events, id), trace, clock, sent, imageRef, docker, inputs)
    ensures IsClaimed(After(s, events), id)
    ensures var row := After(s, events).executions[id];
      row.status.Terminal() ==> Agrees(row, s.executions[id], Docker.FinalSnapshot(imageRef, docker, inputs))
  {
    RowFollowsSaves(s, events, id);
    if After(s, events).executions[id].status.Terminal() {
      var arrived := SavesAreSomeLoads(s, events, id);
      var both := KeptTwice(Requests(trace, clock), sent, arrived);
      FinalStatus(s.executions[id], Saved(s, events, id));
      TerminalIsLast(trace, clock, both, imageRef, docker, inputs);
      LastUpdateDecides(s.executions[id], trace, clock, both, imageRef, docker, inputs);
    }
  }
}
