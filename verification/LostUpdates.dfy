/**
  Both conditions of `Routing.SavesAreAtomic` are needed: without the first a status
  update is lost, without the second a completion is. The runs start from nothing,
  draw new tokens and read increasing times.
 */
module LostUpdates {
  import opened Wrappers
  import opened Executions
  import opened Repositories
  import opened Protocol
  import opened Draining
  import opened Routing

  // ---------------------------------------------------------------- one task, run once

  /** The table holds one row, and its runner may send. */
  ghost predicate Alone(s: State) {
    && |s.executions| == 1 && s.executions[0].id == 0
    && s.executions[0].Claimed() && 0 in s.running
  }

  function Loading(call: nat, request: StatusRequest): Event {
    Load(call, 0, Update(request))
  }

  /** Created and claimed. */
  lemma Launched() returns (s: State)
    ensures s == Apply(Apply(INITIAL, FIRST_CREATE), FIRST_CLAIM)
    ensures Alone(s) && s.calls == map[]
    ensures s.executions[0] == ClaimRow(NewRow(0, 7, 1, "", 0, Token(0)), 1, Token(1))
  {
    hide Apply;
    var created := Apply(INITIAL, FIRST_CREATE);
    FirstCreation(created);
    ClaimOnlyRow(created, 1, Token(1));
    s := Apply(created, FIRST_CLAIM);
  }

  lemma LoadAlone(s: State, call: nat, request: StatusRequest)
    requires Alone(s) && call !in s.calls && request.Valid()
    ensures Apply(s, Loading(call, request)) ==
            s.(calls := s.calls[call := Call(0, Update(request), s.executions[0], false)])
  {
    assert Target(s, 0) == Some(0);
  }

  lemma SaveAlone(s: State, call: nat, request: StatusRequest, row: Execution)
    requires Alone(s) && call in s.calls && s.calls[call] == Call(0, Update(request), row, false)
    requires row.id == 0 && row.Claimed()
    ensures Enabled(s, Save(call))
    ensures var t := Apply(s, Save(call));
            && Alone(t) && t.executions == [Merge(row, request)]
            && t.calls == s.calls[call := s.calls[call].(saved := true)]
  {
  }

  lemma CompleteAlone(s: State, exitCode: int, error: string, now: Time)
    requires Alone(s)
    ensures Enabled(s, Complete(0, exitCode, error, now))
    ensures var t := Apply(s, Complete(0, exitCode, error, now));
            Alone(t) && t.executions == [Completed(s.executions[0], exitCode, error, now)] && t.calls == s.calls
  {
  }

  // ---------------------------------------------------------------- what such runs meet

  lemma {:induction false} OneCreation(events: seq<Event>)
    requires forall k :: 0 < k < |events| ==> !events[k].Create?
    ensures Throughout(INITIAL, events, NoOverlap)
  {
    if events != [] {
      OneCreation(events[..|events| - 1]);
    }
  }

  lemma {:induction false} NothingCompleted(events: seq<Event>)
    requires forall k :: 0 <= k < |events| ==> !events[k].Complete?
    ensures Throughout(INITIAL, events, LeavesClaimedAlone)
  {
    if events != [] {
      NothingCompleted(events[..|events| - 1]);
    }
  }

  lemma {:induction false} NoCallsWithoutLoads(events: seq<Event>)
    requires LoadsNothing(events)
    ensures After(INITIAL, events).calls == map[]
  {
    if events != [] {
      NoCallsWithoutLoads(events[..|events| - 1]);
    }
  }

  lemma {:induction false} OneLoad(events: seq<Event>, at: nat)
    requires forall k :: 0 <= k < |events| && k != at ==> !events[k].Load?
    ensures Throughout(INITIAL, events, WaitsForReply)
  {
    if events != [] {
      var last := |events| - 1;
      OneLoad(events[..last], at);
      if last == at {
        NoCallsWithoutLoads(events[..last]);
      }
    }
  }

  // ---------------------------------------------------------------- a status update is lost

  lemma FiveSteps(s: State, a: Event, b: Event, c: Event, d: Event, e: Event)
    ensures After(s, [a, b, c, d, e]) == Apply(Apply(Apply(Apply(Apply(s, a), b), c), d), e)
  {
    hide Apply;
    FourSteps(s, a, b, c, d);
    AfterLast(s, [a, b, c, d], e);
    assert [a, b, c, d] + [e] == [a, b, c, d, e];
  }

  function TwoUpdates(first: StatusRequest, second: StatusRequest): seq<Event> {
    [FIRST_CREATE, FIRST_CLAIM, Loading(0, first), Loading(1, second), Save(0)]
  }

  lemma TwoUpdatesAreQuiet(first: StatusRequest, second: StatusRequest)
    ensures var events := TwoUpdates(first, second) + [Save(1)];
      && Plausible(INITIAL, events)
      && Throughout(INITIAL, events, NoOverlap) && Throughout(INITIAL, events, LeavesClaimedAlone)
  {
    var events := TwoUpdates(first, second) + [Save(1)];
    OneCreation(events);
    NothingCompleted(events);
  }

  /**
    A runner that does not wait for the reply to its first update, which tells the
    container, before it sends a second one, which does not: once the second is
    saved, the row no longer says what it said after the first.
   */
  lemma UpdateIsLost(first: StatusRequest, second: StatusRequest)
    requires first.Valid() && second.Valid() && first.containerId != "" && second.containerId == ""
    ensures var before := TwoUpdates(first, second);
      var s := After(INITIAL, before);
      && Plausible(INITIAL, before + [Save(1)])
      && Throughout(INITIAL, before + [Save(1)], NoOverlap)
      && Throughout(INITIAL, before + [Save(1)], LeavesClaimedAlone)
      && Enabled(s, Save(1)) && !SavesAtomically(s, Save(1))
      && |s.executions| == 1 && s.executions[0].containerId == first.containerId
      && |After(INITIAL, before + [Save(1)]).executions| == 1
      && After(INITIAL, before + [Save(1)]).executions[0].containerId == ""
  {
    hide Apply;
    TwoUpdatesAreQuiet(first, second);
    var launched := Launched();
    var row := launched.executions[0];
    LoadAlone(launched, 0, first);
    var one := Apply(launched, Loading(0, first));
    LoadAlone(one, 1, second);
    var two := Apply(one, Loading(1, second));
    SaveAlone(two, 0, first, row);
    var s := Apply(two, Save(0));
    SaveAlone(s, 1, second, row);
    FiveSteps(INITIAL, FIRST_CREATE, FIRST_CLAIM, Loading(0, first), Loading(1, second), Save(0));
    AfterLast(INITIAL, TwoUpdates(first, second), Save(1));
    SaveIsAtomicIff(s, 1);
  }

  // ---------------------------------------------------------------- a completion is lost

  function InterruptedUpdate(request: StatusRequest, exitCode: int, error: string, now: Time): seq<Event> {
    [FIRST_CREATE, FIRST_CLAIM, Loading(0, request), Complete(0, exitCode, error, now)]
  }

  lemma InterruptedUpdateIsPlausible(request: StatusRequest, exitCode: int, error: string, now: Time)
    requires now > 1
    ensures Plausible(INITIAL, InterruptedUpdate(request, exitCode, error, now) + [Save(0)])
  {
  }

  lemma InterruptedUpdateIsQuiet(request: StatusRequest, exitCode: int, error: string, now: Time)
    requires now > 1
    ensures var events := InterruptedUpdate(request, exitCode, error, now) + [Save(0)];
      && Plausible(INITIAL, events)
      && Throughout(INITIAL, events, NoOverlap) && Throughout(INITIAL, events, WaitsForReply)
  {
    hide Plausible;
    var events := InterruptedUpdate(request, exitCode, error, now) + [Save(0)];
    InterruptedUpdateIsPlausible(request, exitCode, error, now);
    OneCreation(events);
    OneLoad(events, 2);
  }

  /**
    A completion between the load and the save of an update that carries no finish
    time: the row says that it finished, and after the save it does not.
   */
  lemma CompletionIsLost(request: StatusRequest, exitCode: int, error: string, now: Time)
    requires request.Valid() && request.finishedAt.None? && now > 1
    ensures var before := InterruptedUpdate(request, exitCode, error, now);
      var s := After(INITIAL, before);
      && Plausible(INITIAL, before + [Save(0)])
      && Throughout(INITIAL, before + [Save(0)], NoOverlap)
      && Throughout(INITIAL, before + [Save(0)], WaitsForReply)
      && Enabled(s, Save(0)) && !SavesAtomically(s, Save(0))
      && |s.executions| == 1 && s.executions[0].finishedAt == Some(now) && s.executions[0].exitCode == Some(exitCode)
      && |After(INITIAL, before + [Save(0)]).executions| == 1
      && After(INITIAL, before + [Save(0)]).executions[0].finishedAt == None
  {
    hide Apply;
    InterruptedUpdateIsQuiet(request, exitCode, error, now);
    var launched := Launched();
    var row := launched.executions[0];
    LoadAlone(launched, 0, request);
    var loaded := Apply(launched, Loading(0, request));
    CompleteAlone(loaded, exitCode, error, now);
    var s := Apply(loaded, Complete(0, exitCode, error, now));
    SaveAlone(s, 0, request, row);
    FourSteps(INITIAL, FIRST_CREATE, FIRST_CLAIM, Loading(0, request), Complete(0, exitCode, error, now));
    AfterLast(INITIAL, InterruptedUpdate(request, exitCode, error, now), Save(0));
    SaveIsAtomicIff(s, 0);
  }
}
