/**
  Draining the queue, and the runs that show that the conditions of `ClaimSafety`
  are exact. In those runs every claim draws a token never used before and reads a
  later time than the one before.
 */
module Draining {
  import opened Wrappers
  import opened Executions
  import opened Repositories
  import opened Protocol
  import opened ClaimSafety

  // ---------------------------------------------------------------- the waiting list

  ghost predicate Ascending(ids: seq<Id>) {
    forall k, l :: 0 <= k < l < |ids| ==> ids[k] < ids[l]
  }

  /** An ascending sequence is determined by its elements. */
  lemma {:induction false} AscendingUnique(xs: seq<Id>, ys: seq<Id>)
    requires Ascending(xs) && Ascending(ys)
    requires forall i :: i in xs <==> i in ys
    ensures xs == ys
  {
    if xs == [] {
      assert forall k :: 0 <= k < |ys| ==> ys[k] in ys;
    } else {
      assert xs[0] in ys;
      assert ys[0] in xs;
      assert xs[0] == ys[0];
      forall i ensures i in xs[1..] <==> i in ys[1..] {
        if i in xs[1..] { assert i in ys && i != ys[0]; }
        if i in ys[1..] { assert i in xs && i != xs[0]; }
      }
      AscendingUnique(xs[1..], ys[1..]);
    }
  }

  lemma WithoutFirst(ids: seq<Id>, i: Id)
    requires Ascending(ids) && ids != []
    ensures i in ids[1..] <==> i in ids && i != ids[0]
  {
  }

  lemma OldestIsFirst(table: Table)
    ensures OldestUnclaimed(table).None? <==> Unclaimed(table) == []
    ensures Unclaimed(table) != [] ==> OldestUnclaimed(table) == Some(Unclaimed(table)[0])
  {
    var ids := Unclaimed(table);
    if OldestUnclaimed(table).Some? {
      assert OldestUnclaimed(table).value in ids;
    }
    if ids != [] {
      assert ids[0] in ids;
    }
  }

  /** One claim hands out the head of the waiting list, and nothing when it is empty. */
  lemma ClaimTakesFirst(table: Table, now: Time, token: string)
    ensures OldestUnclaimed(table).None? <==> Unclaimed(table) == []
    ensures Unclaimed(table) != [] ==>
              && OldestUnclaimed(table) == Some(Unclaimed(table)[0])
              && var i := Unclaimed(table)[0];
                 Unclaimed(table[i := ClaimRow(table[i], now, token)]) == Unclaimed(table)[1..]
  {
    OldestIsFirst(table);
    var ids := Unclaimed(table);
    if ids != [] {
      assert ids[0] in ids;
      ClaimedOneLess(table, ids[0], ClaimRow(table[ids[0]], now, token));
    }
  }

  lemma ClaimedOneLess(table: Table, first: Id, row: Execution)
    requires Unclaimed(table) != [] && first == Unclaimed(table)[0] && first < |table| && row.Claimed()
    ensures Unclaimed(table[first := row]) == Unclaimed(table)[1..]
  {
    var ids, next := Unclaimed(table), Unclaimed(table[first := row]);
    forall i ensures i in next <==> i in ids[1..] {
      WithoutFirst(ids, i);
    }
    AscendingUnique(next, ids[1..]);
  }

  // ---------------------------------------------------------------- any sequence of claims

  /** How many events of a run are enabled. */
  function Succeeding(s: State, events: seq<Event>): (n: nat)
    ensures n <= |events|
  {
    if events == [] then 0
    else
      var last := |events| - 1;
      Succeeding(s, events[..last]) + if Enabled(After(s, events[..last]), events[last]) then 1 else 0
  }

  /** The first `k` waiting executions of `s` have been handed out in `t`, oldest first, and nothing else. */
  ghost predicate Served(s: State, t: State, k: nat) {
    var waiting := Unclaimed(s.executions);
    && k <= |waiting|
    && t.claims == s.claims + waiting[..k]
    && Unclaimed(t.executions) == waiting[k..]
    && t.calls == s.calls
    && |t.executions| == |s.executions|
  }

  lemma ClaimStep(s: State, e: Event)
    requires e.Claim? && Enabled(s, e)
    ensures Served(s, Apply(s, e), 1)
  {
    ClaimTakesFirst(s.executions, e.now, e.token);
    var waiting := Unclaimed(s.executions);
    assert waiting[..1] == [waiting[0]];
  }

  lemma ServedOneMore(s: State, m: State, t: State, k: nat)
    requires Served(s, m, k) && Served(m, t, 1)
    ensures Served(s, t, k + 1)
  {
    var waiting := Unclaimed(s.executions);
    var rest := waiting[k..];
    assert rest[..1] == [waiting[k]];
    assert waiting[..k] + [waiting[k]] == waiting[..k + 1];
    assert rest[1..] == waiting[k + 1..];
    assert s.claims + waiting[..k] + [waiting[k]] == s.claims + (waiting[..k] + [waiting[k]]);
  }

  /**
    Any calls of NextTask, each with its own clock and token: those that succeed
    return the first waiting executions, oldest first; the others change nothing.
   */
  lemma {:induction false} Drain(s: State, events: seq<Event>)
    requires forall e :: e in events ==> e.Claim?
    ensures Served(s, After(s, events), Succeeding(s, events))
    decreases |events|
  {
    if events == [] {
      var waiting := Unclaimed(s.executions);
      assert waiting[..0] == [] && waiting[0..] == waiting;
      assert s.claims + [] == s.claims;
    } else {
      var before, e := events[..|events| - 1], events[|events| - 1];
      assert forall f :: f in before ==> f in events;
      Drain(s, before);
      if Enabled(After(s, before), e) {
        ClaimStep(After(s, before), e);
        ServedOneMore(s, After(s, before), After(s, events), Succeeding(s, before));
      }
    }
  }

  /** A claim fails only for want of a waiting execution. */
  ghost predicate Granted(s: State, e: Event) {
    e.Claim? && (OldestUnclaimed(s.executions).Some? ==> Enabled(s, e))
  }

  function Min(a: nat, b: nat): nat {
    if a <= b then a else b
  }

  lemma GrantedNext(s: State, m: State, e: Event, k: nat)
    requires Served(s, m, k) && Granted(m, e)
    ensures Enabled(m, e) <==> k < |Unclaimed(s.executions)|
  {
    OldestIsFirst(m.executions);
  }

  /** When no token is refused, k calls serve the first min(k, n) of n waiting executions. */
  lemma {:induction false} GrantedClaimsSucceed(s: State, events: seq<Event>)
    requires Throughout(s, events, Granted)
    ensures forall e :: e in events ==> e.Claim?
    ensures Succeeding(s, events) == Min(|events|, |Unclaimed(s.executions)|)
    decreases |events|
  {
    if events != [] {
      var before, e := events[..|events| - 1], events[|events| - 1];
      GrantedClaimsSucceed(s, before);
      Drain(s, before);
      GrantedNext(s, After(s, before), e, Succeeding(s, before));
      forall f | f in events ensures f.Claim? {
        assert f in before || f == e;
      }
    }
  }

  // ---------------------------------------------------------------- plausible runs

  /** The clock reading of an event of the server. */
  function Now(e: Event): Option<Time> {
    match e
    case Create(_, _, _, now, _) => Some(now)
    case Claim(now, _) => Some(now)
    case Complete(_, _, _, now) => Some(now)
    case _ => None
  }

  /** The token that an event draws. */
  function Drawn(e: Event): Option<string> {
    match e
    case Create(_, _, _, _, token) => Some(token)
    case Claim(_, token) => Some(token)
    case _ => None
  }

  ghost predicate Unused(s: State, token: string) {
    && (forall i :: 0 <= i < |s.executions| ==> s.executions[i].runnerToken != token)
    && (forall c :: c in s.calls ==> s.calls[c].row.runnerToken != token)
  }

  /** The server's clock goes on, and no token is drawn twice. */
  ghost predicate Plausible(s: State, events: seq<Event>) {
    && (forall k, i :: 0 <= k < |events| && Now(events[k]).Some? && 0 <= i < |s.executions| ==>
          s.executions[i].createdAt < Now(events[k]).value)
    && (forall k, l :: 0 <= k < l < |events| && Now(events[k]).Some? && Now(events[l]).Some? ==>
          Now(events[k]).value < Now(events[l]).value)
    && (forall k :: 0 <= k < |events| && Drawn(events[k]).Some? ==> Unused(s, Drawn(events[k]).value))
    && (forall k, l :: 0 <= k < l < |events| && Drawn(events[k]).Some? && Drawn(events[l]).Some? ==>
          Drawn(events[k]).value != Drawn(events[l]).value)
  }

  /** A supply of tokens: one of each length. */
  function Token(n: nat): (token: string)
    ensures |token| == n
  {
    if n == 0 then [] else Token(n - 1) + ['x']
  }

  /** Tokens in use are shorter, and rows were created earlier. */
  ghost predicate Before(s: State, start: Time, length: nat) {
    && (forall i :: 0 <= i < |s.executions| ==>
          |s.executions[i].runnerToken| < length && s.executions[i].createdAt < start)
    && (forall c :: c in s.calls ==> |s.calls[c].row.runnerToken| < length)
  }

  /** Claims of increasing times and tokens, and saves. */
  ghost predicate Spelled(events: seq<Event>, start: Time, length: nat, n: nat) {
    && (forall k :: 0 <= k < |events| ==> events[k].Claim? || events[k].Save?)
    && (forall k :: 0 <= k < |events| && events[k].Claim? ==>
          start <= events[k].now < start + n && length <= |events[k].token| < length + n)
    && (forall k, l :: 0 <= k < l < |events| && events[k].Claim? && events[l].Claim? ==>
          events[k].now < events[l].now && |events[k].token| < |events[l].token|)
  }

  lemma SpelledIsPlausible(s: State, events: seq<Event>, start: Time, length: nat, n: nat)
    requires Before(s, start, length) && Spelled(events, start, length, n)
    ensures Plausible(s, events)
  {
  }

  lemma SpelledConcat(xs: seq<Event>, ys: seq<Event>, start: Time, length: nat, m: nat, n: nat)
    requires Spelled(xs, start, length, m) && Spelled(ys, start + m, length + m, n)
    ensures Spelled(xs + ys, start, length, m + n)
  {
  }

  /** A time and a length that suit a state. */
  lemma StartBefore(s: State) returns (start: Time, length: nat)
    ensures Before(s, start, length)
  {
    start, length := TableBefore(s.executions);
    var l := CallsBefore(s.calls);
    length := length + l;
  }

  lemma {:induction false} TableBefore(table: Table) returns (start: Time, length: nat)
    ensures forall i :: 0 <= i < |table| ==> |table[i].runnerToken| < length && table[i].createdAt < start
  {
    if table == [] {
      start, length := 0, 0;
    } else {
      var last := table[|table| - 1];
      start, length := TableBefore(table[..|table| - 1]);
      assert forall i :: 0 <= i < |table| - 1 ==> table[i] == table[..|table| - 1][i];
      if start <= last.createdAt { start := last.createdAt + 1; }
      length := length + |last.runnerToken| + 1;
    }
  }

  lemma {:induction false} CallsBefore(calls: map<nat, Call>) returns (length: nat)
    ensures forall c :: c in calls ==> |calls[c].row.runnerToken| < length
    decreases |calls.Keys|
  {
    if calls.Keys == {} {
      length := 0;
    } else {
      var c :| c in calls;
      assert (calls - {c}).Keys == calls.Keys - {c};
      length := CallsBefore(calls - {c});
      forall d | d in calls && d != c ensures |calls[d].row.runnerToken| < length {
        assert d in calls - {c} && (calls - {c})[d] == calls[d];
      }
      length := length + |calls[c].row.runnerToken| + 1;
    }
  }

  /** Rows keep their tokens or get long ones. */
  ghost predicate NewTokens(s: State, t: State, length: nat) {
    && |t.executions| == |s.executions|
    && forall i :: 0 <= i < |s.executions| ==>
         t.executions[i].runnerToken == s.executions[i].runnerToken || length <= |t.executions[i].runnerToken|
  }

  lemma NewTokensGrow(s: State, m: State, t: State, length: nat, longer: nat)
    requires NewTokens(s, m, length) && NewTokens(m, t, longer) && length <= longer
    ensures NewTokens(s, t, length)
  {
  }

  /** Claims that are all granted, and after which there are more. */
  ghost predicate GrantedRun(s: State, events: seq<Event>, start: Time, length: nat) {
    var n := |events|;
    && Spelled(events, start, length, n) && Throughout(s, events, Granted)
    && Before(After(s, events), start + n, length + n)
    && NewTokens(s, After(s, events), length)
  }

  lemma {:induction false} GrantedClaims(s: State, start: Time, length: nat, n: nat) returns (events: seq<Event>)
    requires Before(s, start, length)
    ensures |events| == n && GrantedRun(s, events, start, length)
  {
    if n == 0 {
      events := [];
    } else {
      var before := GrantedClaims(s, start, length, n - 1);
      events := OneMoreGranted(s, before, start, length);
    }
  }

  lemma OneMoreGranted(s: State, before: seq<Event>, start: Time, length: nat) returns (events: seq<Event>)
    requires GrantedRun(s, before, start, length)
    ensures |events| == |before| + 1 && GrantedRun(s, events, start, length)
  {
    var n := |before|;
    var m, e := After(s, before), Claim(start + n, Token(length + n));
    events := before + [e];
    GrantedStep(m, e, length + n);
    NewTokensGrow(s, m, Apply(m, e), length, length + n);
    ThroughoutLast(s, before, e, Granted);
    SpelledConcat(before, [e], start, length, n, 1);
  }

  lemma GrantedStep(s: State, e: Event, length: nat)
    requires e.Claim? && Before(s, e.now, length) && |e.token| == length
    ensures Granted(s, e)
    ensures Before(Apply(s, e), e.now + 1, length + 1) && NewTokens(s, Apply(s, e), length)
  {
  }

  /** Draining with a supply of tokens serves all that wait. */
  lemma DrainAll(s: State, start: Time, length: nat) returns (events: seq<Event>)
    requires Before(s, start, length)
    ensures Spelled(events, start, length, |s.executions|) && forall e :: e in events ==> e.Claim?
    ensures var t := After(s, events);
            && t.claims == s.claims + Unclaimed(s.executions) && t.calls == s.calls
            && NewTokens(s, t, length) && Before(t, start + |s.executions|, length + |s.executions|)
  {
    hide Apply, Before, NewTokens, Spelled;
    events := GrantedClaims(s, start, length, |s.executions|);
    GrantedClaimsSucceed(s, events);
    UnclaimedCount(s.executions);
    Drain(s, events);
    AllServed(s, After(s, events), |Unclaimed(s.executions)|);
  }

  lemma AllServed(s: State, t: State, k: nat)
    requires Served(s, t, k) && k == |Unclaimed(s.executions)|
    ensures t.claims == s.claims + Unclaimed(s.executions) && t.calls == s.calls
  {
    var waiting := Unclaimed(s.executions);
    assert waiting[..k] == waiting;
  }

  lemma {:induction false} UnclaimedCount(table: Table)
    ensures |Unclaimed(table)| <= |table|
  {
    if table != [] {
      UnclaimedCount(table[..|table| - 1]);
    }
  }

  // ---------------------------------------------------------------- the condition on saves is exact

  /** A continuation by saves that keep the order hands executions out in order. */
  ghost predicate StaysOrdered(s: State, rest: seq<Event>) {
    Throughout(s, rest, KeepsOrder) ==> Ascending(After(s, rest).claims)
  }

  lemma ClaimsKeepOrder(s: State, events: seq<Event>)
    requires forall e :: e in events ==> e.Claim?
    ensures Throughout(s, events, KeepsOrder) && Throughout(s, events, LoadsClaimed)
    decreases |events|
  {
    if events != [] {
      var before, e := events[..|events| - 1], events[|events| - 1];
      assert forall f :: f in before ==> f in events;
      assert e in events;
      ClaimsKeepOrder(s, before);
    }
  }

  /**
    The condition is exact. At the end of an ordered run, a save is harmless in all
    continuations if and only if it leaves its row claimed or neither this execution
    nor a younger one was handed out; if it is not, a continuation that draws new
    tokens and reads later times shows it.
   */
  lemma SaveIsHarmlessIff(s: State, call: nat)
    requires Sound(s) && ClaimsInOrder(s) && Enabled(s, Save(call))
    ensures KeepsOrder(s, Save(call)) ==> forall rest :: StaysOrdered(Apply(s, Save(call)), rest)
    ensures !KeepsOrder(s, Save(call)) ==>
              exists rest :: Plausible(Apply(s, Save(call)), rest) && !StaysOrdered(Apply(s, Save(call)), rest)
  {
    var t := Apply(s, Save(call));
    SoundStep(s, Save(call));
    if KeepsOrder(s, Save(call)) {
      OrderStep(s, Save(call));
      forall rest ensures StaysOrdered(t, rest) {
        if Throughout(t, rest, KeepsOrder) {
          OrderRun(t, rest);
        }
      }
    } else {
      var id := s.calls[call].row.id;
      var k :| 0 <= k < |s.claims| && id <= s.claims[k];
      assert !t.executions[id].Claimed();
      var rest := LateHandOut(t, id, k);
      assert Plausible(t, rest) && !StaysOrdered(t, rest);
    }
  }

  /** An execution that waits although one at or after it was handed out can be handed out next. */
  lemma LateHandOut(s: State, id: Id, k: nat) returns (rest: seq<Event>)
    requires id < |s.executions| && !s.executions[id].Claimed()
    requires k < |s.claims| && id <= s.claims[k]
    ensures Plausible(s, rest) && Throughout(s, rest, KeepsOrder) && !Ascending(After(s, rest).claims)
  {
    var start, length := StartBefore(s);
    rest := DrainAll(s, start, length);
    SpelledIsPlausible(s, rest, start, length, |s.executions|);
    ClaimsKeepOrder(s, rest);
    assert id in Unclaimed(s.executions);
    NotAscending(s.claims, Unclaimed(s.executions), k, id);
  }

  lemma NotAscending(claims: seq<Id>, more: seq<Id>, k: nat, id: Id)
    requires k < |claims| && id <= claims[k] && id in more
    ensures !Ascending(claims + more)
  {
    var l :| 0 <= l < |more| && more[l] == id;
    assert (claims + more)[k] == claims[k] && (claims + more)[|claims| + l] == id;
  }

  // ---------------------------------------------------------------- the condition on loads is exact

  /** How often an execution was handed out. */
  function HandOuts(claims: seq<Id>, id: Id): nat {
    multiset(claims)[id]
  }

  /** A status handler in flight whose save would leave its row unclaimed. */
  ghost predicate StaleCall(s: State, call: nat) {
    Enabled(s, Save(call)) && !Saving(s, call).Claimed()
  }

  /** A run of saves and claims only. */
  ghost predicate LoadsNothing(events: seq<Event>) {
    forall k :: 0 <= k < |events| ==> !events[k].Load?
  }

  lemma {:induction false} LoadingNothingIsClaimed(s: State, events: seq<Event>)
    requires LoadsNothing(events)
    ensures Throughout(s, events, LoadsClaimed)
    decreases |events|
  {
    if events != [] {
      LoadingNothingIsClaimed(s, events[..|events| - 1]);
    }
  }

  /** Draining a state in which an execution waits hands it out. */
  lemma DrainServes(s: State, start: Time, length: nat, id: Id) returns (events: seq<Event>)
    requires Before(s, start, length)
    requires id < |s.executions| && !s.executions[id].Claimed()
    ensures Spelled(events, start, length, |s.executions|) && LoadsNothing(events)
    ensures var t := After(s, events);
            && t.calls == s.calls && NewTokens(s, t, length)
            && Before(t, start + |s.executions|, length + |s.executions|)
            && HandOuts(t.claims, id) >= HandOuts(s.claims, id) + 1
  {
    events := DrainAll(s, start, length);
    var waiting := Unclaimed(s.executions);
    assert id in waiting;
    assert multiset(s.claims + waiting) == multiset(s.claims) + multiset(waiting);
  }

  lemma SaveKeepsBefore(s: State, call: nat, start: Time, length: nat)
    requires Sound(s) && Before(s, start, length) && Enabled(s, Save(call))
    ensures Before(Apply(s, Save(call)), start, length)
    ensures var t := Apply(s, Save(call));
      |t.executions| == |s.executions| && t.claims == s.claims && t.executions[s.calls[call].row.id] == Saving(s, call)
  {
    assert Matches(s.executions, s.calls[call].row);
  }

  /** Saving an unclaimed copy puts the execution back in the queue, and draining serves it. */
  lemma SaveThenDrain(s: State, call: nat, start: Time, length: nat) returns (events: seq<Event>)
    requires Sound(s) && StaleCall(s, call) && Before(s, start, length)
    ensures Spelled(events, start, length, |s.executions|) && LoadsNothing(events)
    ensures var id := s.calls[call].row.id;
            HandOuts(After(s, events).claims, id) >= HandOuts(s.claims, id) + 1
  {
    hide Apply, Before;
    var saved := Apply(s, Save(call));
    SaveKeepsBefore(s, call, start, length);
    var drain := DrainServes(saved, start, length, s.calls[call].row.id);
    assert Spelled([Save(call)], start, length, 0);
    SpelledConcat([Save(call)], drain, start, length, 0, |s.executions|);
    events := [Save(call)] + drain;
    AfterLast(s, [], Save(call));
    assert [] + [Save(call)] == [Save(call)];
    AfterConcat(s, [Save(call)], drain);
  }

  /** Claims with new tokens leave a handler in flight able to save. */
  lemma StaysStale(s: State, t: State, call: nat, start: Time, length: nat)
    requires StaleCall(s, call) && Before(s, start, length)
    requires t.calls == s.calls && NewTokens(s, t, length)
    ensures StaleCall(t, call)
  {
  }

  lemma DrainSaveDrain(s: State, call: nat, start: Time, length: nat) returns (events: seq<Event>)
    requires Sound(s) && StaleCall(s, call) && Before(s, start, length)
    requires !s.executions[s.calls[call].row.id].Claimed()
    ensures Spelled(events, start, length, 2 * |s.executions|) && LoadsNothing(events)
    ensures HandOuts(After(s, events).claims, s.calls[call].row.id) >= 2
  {
    hide Apply, Before, Sound, NewTokens;
    var n := |s.executions|;
    var first := DrainServes(s, start, length, s.calls[call].row.id);
    var served := After(s, first);
    SoundRun(s, first);
    StaysStale(s, served, call, start, length);
    var second := SaveThenDrain(served, call, start + n, length + n);
    AfterConcat(s, first, second);
    SpelledConcat(first, second, start, length, n, n);
    events := first + second;
  }

  /**
    A handler about to save an unclaimed copy, of an execution that waits or has been
    handed out, can be continued into a run that hands this execution out again.
   */
  lemma StaleCallRepeatsClaim(s: State, call: nat) returns (events: seq<Event>)
    requires Sound(s) && StaleCall(s, call)
    requires !s.executions[s.calls[call].row.id].Claimed() || s.calls[call].row.id in s.claims
    ensures Plausible(s, events) && LoadsNothing(events)
    ensures HandOuts(After(s, events).claims, s.calls[call].row.id) >= 2
  {
    var start, length := StartBefore(s);
    if s.executions[s.calls[call].row.id].Claimed() {
      events := SaveThenDrain(s, call, start, length);
      SpelledIsPlausible(s, events, start, length, |s.executions|);
    } else {
      events := DrainSaveDrain(s, call, start, length);
      SpelledIsPlausible(s, events, start, length, 2 * |s.executions|);
    }
  }

  lemma {:induction false} AscendingHasNoRepeat(ids: seq<Id>, id: Id)
    requires Ascending(ids)
    ensures HandOuts(ids, id) <= 1
  {
    if ids != [] {
      var before, last := ids[..|ids| - 1], ids[|ids| - 1];
      AscendingHasNoRepeat(before, id);
      assert ids == before + [last];
      if id == last {
        assert id !in before by {
          assert forall k :: 0 <= k < |before| ==> before[k] == ids[k] < last;
        }
        assert id !in multiset(before);
      }
    }
  }

  /** A continuation whose status handlers load rows that they will save as claimed repeats no hand-out. */
  ghost predicate RepeatsNothing(s: State, rest: seq<Event>) {
    Throughout(s, rest, LoadsClaimed) ==> forall id :: HandOuts(After(s, rest).claims, id) <= 1
  }

  lemma GoodRestRepeatsNothing(s: State, rest: seq<Event>)
    requires Sound(s) && ClaimsInOrder(s) && CallsKeepClaims(s)
    ensures RepeatsNothing(s, rest)
  {
    if Throughout(s, rest, LoadsClaimed) {
      LoadsClaimedRun(s, rest);
      ClaimedRun(s, rest);
      OrderRun(s, rest);
      forall id ensures HandOuts(After(s, rest).claims, id) <= 1 {
        AscendingHasNoRepeat(After(s, rest).claims, id);
      }
    }
  }

  /**
    What a handler can check when it loads: after a run in which all status handlers
    loaded rows they would save as claimed, one more load is harmless in all
    continuations if and only if it does so too.
   */
  lemma LoadIsHarmlessIffClaimed(s: State, e: Event)
    requires Sound(s) && ClaimsInOrder(s) && CallsKeepClaims(s)
    requires e.Load? && e.message.Update? && Enabled(s, e)
    ensures LoadsClaimed(s, e) ==> forall rest :: RepeatsNothing(Apply(s, e), rest)
    ensures !LoadsClaimed(s, e) ==> exists rest :: Plausible(Apply(s, e), rest) && !RepeatsNothing(Apply(s, e), rest)
  {
    var t := Apply(s, e);
    SoundStep(s, e);
    if LoadsClaimed(s, e) {
      CallsStep(s, e);
      OrderStep(s, e);
      forall rest ensures RepeatsNothing(t, rest) {
        GoodRestRepeatsNothing(t, rest);
      }
    } else {
      LoadedIsStale(s, e);
      var rest := StaleCallRepeatsClaim(t, e.call);
      LoadingNothingIsClaimed(t, rest);
      assert Plausible(t, rest) && !RepeatsNothing(t, rest);
    }
  }

  lemma LoadedIsStale(s: State, e: Event)
    requires Sound(s) && e.Load? && e.message.Update? && Enabled(s, e) && !LoadsClaimed(s, e)
    ensures var t := Apply(s, e);
            StaleCall(t, e.call) && !t.executions[t.calls[e.call].row.id].Claimed()
  {
    var i := Target(s, e.sender).value;
    assert s.executions[i].id == i;
  }

  // ---------------------------------------------------------------- such a handler exists

  lemma FourSteps(s: State, a: Event, b: Event, c: Event, d: Event)
    ensures After(s, [a, b, c, d]) == Apply(Apply(Apply(Apply(s, a), b), c), d)
  {
    AfterLast(s, [], a);
    assert [] + [a] == [a] && [a] + [b] == [a, b] && [a, b] + [c] == [a, b, c] && [a, b, c] + [d] == [a, b, c, d];
    AfterLast(s, [a], b);
    AfterLast(s, [a, b], c);
    AfterLast(s, [a, b, c], d);
  }

  lemma CreateAppends(s: State, e: Event)
    requires e.Create? && Enabled(s, e)
    ensures var row := NewRow(|s.executions|, e.taskId, e.userId, e.parameters, e.now, e.token);
      Apply(s, e) == s.(executions := s.executions + [row])
  {
  }

  lemma ClaimOnlyRow(s: State, now: Time, token: string)
    requires |s.executions| == 1 && !s.executions[0].Claimed() && s.finished == {}
    ensures Enabled(s, Claim(now, token))
    ensures Apply(s, Claim(now, token)) ==
            s.(executions := [ClaimRow(s.executions[0], now, token)],
               running := s.running + {0}, claims := s.claims + [0])
  {
  }

  /** The sender's task has a younger execution, which is the one loaded. */
  lemma LateLoad(s: State, call: nat, request: StatusRequest)
    requires |s.executions| == 2 && s.executions[0].taskId == s.executions[1].taskId
    requires s.executions[0].runnerToken != s.executions[1].runnerToken
    requires s.executions[1].id == 1 && !s.executions[1].Claimed()
    requires 0 in s.running && call !in s.calls && request.Valid() && request.startedAt.None?
    ensures var t := Apply(s, Load(call, 0, Update(request)));
            StaleCall(t, call) && t.calls[call].row.id == 1 && t.executions == s.executions
  {
    assert Target(s, 0) == Some(1);
    var e := Load(call, 0, Update(request));
    assert NextCalls(s, e)[call] == Call(0, Update(request), s.executions[1], false);
  }

  /* A task is created, claimed and created again; then a late message comes in. */

  const FIRST_CREATE := Create(7, 1, "", 0, Token(0))
  const FIRST_CLAIM := Claim(1, Token(1))
  const SECOND_CREATE := Create(7, 1, "", 2, Token(2))

  function Late(call: nat, request: StatusRequest): Event {
    Load(call, 0, Update(request))
  }

  function LateTable(): Table {
    [ClaimRow(NewRow(0, 7, 1, "", 0, Token(0)), 1, Token(1)), NewRow(1, 7, 1, "", 2, Token(2))]
  }

  lemma LateEventsArePlausible(call: nat, request: StatusRequest)
    ensures Plausible(INITIAL, [FIRST_CREATE, FIRST_CLAIM, SECOND_CREATE, Late(call, request)])
  {
  }

  lemma FirstCreation(s: State)
    requires s == Apply(INITIAL, FIRST_CREATE)
    ensures s == INITIAL.(executions := [NewRow(0, 7, 1, "", 0, Token(0))])
  {
    CreateAppends(INITIAL, FIRST_CREATE);
  }

  lemma SecondCreation(s: State, t: State)
    requires |s.executions| == 1 && s.executions[0] == LateTable()[0]
    requires t == Apply(s, SECOND_CREATE)
    ensures t == s.(executions := LateTable())
  {
    CreateAppends(s, SECOND_CREATE);
    assert s.executions + [LateTable()[1]] == LateTable();
  }

  lemma LateCreations() returns (s: State)
    ensures s == Apply(Apply(Apply(INITIAL, FIRST_CREATE), FIRST_CLAIM), SECOND_CREATE)
    ensures s == INITIAL.(executions := LateTable(), running := {0}, claims := [0])
  {
    hide Apply;
    var created := Apply(INITIAL, FIRST_CREATE);
    FirstCreation(created);
    ClaimOnlyRow(created, 1, Token(1));
    var claimed := Apply(created, FIRST_CLAIM);
    s := Apply(claimed, SECOND_CREATE);
    SecondCreation(claimed, s);
  }

  /**
    A late message of a task's first execution makes the server load the second one.
    The run draws three tokens and reads three times.
   */
  lemma StaleCallIsReachable(call: nat, request: StatusRequest) returns (events: seq<Event>)
    requires request.Valid() && request.startedAt.None?
    ensures Plausible(INITIAL, events) && TokensDiffer(After(INITIAL, events).executions)
    ensures var s := After(INITIAL, events);
            StaleCall(s, call) && !s.executions[s.calls[call].row.id].Claimed()
  {
    events := [FIRST_CREATE, FIRST_CLAIM, SECOND_CREATE, Late(call, request)];
    LateEventsArePlausible(call, request);
    SoundRun(INITIAL, events);
    FourSteps(INITIAL, FIRST_CREATE, FIRST_CLAIM, SECOND_CREATE, Late(call, request));
    var s := LateCreations();
    LateLoad(s, call, request);
  }
}
