/**
  Seeders that run once: each leaves a marker row in the transaction that
  commits its effect.
 */
module Seeding {
  import opened Wrappers
  import opened Transactions

  type Time = int

  /** The seeded data, and the marker rows with the time each seeder ran. */
  datatype Database<D> = Database(data: D, markers: map<string, Time>)

  datatype Seeder<!D> = Seeder(id: string, effect: D -> D)

  /** Where a run of a seeder's transaction fails, if anywhere. */
  datatype Fault =
    | Healthy
    | AtCount(error: Error) | AtEffect(error: Error) | AtMarker(error: Error) | AtCommit(error: Error)

  /** One call: the fault that meets each seeder, and the time its marker would get. */
  datatype Weather = Weather(fault: nat -> Fault, now: nat -> Time)

  /** The body of one seeder's transaction: the state it leaves behind, even when it fails, and its error. */
  function SeedBody<D>(seeder: Seeder<D>, force: bool, fault: Fault, now: Time, db: Database<D>)
    : (Database<D>, Option<Error>)
  {
    if fault.AtCount? then (db, Some(fault.error))
    else if !force && seeder.id in db.markers then (db, None)
    else
      var executed := db.(data := seeder.effect(db.data));
      if fault.AtEffect? then (executed, Some(fault.error))
      else if fault.AtMarker? then (executed, Some(fault.error))
      else (executed.(markers := db.markers[seeder.id := now]), None)
  }

  function SeedWork<D>(seeder: Seeder<D>, force: bool, fault: Fault, now: Time): Work<Database<D>> {
    Work((k: nat, db: Database<D>) => SeedBody(seeder, force, fault, now, db),
         (k: nat) => if fault.AtCommit? then Some(fault.error) else None)
  }

  /** A seeder's transaction: its outcome, committed or rolled back. */
  function Committed<D>(seeder: Seeder<D>, force: bool, fault: Fault, now: Time, db: Database<D>)
    : (Database<D>, Option<Error>)
  {
    var error := AttemptError(SeedWork(seeder, force, fault, now), db, 0);
    (if error.None? then SeedBody(seeder, force, fault, now, db).0 else db, error)
  }

  /**
    A seeder that ran already does nothing unless forced. Any other runs, and leaves its
    effect and its marker together, or, if anything fails, neither; the failure is told.
   */
  lemma SeederOutcome<D>(seeder: Seeder<D>, force: bool, fault: Fault, now: Time, db: Database<D>)
    ensures var (after, error) := Committed(seeder, force, fault, now, db);
      var skipped := !force && seeder.id in db.markers;
      && (fault == Healthy ==> error == None)
      && (fault.AtCount? || fault.AtCommit? ==> error == Some(fault.error))
      && (fault.AtEffect? || fault.AtMarker? ==> error == if skipped then None else Some(fault.error))
      && after == if error.Some? || skipped then db
                  else Database(seeder.effect(db.data), db.markers[seeder.id := now])
  {
  }

  /** The first `n` seeders in turn, stopping at the first error. */
  function Run<D>(seeders: seq<Seeder<D>>, force: bool, weather: Weather, db: Database<D>, n: nat)
    : (Database<D>, Option<Error>)
    requires n <= |seeders|
  {
    if n == 0 then (db, None)
    else
      var before := Run(seeders, force, weather, db, n - 1);
      if before.1.Some? then before
      else Committed(seeders[n - 1], force, weather.fault(n - 1), weather.now(n - 1), before.0)
  }

  lemma {:induction false} RunStops<D>(seeders: seq<Seeder<D>>, force: bool, weather: Weather, db: Database<D>,
                                       m: nat, n: nat)
    requires m <= n <= |seeders| && Run(seeders, force, weather, db, m).1.Some?
    ensures Run(seeders, force, weather, db, n) == Run(seeders, force, weather, db, m)
  {
    if m < n {
      RunStops(seeders, force, weather, db, m, n - 1);
    }
  }

  /** Seeding lists no error code, so a seeder's transaction is tried once. */
  method SeedOne<D>(store: Store<Database<D>>, force: bool, seeder: Seeder<D>, fault: Fault, now: Time)
    returns (error: Option<Error>)
    modifies store`state
    ensures store.migrationError.Some? ==> error == store.migrationError && store.state == old(store.state)
    ensures store.migrationError.None? ==>
      (store.state, error) == Committed(seeder, force, fault, now, old(store.state))
  {
    ghost var runs, slept;
    error, runs, slept := store.WithRetry(SeedWork(seeder, force, fault, now), []);
  }

  /** Seeders run one after another, up to the first error. */
  method Seed<D>(store: Store<Database<D>>, force: bool, seeders: seq<Seeder<D>>, weather: Weather)
    returns (error: Option<Error>)
    modifies store`state
    ensures seeders == [] ==> error.None? && store.state == old(store.state)
    ensures store.migrationError.Some? && seeders != [] ==>
      error == store.migrationError && store.state == old(store.state)
    ensures store.migrationError.None? ==>
      (store.state, error) == Run(seeders, force, weather, old(store.state), |seeders|)
  {
    hide Committed;
    var i := 0;
    while i < |seeders|
      invariant i <= |seeders|
      invariant i > 0 ==> store.migrationError.None?
      invariant (store.state, None) == Run(seeders, force, weather, old(store.state), i)
    {
      error := SeedOne(store, force, seeders[i], weather.fault(i), weather.now(i));
      i := i + 1;
      if error.Some? {
        if store.migrationError.None? {
          RunStops(seeders, force, weather, old(store.state), i, |seeders|);
        }
        return;
      }
    }
    error := None;
  }

  // ---------------------------------------------------------------- histories

  ghost predicate Distinct<D(!new)>(seeders: seq<Seeder<D>>) {
    forall i, j :: 0 <= i < j < |seeders| ==> seeders[i].id != seeders[j].id
  }

  /** The effects of the first `n` seeders, in order. */
  function Composed<D>(seeders: seq<Seeder<D>>, data: D, n: nat): D
    requires n <= |seeders|
  {
    if n == 0 then data else seeders[n - 1].effect(Composed(seeders, data, n - 1))
  }

  /** Exactly the first `n` seeders have taken effect, once each and in order, and exactly they are marked. */
  ghost predicate Progress<D(!new)>(seeders: seq<Seeder<D>>, data: D, db: Database<D>, n: nat) {
    && n <= |seeders|
    && db.data == Composed(seeders, data, n)
    && forall i :: 0 <= i < |seeders| ==> (seeders[i].id in db.markers <==> i < n)
  }

  lemma SeederStep<D(!new)>(seeders: seq<Seeder<D>>, data: D, db: Database<D>, n: nat, i: nat, fault: Fault, now: Time)
    returns (n': nat)
    requires Distinct(seeders) && Progress(seeders, data, db, n) && i < |seeders| && i <= n
    ensures n <= n'
    ensures var (after, error) := Committed(seeders[i], false, fault, now, db);
      Progress(seeders, data, after, n') && (error.None? ==> i < n')
  {
    n' := if i == n && Committed(seeders[i], false, fault, now, db).1.None? then n + 1 else n;
  }

  lemma {:induction false} RunProgress<D(!new)>(seeders: seq<Seeder<D>>, data: D, db: Database<D>, n: nat,
                                                weather: Weather, i: nat)
    returns (n': nat)
    requires Distinct(seeders) && Progress(seeders, data, db, n) && i <= |seeders|
    ensures n <= n'
    ensures var (after, error) := Run(seeders, false, weather, db, i);
      Progress(seeders, data, after, n') && (error.None? ==> i <= n')
  {
    if i == 0 {
      n' := n;
    } else {
      n' := RunProgress(seeders, data, db, n, weather, i - 1);
      var before := Run(seeders, false, weather, db, i - 1);
      if before.1.None? {
        n' := SeederStep(seeders, data, before.0, n', i - 1, weather.fault(i - 1), weather.now(i - 1));
      }
    }
  }

  /** The database after a history of calls, each in its own weather. */
  function After<D>(seeders: seq<Seeder<D>>, db: Database<D>, history: seq<Weather>): Database<D> {
    if history == [] then db
    else Run(seeders, false, history[|history| - 1], After(seeders, db, history[..|history| - 1]), |seeders|).0
  }

  /** The answer of the last call of a history. */
  function LastError<D>(seeders: seq<Seeder<D>>, db: Database<D>, history: seq<Weather>): Option<Error>
    requires history != []
  {
    Run(seeders, false, history[|history| - 1], After(seeders, db, history[..|history| - 1]), |seeders|).1
  }

  /**
    Over any history of calls, failing anywhere, the seeders that took effect are
    a prefix of the list, each took effect once, and they are the marked ones;
    once a call succeeds, they are all of them.
   */
  lemma {:induction false} SeedersRunOnce<D(!new)>(seeders: seq<Seeder<D>>, db: Database<D>, history: seq<Weather>)
    returns (n: nat)
    requires Distinct(seeders)
    requires forall i :: 0 <= i < |seeders| ==> seeders[i].id !in db.markers
    ensures Progress(seeders, db.data, After(seeders, db, history), n)
    ensures forall k :: 0 < k <= |history| && LastError(seeders, db, history[..k]).None? ==> n == |seeders|
    decreases |history|
  {
    if history == [] {
      n := 0;
    } else {
      var last := |history| - 1;
      var before := SeedersRunOnce(seeders, db, history[..last]);
      n := RunProgress(seeders, db.data, After(seeders, db, history[..last]), before, history[last], |seeders|);
      forall k | 0 < k <= |history| && LastError(seeders, db, history[..k]).None?
        ensures n == |seeders|
      {
        if k == |history| {
          assert history[..k] == history;
        } else {
          assert history[..last][..k] == history[..k];
        }
      }
    }
  }

  /** Marker rows of others, and the time a seeder ran, are never changed. */
  lemma {:induction false} MarkersAreKept<D(!new)>(seeders: seq<Seeder<D>>, db: Database<D>, weather: Weather, n: nat,
                                                   id: string)
    requires n <= |seeders| && id in db.markers
    ensures var after := Run(seeders, false, weather, db, n).0;
      id in after.markers && after.markers[id] == db.markers[id]
  {
    if n > 0 {
      MarkersAreKept(seeders, db, weather, n - 1, id);
    }
  }

  /** Forced seeding runs every seeder again, marked or not, up to the first failure. */
  lemma {:induction false} ForcedSeedersAllRun<D(!new)>(seeders: seq<Seeder<D>>, db: Database<D>, weather: Weather,
                                                        n: nat)
    requires n <= |seeders|
    requires Run(seeders, true, weather, db, n).1.None?
    ensures var after := Run(seeders, true, weather, db, n).0;
      && after.data == Composed(seeders, db.data, n)
      && forall i :: 0 <= i < n ==> seeders[i].id in after.markers
  {
    if n > 0 {
      ForcedSeedersAllRun(seeders, db, weather, n - 1);
    }
  }

  /** A marker that a call leaves is an old one, or that of a seeder of this call, with the time the call gives it. */
  lemma {:induction false} MarkersSayWhen<D(!new)>(seeders: seq<Seeder<D>>, force: bool, db: Database<D>,
                                                   weather: Weather, n: nat, id: string)
    requires n <= |seeders|
    requires id in Run(seeders, force, weather, db, n).0.markers
    ensures var time := Run(seeders, force, weather, db, n).0.markers[id];
      || (id in db.markers && db.markers[id] == time)
      || exists i :: 0 <= i < n && seeders[i].id == id && weather.now(i) == time
  {
    if n > 0 && id in Run(seeders, force, weather, db, n - 1).0.markers {
      MarkersSayWhen(seeders, force, db, weather, n - 1, id);
    }
  }

  /** A forced call dates the marker of every seeder that it ran. */
  lemma {:induction false} ForcedMarkersAreDated<D(!new)>(seeders: seq<Seeder<D>>, db: Database<D>, weather: Weather,
                                                          n: nat, i: nat)
    requires Distinct(seeders) && i < n <= |seeders|
    requires Run(seeders, true, weather, db, n).1.None?
    ensures var after := Run(seeders, true, weather, db, n).0;
      seeders[i].id in after.markers && after.markers[seeders[i].id] == weather.now(i)
  {
    if i < n - 1 {
      ForcedMarkersAreDated(seeders, db, weather, n - 1, i);
    }
  }
}
