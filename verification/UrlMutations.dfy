/**
  Mutations of a URL's query. Deleting values compacts the list in place, as the
  library routine does, and a second deletion under the same key starts from the
  list at its old length.
 */
module UrlMutations {
  import opened Wrappers

  /** The values of each key of a query, in order. */
  type Query = map<string, seq<string>>

  const ALL := "*"

  /** The list without the occurrences of a value. */
  function Without(values: seq<string>, d: string): (kept: seq<string>)
    ensures |kept| <= |values|
  {
    if values == [] then []
    else
      var last := values[|values| - 1];
      Without(values[..|values| - 1], d) + if last == d then [] else [last]
  }

  function Blanks(n: nat): (blanks: seq<string>)
    ensures |blanks| == n
  {
    if n == 0 then [] else Blanks(n - 1) + [""]
  }

  lemma {:induction false} AllBlank(values: seq<string>)
    requires forall i :: 0 <= i < |values| ==> values[i] == ""
    ensures values == Blanks(|values|)
  {
    if values != [] {
      AllBlank(values[..|values| - 1]);
      assert values == values[..|values| - 1] + [values[|values| - 1]];
    }
  }

  /** A value is kept iff it is there and is not the deleted one. */
  lemma {:induction false} WithoutMembers(values: seq<string>, d: string, v: string)
    ensures v in Without(values, d) <==> v in values && v != d
  {
    if values != [] {
      WithoutMembers(values[..|values| - 1], d, v);
      assert values == values[..|values| - 1] + [values[|values| - 1]];
    }
  }

  lemma WithoutNext(values: seq<string>, d: string, j: nat)
    requires j < |values|
    ensures Without(values[..j + 1], d) == Without(values[..j], d) + if values[j] == d then [] else [values[j]]
  {
    assert values[..j + 1][..j] == values[..j];
  }

  // ---------------------------------------------------------------- deletion in place

  /** A list filled up with blanks. */
  function Padded(kept: seq<string>, length: nat): (after: seq<string>)
    requires |kept| <= length
    ensures |after| == length
  {
    kept + Blanks(length - |kept|)
  }

  /** What a deletion leaves in the whole array: the kept values, then blanks. */
  function Compacted(values: seq<string>, d: string): (after: seq<string>)
    ensures |after| == |values|
  {
    Padded(Without(values, d), |values|)
  }

  lemma {:induction false} WithoutAbsent(values: seq<string>, d: string)
    requires d !in values
    ensures Without(values, d) == values
  {
    if values != [] {
      WithoutAbsent(values[..|values| - 1], d);
      assert values == values[..|values| - 1] + [values[|values| - 1]];
    }
  }

  method IndexOf(values: array<string>, d: string) returns (i: nat)
    ensures i <= values.Length
    ensures d !in values[..i]
    ensures i < values.Length ==> values[i] == d
  {
    i := 0;
    while i < values.Length && values[i] != d
      invariant i <= values.Length
      invariant d !in values[..i]
    {
      i := i + 1;
    }
  }

  method Clear(values: array<string>, n: nat)
    requires n <= values.Length
    modifies values
    ensures values[..n] == old(values[..n])
    ensures values[n..] == Blanks(values.Length - n)
  {
    var i := n;
    while i < values.Length
      invariant n <= i <= values.Length
      invariant values[..n] == old(values[..n])
      invariant forall k :: n <= k < i ==> values[k] == ""
    {
      values[i] := "";
      i := i + 1;
    }
    AllBlank(values[n..]);
  }

  /** Moves the values to keep, of those from the first deleted one on, to the front. */
  method Compact(values: array<string>, d: string, first: nat) returns (n: nat)
    requires first < values.Length && values[first] == d && d !in values[..first]
    modifies values
    ensures n < values.Length
    ensures values[..n] == Without(old(values[..]), d)
  {
    ghost var was := values[..];
    n := first;
    var j := first + 1;
    WithoutAbsent(was[..first], d);
    WithoutNext(was, d, first);
    while j < values.Length
      invariant n < j <= values.Length
      invariant values[..n] == Without(was[..j], d)
      invariant forall k :: j <= k < values.Length ==> values[k] == was[k]
    {
      WithoutNext(was, d, j);
      if values[j] != d {
        ghost var kept := values[..n];
        values[n] := values[j];
        assert values[..n + 1] == kept + [was[j]];
        n := n + 1;
      }
      j := j + 1;
    }
    assert was[..j] == was;
  }

  /** `slices.DeleteFunc`: keeps the other values in order, blanks the tail, and returns how many are kept. */
  method DeleteFunc(values: array<string>, d: string) returns (n: nat)
    modifies values
    ensures n <= values.Length
    ensures values[..n] == Without(old(values[..]), d)
    ensures values[..] == Compacted(old(values[..]), d)
  {
    n := IndexOf(values, d);
    if n == values.Length {
      assert values[..n] == values[..];
      WithoutAbsent(values[..], d);
      return;
    }
    n := Compact(values, d, n);
    Clear(values, n);
    assert values[..] == values[..n] + values[n..];
  }

  /** The array after deletions one after another, each from the old length. */
  function CompactedAll(values: seq<string>, ds: seq<string>): (after: seq<string>)
    ensures |after| == |values|
  {
    if ds == [] then values else Compacted(CompactedAll(values, ds[..|ds| - 1]), ds[|ds| - 1])
  }

  /** The list left under a key by deletions one after another; `*` deletes the key. */
  function Deleted(values: seq<string>, ds: seq<string>): Option<seq<string>> {
    if ALL in ds then None
    else if ds == [] then Some(values)
    else Some(Without(CompactedAll(values, ds[..|ds| - 1]), ds[|ds| - 1]))
  }

  method DeleteValues(values: array<string>, ds: seq<string>) returns (left: Option<seq<string>>)
    modifies values
    ensures left == Deleted(old(values[..]), ds)
  {
    left := Some(values[..]);
    var i := 0;
    while i < |ds|
      invariant i <= |ds|
      invariant ALL !in ds[..i]
      invariant values[..] == CompactedAll(old(values[..]), ds[..i])
      invariant left == Deleted(old(values[..]), ds[..i])
    {
      if ds[i] == ALL {
        return None;
      }
      assert ds[..i + 1][..i] == ds[..i];
      var n := DeleteFunc(values, ds[i]);
      left := Some(values[..n]);
      i := i + 1;
    }
    assert ds[..i] == ds;
  }

  // ---------------------------------------------------------------- what several deletions really leave

  function WithoutAll(values: seq<string>, ds: seq<string>): (kept: seq<string>)
    ensures |kept| <= |values|
  {
    if ds == [] then values else Without(WithoutAll(values, ds[..|ds| - 1]), ds[|ds| - 1])
  }

  lemma {:induction false} WithoutConcat(xs: seq<string>, ys: seq<string>, d: string)
    ensures Without(xs + ys, d) == Without(xs, d) + Without(ys, d)
    decreases |ys|
  {
    if ys == [] {
      assert xs + ys == xs;
    } else {
      var last := |ys| - 1;
      assert (xs + ys)[..|xs + ys| - 1] == xs + ys[..last];
      WithoutConcat(xs, ys[..last], d);
    }
  }

  lemma {:induction false} WithoutBlanks(n: nat, d: string)
    ensures Without(Blanks(n), d) == if d == "" then [] else Blanks(n)
  {
    if n > 0 {
      assert Blanks(n)[..n - 1] == Blanks(n - 1);
      WithoutBlanks(n - 1, d);
    }
  }

  lemma {:induction false} BlanksConcat(m: nat, n: nat)
    ensures Blanks(m) + Blanks(n) == Blanks(m + n)
  {
    if n > 0 {
      BlanksConcat(m, n - 1);
      assert Blanks(m) + Blanks(n) == (Blanks(m) + Blanks(n - 1)) + [""];
    } else {
      assert Blanks(m) + [] == Blanks(m);
    }
  }

  lemma WithoutPadded(kept: seq<string>, length: nat, d: string)
    requires |kept| <= length
    ensures Without(Padded(kept, length), d) == Without(kept, d) + if d == "" then [] else Blanks(length - |kept|)
  {
    WithoutConcat(kept, Blanks(length - |kept|), d);
    WithoutBlanks(length - |kept|, d);
  }

  lemma PaddedTwice(kept: seq<string>, blanks: nat, length: nat)
    requires |kept| + blanks <= length
    ensures Padded(kept + Blanks(blanks), length) == Padded(kept, length)
  {
    var more := length - |kept| - blanks;
    assert |kept + Blanks(blanks)| == |kept| + blanks;
    BlanksConcat(blanks, more);
    ConcatAssociates(kept, Blanks(blanks), Blanks(more));
  }

  lemma ConcatAssociates(xs: seq<string>, ys: seq<string>, zs: seq<string>)
    ensures xs + ys + zs == xs + (ys + zs)
  {
  }

  lemma CompactedStep(kept: seq<string>, length: nat, d: string)
    requires |kept| <= length
    ensures Compacted(Padded(kept, length), d) == Padded(Without(kept, d), length)
  {
    WithoutPadded(kept, length, d);
    if d == "" {
      assert Without(kept, d) + [] == Without(kept, d);
    } else {
      PaddedTwice(Without(kept, d), length - |kept|, length);
    }
  }

  /** Deletions one after another leave the kept values and, for each deleted one, a blank. */
  lemma {:induction false} CompactedAllIs(values: seq<string>, ds: seq<string>)
    ensures CompactedAll(values, ds) == Padded(WithoutAll(values, ds), |values|)
    decreases |ds|
  {
    if ds == [] {
      assert values + [] == values;
    } else {
      var before, d := ds[..|ds| - 1], ds[|ds| - 1];
      CompactedAllIs(values, before);
      CompactedStep(WithoutAll(values, before), |values|, d);
    }
  }

  /** Several deletions under one key leave a blank for each value that one of the first deletions removed. */
  lemma DeletedIs(values: seq<string>, ds: seq<string>)
    requires ds != [] && ALL !in ds
    ensures var before, d := ds[..|ds| - 1], ds[|ds| - 1];
      Deleted(values, ds) ==
        Some(WithoutAll(values, ds) + if d == "" then [] else Blanks(|values| - |WithoutAll(values, before)|))
  {
    var before, d := ds[..|ds| - 1], ds[|ds| - 1];
    CompactedAllIs(values, before);
    WithoutPadded(WithoutAll(values, before), |values|, d);
  }

  /** The deletions do what they say iff only the last one removes anything, or the last one removes blanks. */
  lemma DeletedCleanlyIff(values: seq<string>, ds: seq<string>)
    requires ds != [] && ALL !in ds
    ensures Deleted(values, ds) == Some(WithoutAll(values, ds)) <==>
            ds[|ds| - 1] == "" || forall d :: d in ds[..|ds| - 1] ==> d !in values
  {
    var before := ds[..|ds| - 1];
    DeletedIs(values, ds);
    NothingRemovedIff(values, before);
    var blanks := Blanks(|values| - |WithoutAll(values, before)|);
    assert WithoutAll(values, ds) + [] == WithoutAll(values, ds);
    assert |blanks| > 0 ==> |WithoutAll(values, ds) + blanks| > |WithoutAll(values, ds)|;
    assert |blanks| == 0 ==> WithoutAll(values, ds) + blanks == WithoutAll(values, ds);
  }

  lemma WithoutOne(v: string, d: string)
    ensures Without([v], d) == if v == d then [] else [v]
  {
    assert [v][..0] == [] && Without([], d) == [];
  }

  lemma WithoutTwo(v: string, w: string, d: string)
    ensures Without([v, w], d) == (if v == d then [] else [v]) + if w == d then [] else [w]
  {
    assert [v, w] == [v] + [w];
    WithoutConcat([v], [w], d);
    WithoutOne(v, d);
    WithoutOne(w, d);
  }

  /** Deleting both values of a key one after the other leaves a blank behind. */
  lemma TwoDeletionsLeaveABlank(v: string, w: string)
    requires v != w && v != ALL && w != ALL && w != ""
    ensures Deleted([v, w], [v, w]) == Some([""])
  {
    WithoutTwo(v, w, v);
    AllBlank([""]);
    assert Compacted([v, w], v) == [w, ""];
    assert [v][..0] == [] && [v, w][..1] == [v];
    assert CompactedAll([v, w], []) == [v, w];
    assert CompactedAll([v, w], [v]) == [w, ""];
    WithoutTwo(w, "", w);
  }

  lemma {:induction false} NothingRemovedIff(values: seq<string>, ds: seq<string>)
    ensures |WithoutAll(values, ds)| == |values| <==> forall d :: d in ds ==> d !in values
    ensures |WithoutAll(values, ds)| == |values| ==> WithoutAll(values, ds) == values
    decreases |ds|
  {
    if ds != [] {
      var before, d := ds[..|ds| - 1], ds[|ds| - 1];
      NothingRemovedIff(values, before);
      assert forall e :: e in ds <==> e in before || e == d;
      WithoutSmallerIff(WithoutAll(values, before), d);
      if d !in values {
        if WithoutAll(values, before) == values {
          WithoutAbsent(values, d);
        }
      }
    }
  }

  lemma {:induction false} WithoutSmallerIff(values: seq<string>, d: string)
    ensures |Without(values, d)| == |values| <==> d !in values
    ensures d !in values ==> Without(values, d) == values
  {
    if d !in values {
      WithoutAbsent(values, d);
    } else if values[|values| - 1] != d {
      WithoutSmallerIff(values[..|values| - 1], d);
      assert d in values[..|values| - 1];
    }
  }

  // ---------------------------------------------------------------- key/value pairs

  /** A list of pairs, grouped by key in order of appearance. */
  function Pairs(kv: seq<string>): Query
    requires |kv| % 2 == 0
  {
    if kv == [] then map[]
    else
      var before, key, value := Pairs(kv[..|kv| - 2]), kv[|kv| - 2], kv[|kv| - 1];
      before[key := (if key in before then before[key] else []) + [value]]
  }

  lemma PairsNext(kv: seq<string>, idx: nat)
    requires idx % 2 == 1 && idx < |kv|
    ensures var before, key := Pairs(kv[..idx - 1]), kv[idx - 1];
      Pairs(kv[..idx + 1]) == before[key := (if key in before then before[key] else []) + [kv[idx]]]
  {
    assert kv[..idx + 1][..idx - 1] == kv[..idx - 1];
  }

  /** An odd number of arguments is a programming error: the routine panics. */
  method KeyValuesToValues(kv: seq<string>) returns (values: Query)
    requires |kv| % 2 == 0
    ensures values == Pairs(kv)
  {
    values := map[];
    var key := "";
    var idx := 0;
    while idx < |kv|
      invariant idx <= |kv|
      invariant idx % 2 == 0 ==> values == Pairs(kv[..idx])
      invariant idx % 2 == 1 ==> values == Pairs(kv[..idx - 1]) && key == kv[idx - 1]
    {
      if idx % 2 == 0 {
        key := kv[idx];
      } else {
        PairsNext(kv, idx);
        values := values[key := (if key in values then values[key] else []) + [kv[idx]]];
      }
      idx := idx + 1;
    }
    assert kv[..idx] == kv;
  }

  lemma {:induction false} PairsHaveValues(kv: seq<string>, key: string)
    requires |kv| % 2 == 0
    requires key in Pairs(kv)
    ensures Pairs(kv)[key] != []
  {
    if kv != [] && key != kv[|kv| - 2] {
      PairsHaveValues(kv[..|kv| - 2], key);
    }
  }

  /** An even place of the list holds the key. */
  predicate KeyAt(kv: seq<string>, key: string, i: int) {
    0 <= i < |kv| && i % 2 == 0 && kv[i] == key
  }

  /** The even places of a key, in order. */
  ghost predicate PlacesOf(kv: seq<string>, key: string, places: seq<int>) {
    && (forall i :: i in places <==> KeyAt(kv, key, i))
    && (forall j, k :: 0 <= j < k < |places| ==> places[j] < places[k])
  }

  /** The elements that follow those at the places. */
  ghost predicate FollowsAt(kv: seq<string>, places: seq<int>, values: seq<string>) {
    && |values| == |places|
    && forall j :: 0 <= j < |places| ==> 0 <= places[j] < |kv| - 1 && values[j] == kv[places[j] + 1]
  }

  lemma OnePlaceMore(kv: seq<string>, n: nat, key: string, places: seq<int>)
    requires |kv| == n + 2 && n % 2 == 0 && PlacesOf(kv[..n], key, places)
    ensures PlacesOf(kv, key, if kv[n] == key then places + [n] else places)
  {
    forall i
      ensures KeyAt(kv, key, i) <==> KeyAt(kv[..n], key, i) || (i == n && kv[n] == key)
    {
    }
    forall j | 0 <= j < |places| ensures places[j] < n {
      assert places[j] in places && KeyAt(kv[..n], key, places[j]);
    }
  }

  lemma OneValueMore(kv: seq<string>, n: nat, places: seq<int>, values: seq<string>)
    requires |kv| == n + 2 && FollowsAt(kv[..n], places, values)
    ensures FollowsAt(kv, places, values) && FollowsAt(kv, places + [n], values + [kv[n + 1]])
  {
  }

  /** The values of a key are those that follow it at even places, in order. */
  lemma {:induction false} PairsInOrder(kv: seq<string>, key: string) returns (places: seq<int>)
    requires |kv| % 2 == 0
    ensures PlacesOf(kv, key, places) && FollowsAt(kv, places, Values(Pairs(kv), key))
  {
    hide PlacesOf, FollowsAt;
    if kv == [] {
      places := [];
      NoPlaces(key);
    } else {
      var n := |kv| - 2;
      places := PairsInOrder(kv[..n], key);
      OnePlaceMore(kv, n, key, places);
      OneValueMore(kv, n, places, Values(Pairs(kv[..n]), key));
      if kv[n] == key {
        places := places + [n];
      }
    }
  }

  lemma NoPlaces(key: string)
    ensures PlacesOf([], key, []) && FollowsAt([], [], [])
  {
  }

  // ---------------------------------------------------------------- mutations of a query

  /** A parsed query has no key without values. */
  ghost predicate Parsed(query: Query) {
    forall key :: key in query ==> query[key] != []
  }

  /** Encoding a query drops the keys without values. */
  function Encode(query: Query): Query {
    map key | key in query && query[key] != [] :: query[key]
  }

  function Values(query: Query, key: string): seq<string> {
    if key in query then query[key] else []
  }

  function Joined(query: Query, pairs: Query): Query {
    map key | key in query.Keys + pairs.Keys ::
      if key in pairs then Values(query, key) + pairs[key] else query[key]
  }

  function Added(query: Query, pairs: Query): Query {
    Encode(Joined(query, pairs))
  }

  function DeletedAt(query: Query, pairs: Query, key: string): Option<seq<string>>
    requires key in query
  {
    if key in pairs then Deleted(query[key], pairs[key]) else Some(query[key])
  }

  function Removed(query: Query, pairs: Query): Query {
    Encode(map key | key in query && DeletedAt(query, pairs, key).Some? :: DeletedAt(query, pairs, key).value)
  }

  datatype Mutation =
    | WithValues(kv: seq<string>)
    | WithValuesReset
    | WithoutValues(kv: seq<string>)
    | WithPath(joined: string)
  {
    predicate Valid() {
      (WithValues? || WithoutValues?) ==> |kv| % 2 == 0
    }
  }

  datatype Location = Location(path: string, query: Query)

  function Mutated(location: Location, mutation: Mutation): Location
    requires mutation.Valid()
  {
    match mutation
    case WithValues(kv) => location.(query := Added(location.query, Pairs(kv)))
    case WithValuesReset => location.(query := map[])
    case WithoutValues(kv) => location.(query := Removed(location.query, Pairs(kv)))
    case WithPath(joined) => location.(path := joined)
  }

  function MutatedAll(location: Location, mutations: seq<Mutation>): Location
    requires forall mutation :: mutation in mutations ==> mutation.Valid()
  {
    if mutations == [] then location
    else Mutated(MutatedAll(location, mutations[..|mutations| - 1]), mutations[|mutations| - 1])
  }

  class Url {
    var path: string
    var query: Query

    constructor (path: string, query: Query)
      ensures this.path == path && this.query == query
    {
      this.path, this.query := path, query;
    }

    function At(): Location
      reads this
    {
      Location(path, query)
    }

    /** Adds each value after those the key already has. */
    method AddValues(kv: seq<string>)
      requires |kv| % 2 == 0
      modifies this`query
      ensures query == Added(old(query), Pairs(kv))
    {
      var pairs := KeyValuesToValues(kv);
      forall key | key in pairs ensures pairs[key] != [] {
        PairsHaveValues(kv, key);
      }
      var q := JoinValues(query, pairs);
      query := Encode(q);
    }

    /** Deletes the values listed for each key, or the whole key where `*` is listed. */
    method DeletePairs(kv: seq<string>)
      requires |kv| % 2 == 0
      modifies this`query
      ensures query == Removed(old(query), Pairs(kv))
    {
      var toDelete := KeyValuesToValues(kv);
      var q := query;
      var rest := toDelete.Keys;
      while rest != {}
        invariant rest <= toDelete.Keys
        invariant forall key :: key in q <==>
          key in query && (key in rest || DeletedAt(query, toDelete, key).Some?)
        invariant forall key :: key in q ==>
          q[key] == if key in rest then query[key] else DeletedAt(query, toDelete, key).value
        invariant query == old(query)
      {
        var keyToDelete :| keyToDelete in rest;
        if keyToDelete in q {
          var values := FromSeq(q[keyToDelete]);
          var left := DeleteValues(values, toDelete[keyToDelete]);
          match left {
            case None => q := q - {keyToDelete};
            case Some(kept) => q := q[keyToDelete := kept];
          }
        }
        rest := rest - {keyToDelete};
      }
      query := Encode(q);
    }

    method Apply(mutation: Mutation)
      requires mutation.Valid()
      modifies this
      ensures At() == Mutated(old(At()), mutation)
    {
      match mutation {
        case WithValues(kv) => AddValues(kv);
        case WithValuesReset => query := map[];
        case WithoutValues(kv) => DeletePairs(kv);
        case WithPath(joined) => path := joined;
      }
    }
  }

  lemma JoinedStep(query: Query, pairs: Query, rest: set<string>, key: string)
    requires key in rest && rest <= pairs.Keys
    ensures key !in query ==> key !in Joined(query, pairs - rest)
    ensures Values(Joined(query, pairs - rest), key) == Values(query, key)
    ensures Joined(query, pairs - (rest - {key})) == Joined(query, pairs - rest)[key := Values(query, key) + pairs[key]]
  {
  }

  method JoinValues(query: Query, pairs: Query) returns (q: Query)
    requires Parsed(pairs)
    ensures q == Joined(query, pairs)
  {
    q := query;
    var rest := pairs.Keys;
    assert Joined(query, pairs - rest) == query;
    while rest != {}
      invariant rest <= pairs.Keys
      invariant q == Joined(query, pairs - rest)
    {
      var key :| key in rest;
      JoinedStep(query, pairs, rest, key);
      q := AppendAll(q, key, pairs[key]);
      rest := rest - {key};
    }
    assert pairs - rest == pairs;
  }

  method AppendAll(query: Query, key: string, values: seq<string>) returns (q: Query)
    requires values != []
    ensures q == query[key := Values(query, key) + values]
  {
    q := query;
    var i := 0;
    while i < |values|
      invariant i <= |values|
      invariant i == 0 ==> q == query
      invariant i > 0 ==> q == query[key := Values(query, key) + values[..i]]
    {
      assert Values(query, key) + values[..0] == Values(query, key);
      assert values[..i + 1] == values[..i] + [values[i]];
      assert Values(q, key) == Values(query, key) + values[..i];
      assert Values(q, key) + [values[i]] == Values(query, key) + values[..i + 1];
      q := q[key := Values(q, key) + [values[i]]];
      i := i + 1;
    }
    assert values[..i] == values;
  }

  method FromSeq(s: seq<string>) returns (a: array<string>)
    ensures fresh(a) && a[..] == s
  {
    a := new string[|s|](i requires 0 <= i < |s| => s[i]);
  }

  /** A mutated copy; the URL itself is not touched. */
  method Mutate(u: Url, mutations: seq<Mutation>) returns (cloned: Url)
    requires forall mutation :: mutation in mutations ==> mutation.Valid()
    ensures fresh(cloned)
    ensures u.At() == old(u.At())
    ensures cloned.At() == MutatedAll(u.At(), mutations)
  {
    cloned := new Url(u.path, u.query);
    var i := 0;
    while i < |mutations|
      invariant i <= |mutations|
      invariant cloned.At() == MutatedAll(u.At(), mutations[..i])
    {
      cloned.Apply(mutations[i]);
      i := i + 1;
      assert mutations[..i][..i - 1] == mutations[..i - 1];
    }
    assert mutations[..i] == mutations;
  }

  // ---------------------------------------------------------------- one value under each key

  lemma OneDeletion(values: seq<string>, d: string)
    ensures Deleted(values, [d]) == if d == ALL then None else Some(Without(values, d))
  {
    assert [d][..0] == [];
    assert CompactedAll(values, []) == values;
  }

  /** Adding a value at the end and deleting it gives back the list iff the list did not have it. */
  lemma AddThenDeleteIff(values: seq<string>, d: string)
    ensures Without(values + [d], d) == values <==> d !in values
  {
    assert (values + [d])[..|values|] == values;
    WithoutSmallerIff(values, d);
  }

  /**
    With one value under each key, deleting what was added gives back the query
    iff, key by key, the key was absent, or the value is not `*` and was absent.
   */
  lemma RemovingUndoesAddingIff(query: Query, pairs: Query)
    requires Parsed(query)
    requires forall key :: key in pairs ==> |pairs[key]| == 1
    ensures Removed(Added(query, pairs), pairs) == query <==>
            forall key :: key in pairs && key in query ==> pairs[key][0] != ALL && pairs[key][0] !in query[key]
  {
    var after := Removed(Added(query, pairs), pairs);
    forall key
      ensures key !in pairs || key !in query ==> (key in after <==> key in query)
      ensures key !in pairs && key in query ==> after[key] == query[key]
      ensures key in pairs && key in query ==>
        ((key in after && after[key] == query[key]) <==> pairs[key][0] != ALL && pairs[key][0] !in query[key])
    {
      UndoneAt(query, pairs, key);
    }
    if after == query {
      forall key | key in pairs && key in query
        ensures pairs[key][0] != ALL && pairs[key][0] !in query[key]
      {
        assert key in after && after[key] == query[key];
      }
    }
    if forall key :: key in pairs && key in query ==> pairs[key][0] != ALL && pairs[key][0] !in query[key] {
      assert forall key :: key in after <==> key in query;
      assert forall key :: key in query ==> after[key] == query[key];
      assert after == query;
    }
  }

  lemma UndoneAt(query: Query, pairs: Query, key: string)
    requires Parsed(query)
    requires forall k :: k in pairs ==> |pairs[k]| == 1
    ensures var after := Removed(Added(query, pairs), pairs);
      && (key !in pairs || key !in query ==> (key in after <==> key in query))
      && (key !in pairs && key in query ==> after[key] == query[key])
      && (key in pairs && key in query ==>
            ((key in after && after[key] == query[key]) <==> pairs[key][0] != ALL && pairs[key][0] !in query[key]))
  {
    AddedAt(query, pairs, key);
    RemovedAt(Added(query, pairs), pairs, key);
    if key in pairs {
      OneAddedOneDeleted(Values(query, key), pairs[key]);
    }
  }

  lemma AddedAt(query: Query, pairs: Query, key: string)
    requires Parsed(query)
    requires forall k :: k in pairs ==> |pairs[k]| == 1
    ensures key in Added(query, pairs) <==> key in query || key in pairs
    ensures key in Added(query, pairs) ==>
      Added(query, pairs)[key] == if key in pairs then Values(query, key) + pairs[key] else query[key]
  {
  }

  lemma RemovedAt(query: Query, pairs: Query, key: string)
    ensures key in Removed(query, pairs) <==>
      key in query && DeletedAt(query, pairs, key).Some? && DeletedAt(query, pairs, key).value != []
    ensures key in Removed(query, pairs) ==> Removed(query, pairs)[key] == DeletedAt(query, pairs, key).value
  {
  }

  lemma OneAddedOneDeleted(values: seq<string>, ds: seq<string>)
    requires |ds| == 1
    ensures ds[0] == ALL ==> Deleted(values + ds, ds) == None
    ensures ds[0] != ALL ==>
      && Deleted(values + ds, ds) == Some(Without(values + ds, ds[0]))
      && (Without(values + ds, ds[0]) == values <==> ds[0] !in values)
      && (values == [] ==> Without(values + ds, ds[0]) == [])
  {
    assert ds == [ds[0]];
    OneDeletion(values + ds, ds[0]);
    AddThenDeleteIff(values, ds[0]);
  }

  /** Each key has its old values and then the new ones; keys without any are not encoded. */
  lemma AddedLists(query: Query, pairs: Query, key: string)
    ensures Values(Added(query, pairs), key) == Values(query, key) + Values(pairs, key)
    ensures key in Added(query, pairs) <==> Values(query, key) + Values(pairs, key) != []
  {
    assert Values(query, key) + [] == Values(query, key);
  }

  /** Each mutation changes the path or the query, and only that. */
  lemma MutatedSays(location: Location, mutation: Mutation)
    requires mutation.Valid()
    ensures var after := Mutated(location, mutation);
      && (mutation.WithPath? ==> after.path == mutation.joined && after.query == location.query)
      && (!mutation.WithPath? ==> after.path == location.path)
      && (mutation.WithValuesReset? ==> after.query == map[])
  {
  }

  /** One mutation is that mutation; of several, the later work on what the earlier left. */
  lemma MutationsInTurn(location: Location, mutations: seq<Mutation>, last: Mutation)
    requires last.Valid() && forall mutation :: mutation in mutations ==> mutation.Valid()
    ensures forall mutation :: mutation in mutations + [last] ==> mutation.Valid()
    ensures MutatedAll(location, []) == location
    ensures MutatedAll(location, mutations + [last]) == Mutated(MutatedAll(location, mutations), last)
  {
    assert (mutations + [last])[..|mutations|] == mutations;
  }
}
