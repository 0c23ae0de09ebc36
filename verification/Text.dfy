/** The few operations on strings that the label parser and the forms use. */
module Text {
  import opened Wrappers

  predicate Free(s: string, c: char) {
    c !in s
  }

  /** The parts before and after the first occurrence of a separator, if there is one. */
  function Cut(s: string, sep: char): (r: Option<(string, string)>)
    ensures r.None? <==> Free(s, sep)
    ensures r.Some? ==> Free(r.value.0, sep) && s == r.value.0 + [sep] + r.value.1
  {
    if s == [] then None
    else if s[0] == sep then Some(([], s[1..]))
    else
      match Cut(s[1..], sep)
      case None => None
      case Some((before, after)) => Some(([s[0]] + before, after))
  }

  /** The first separator decides: there is one way to cut. */
  lemma CutIsUnique(before: string, after: string, sep: char)
    requires Free(before, sep)
    ensures Cut(before + [sep] + after, sep) == Some((before, after))
  {
    SameCut(before, after, Cut(before + [sep] + after, sep).value.0, Cut(before + [sep] + after, sep).value.1, sep);
  }

  lemma SameCut(x: string, y: string, x': string, y': string, sep: char)
    requires Free(x, sep) && Free(x', sep)
    requires x + [sep] + y == x' + [sep] + y'
    ensures x == x' && y == y'
  {
    var s, t := x + [sep] + y, x' + [sep] + y';
    assert s[|x|] == sep && t[|x'|] == sep;
    assert forall k :: 0 <= k < |x| ==> s[k] == x[k];
    assert forall k :: 0 <= k < |x'| ==> t[k] == x'[k];
    assert |x| == |x'|;
    assert x == s[..|x|] && x' == t[..|x|];
    assert y == s[|x| + 1..] && y' == t[|x| + 1..];
  }

  /** `strings.Split`: always at least one part. */
  function Split(s: string, sep: char): (parts: seq<string>)
    ensures |parts| > 0
  {
    if s == [] then [[]]
    else
      var parts := Split(s[1..], sep);
      if s[0] == sep then [[]] + parts else [[s[0]] + parts[0]] + parts[1..]
  }

  function Join(parts: seq<string>, sep: char): string
    requires |parts| > 0
  {
    if |parts| == 1 then parts[0] else parts[0] + [sep] + Join(parts[1..], sep)
  }

  lemma {:induction false} SplitFree(s: string, sep: char)
    requires Free(s, sep)
    ensures Split(s, sep) == [s]
  {
    if s != [] {
      SplitFree(s[1..], sep);
      assert [s[0]] + s[1..] == s;
    }
  }

  lemma {:induction false} SplitAfterPart(part: string, rest: string, sep: char)
    requires Free(part, sep)
    ensures Split(part + [sep] + rest, sep) == [part] + Split(rest, sep)
  {
    var s := part + [sep] + rest;
    if part == [] {
      assert s[1..] == rest;
    } else {
      assert s[1..] == part[1..] + [sep] + rest;
      SplitAfterPart(part[1..], rest, sep);
      assert [part[0]] + part[1..] == part;
      assert ([part[1..]] + Split(rest, sep))[1..] == Split(rest, sep);
    }
  }

  /** Splitting undoes joining when no part contains the separator. */
  lemma {:induction false} SplitJoin(parts: seq<string>, sep: char)
    requires |parts| > 0 && forall part :: part in parts ==> Free(part, sep)
    ensures Split(Join(parts, sep), sep) == parts
    decreases |parts|
  {
    if |parts| == 1 {
      SplitFree(parts[0], sep);
      assert parts == [parts[0]];
    } else {
      SplitAfterPart(parts[0], Join(parts[1..], sep), sep);
      SplitJoin(parts[1..], sep);
      assert parts == [parts[0]] + parts[1..];
    }
  }

  lemma {:induction false} SplitParts(s: string, sep: char)
    ensures forall part :: part in Split(s, sep) ==> Free(part, sep)
  {
    if s != [] {
      SplitParts(s[1..], sep);
      var parts := Split(s[1..], sep);
      assert Free(parts[0], sep);
    }
  }

  /** `strings.Compare(s, t) < 0`. */
  predicate Less(s: string, t: string) {
    if t == [] then false
    else if s == [] then true
    else s[0] < t[0] || (s[0] == t[0] && Less(s[1..], t[1..]))
  }

  /** A text precedes those that it begins, and those with a larger character where they first differ. */
  lemma {:induction false} LessIff(s: string, t: string)
    ensures Less(s, t) <==>
      || (|s| < |t| && s == t[..|s|])
      || exists i :: 0 <= i < |s| && i < |t| && s[..i] == t[..i] && s[i] < t[i]
  {
    if s != [] && t != [] && s[0] == t[0] {
      LessIff(s[1..], t[1..]);
      LessFromFirst(s, t);
    } else if s != [] && t != [] && s[0] < t[0] {
      assert s[..0] == t[..0];
    }
  }

  /** Equal first characters do not matter. */
  lemma LessFromFirst(s: string, t: string)
    requires s != [] && t != [] && s[0] == t[0]
    ensures |s| < |t| && s == t[..|s|] <==> |s[1..]| < |t[1..]| && s[1..] == t[1..][..|s[1..]|]
    ensures (exists i :: 0 <= i < |s| && i < |t| && s[..i] == t[..i] && s[i] < t[i])
       <==> (exists i :: 0 <= i < |s[1..]| && i < |t[1..]| && s[1..][..i] == t[1..][..i] && s[1..][i] < t[1..][i])
  {
    if |s| < |t| {
      assert s == [s[0]] + s[1..] && t[..|s|] == [t[0]] + t[1..][..|s| - 1];
    }
    if i :| 0 <= i < |s| && i < |t| && s[..i] == t[..i] && s[i] < t[i] {
      assert i > 0;
      assert s[1..][..i - 1] == s[..i][1..] && t[1..][..i - 1] == t[..i][1..];
      assert s[1..][i - 1] == s[i] && t[1..][i - 1] == t[i];
    }
    if i :| 0 <= i < |s[1..]| && i < |t[1..]| && s[1..][..i] == t[1..][..i] && s[1..][i] < t[1..][i] {
      assert s[..i + 1] == [s[0]] + s[1..][..i] && t[..i + 1] == [t[0]] + t[1..][..i];
      assert s[i + 1] == s[1..][i] && t[i + 1] == t[1..][i];
    }
  }

  lemma {:induction false} LessIrreflexive(s: string)
    ensures !Less(s, s)
  {
    if s != [] {
      LessIrreflexive(s[1..]);
    }
  }

  lemma {:induction false} LessTransitive(s: string, t: string, u: string)
    requires Less(s, t) && Less(t, u)
    ensures Less(s, u)
  {
    if s != [] && s[0] == t[0] == u[0] {
      LessTransitive(s[1..], t[1..], u[1..]);
    }
  }

  lemma {:induction false} LessTotal(s: string, t: string)
    ensures s == t || Less(s, t) || Less(t, s)
  {
    if s != [] && t != [] && s[0] == t[0] {
      LessTotal(s[1..], t[1..]);
      assert s == [s[0]] + s[1..] && t == [t[0]] + t[1..];
    }
  }
}
