/** Shared vocabulary: optional values and the time line. */
module Basics {
  datatype Option<+T> = None | Some(value: T)

  /** A point in time or a duration, in nanoseconds. */
  type Time = int

  const SECOND: Time := 1_000_000_000
  const MINUTE: Time := 60 * SECOND
  const HOUR: Time := 60 * MINUTE

  function Max(a: int, b: int): int {
    if a >= b then a else b
  }

  function Min(a: int, b: int): int {
    if a <= b then a else b
  }
}

/** The string operations of Go's `strings` package that the controllers rely on. */
module Text {
  import opened Basics

  /** The text before and after the first separator, if there is one. */
  function Cut(s: string, sep: char): (r: Option<(string, string)>)
    ensures r.None? <==> sep !in s
    ensures r.Some? ==> s == r.value.0 + [sep] + r.value.1 && sep !in r.value.0
  {
    if s == "" then None
    else if s[0] == sep then Some(("", s[1..]))
    else match Cut(s[1..], sep)
      case None => None
      case Some((before, after)) => Some(([s[0]] + before, after))
  }

  /** `strings.Split`. */
  function Split(s: string, sep: char): (parts: seq<string>)
    ensures |parts| >= 1
    decreases |s|
  {
    match Cut(s, sep)
    case None => [s]
    case Some((before, after)) => [before] + Split(after, sep)
  }

  /** `strings.SplitN` for a positive limit: the last part keeps its separators. */
  function SplitN(s: string, sep: char, limit: nat): (parts: seq<string>)
    requires limit >= 1
    ensures 1 <= |parts| <= limit
    decreases limit
  {
    if limit == 1 then [s]
    else match Cut(s, sep)
      case None => [s]
      case Some((before, after)) => [before] + SplitN(after, sep, limit - 1)
  }

  /** `strings.Join`. */
  function Join(parts: seq<string>, sep: char): string {
    if |parts| == 0 then ""
    else if |parts| == 1 then parts[0]
    else parts[0] + [sep] + Join(parts[1..], sep)
  }

  predicate HasSuffix(s: string, suffix: string) {
    |suffix| <= |s| && s[|s| - |suffix|..] == suffix
  }

  predicate HasPrefix(s: string, prefix: string) {
    prefix <= s
  }

  lemma {:induction false} CutAt(before: string, sep: char, after: string)
    requires sep !in before
    ensures Cut(before + [sep] + after, sep) == Some((before, after))
  {
    var s := before + [sep] + after;
    if before == "" {
      assert s[1..] == after;
    } else {
      assert s[1..] == before[1..] + [sep] + after;
      CutAt(before[1..], sep, after);
      assert [before[0]] + before[1..] == before;
    }
  }

  lemma SplitNConcat(before: string, sep: char, after: string, limit: nat)
    requires sep !in before && limit >= 2
    ensures SplitN(before + [sep] + after, sep, limit) == [before] + SplitN(after, sep, limit - 1)
  {
    CutAt(before, sep, after);
  }

  lemma {:induction false} SplitConcat(a: string, sep: char, b: string)
    ensures Split(a + [sep] + b, sep) == Split(a, sep) + Split(b, sep)
    decreases |a|
  {
    match Cut(a, sep)
    case None =>
      CutAt(a, sep, b);
    case Some((before, after)) =>
      assert a + [sep] + b == before + [sep] + (after + [sep] + b);
      CutAt(before, sep, after + [sep] + b);
      SplitConcat(after, sep, b);
  }

  lemma {:induction false} JoinConcat(xs: seq<string>, ys: seq<string>, sep: char)
    requires |xs| > 0 && |ys| > 0
    ensures Join(xs + ys, sep) == Join(xs, sep) + [sep] + Join(ys, sep)
  {
    if |xs| == 1 {
      assert (xs + ys)[1..] == ys;
    } else {
      assert (xs + ys)[1..] == xs[1..] + ys;
      JoinConcat(xs[1..], ys, sep);
      assert Join(xs + ys, sep) == xs[0] + [sep] + Join(xs[1..] + ys, sep);
    }
  }

  /** Splitting loses nothing, and no part holds the separator. */
  lemma {:induction false} JoinSplit(s: string, sep: char)
    ensures Join(Split(s, sep), sep) == s
    ensures forall p | p in Split(s, sep) :: sep !in p
    decreases |s|
  {
    match Cut(s, sep)
    case None =>
    case Some((before, after)) =>
      JoinSplit(after, sep);
      assert Split(s, sep)[1..] == Split(after, sep);
  }

  /** Cutting removes exactly one separator. */
  lemma CutCount(s: string, sep: char)
    ensures match Cut(s, sep)
            case None => multiset(s)[sep] == 0
            case Some((before, after)) => multiset(s)[sep] == 1 + multiset(after)[sep]
  {
    match Cut(s, sep)
    case None =>
      assert sep !in multiset(s);
    case Some((before, after)) =>
      assert multiset(before)[sep] == 0;
      assert multiset(s) == multiset(before + [sep]) + multiset(after);
  }

  /** The separator count tells how many parts a limited split can reach. */
  lemma {:induction false} SplitNLength(s: string, sep: char, limit: nat)
    requires limit >= 1
    ensures |SplitN(s, sep, limit)| == Min(limit, multiset(s)[sep] + 1)
    decreases limit
  {
    CutCount(s, sep);
    if limit > 1 && sep in s {
      SplitNLength(Cut(s, sep).value.1, sep, limit - 1);
    }
  }
}
