/**
 * Kotlin's list operations used by the race timer: `filter`, `distinct` and
 * `sorted` on integers, `firstOrNull` through `Filter`.
 */
module Seqs {

  /** Kotlin `s.filter(keep)`: the kept elements, in their original order. */
  function Filter<T(==)>(keep: T -> bool, s: seq<T>): (r: seq<T>)
    ensures |r| <= |s|
    ensures forall i :: 0 <= i < |r| ==> r[i] in s && keep(r[i])
    ensures forall i :: 0 <= i < |s| && keep(s[i]) ==> s[i] in r
  {
    if s == [] then []
    else Filter(keep, s[..|s| - 1]) + (if keep(s[|s| - 1]) then [s[|s| - 1]] else [])
  }

  /** Filtering commutes with concatenation, which is what keeping the original order means. */
  lemma {:induction false} FilterAppend<T>(keep: T -> bool, a: seq<T>, b: seq<T>)
    ensures Filter(keep, a + b) == Filter(keep, a) + Filter(keep, b)
    decreases |b|
  {
    if b == [] {
      assert a + b == a;
    } else {
      var b' := b[..|b| - 1];
      assert (a + b)[..|a + b| - 1] == a + b';
      FilterAppend(keep, a, b');
    }
  }

  /** `filter` adds nothing and drops nothing it keeps: each kept value occurs as often as in the input. */
  lemma {:induction false} FilterCounts<T>(keep: T -> bool, s: seq<T>, x: T)
    ensures multiset(Filter(keep, s))[x] == if keep(x) then multiset(s)[x] else 0
    decreases |s|
  {
    if s != [] {
      var init := s[..|s| - 1];
      assert s == init + [s[|s| - 1]];
      FilterCounts(keep, init, x);
    }
  }

  /**
   * Where `filter` puts a kept element: `s[i]` lands right after the kept
   * elements before it, so kept elements appear in their original order.
   */
  lemma FilterPlaces<T>(keep: T -> bool, s: seq<T>, i: int, j: int)
    requires 0 <= i < j <= |s| && keep(s[i])
    ensures |Filter(keep, s[..i])| < |Filter(keep, s[..j])| <= |Filter(keep, s)|
    ensures Filter(keep, s)[|Filter(keep, s[..i])|] == s[i]
  {
    FilterAt(keep, s, i);
    FilterAt(keep, s[..j], i);
    assert s[..j][..i] == s[..i];
    FilterPrefix(keep, s, j);
  }

  /** A kept `s[i]` follows the kept elements of `s[..i]`. */
  lemma FilterAt<T>(keep: T -> bool, s: seq<T>, i: int)
    requires 0 <= i < |s| && keep(s[i])
    ensures |Filter(keep, s[..i])| < |Filter(keep, s)|
    ensures Filter(keep, s)[|Filter(keep, s[..i])|] == s[i]
  {
    var rest := s[i + 1..];
    assert [s[i]][..0] == [];
    assert Filter(keep, [s[i]]) == [s[i]];
    FilterAppend(keep, [s[i]], rest);
    assert s == s[..i] + ([s[i]] + rest);
    FilterAppend(keep, s[..i], [s[i]] + rest);
  }

  /** Filtering a prefix keeps no more than filtering the whole. */
  lemma FilterPrefix<T>(keep: T -> bool, s: seq<T>, j: int)
    requires 0 <= j <= |s|
    ensures |Filter(keep, s[..j])| <= |Filter(keep, s)|
  {
    assert s == s[..j] + s[j..];
    FilterAppend(keep, s[..j], s[j..]);
  }

  /** `FilterPlaces` for every kept element: kept elements keep their order, each at its own place. */
  lemma FilterInOrder<T>(keep: T -> bool, s: seq<T>)
    ensures forall k, k' :: 0 <= k < k' <= |s| && keep(s[k]) ==>
      |Filter(keep, s[..k])| < |Filter(keep, s[..k'])| <= |Filter(keep, s)|
    ensures forall k :: 0 <= k < |s| && keep(s[k]) ==>
      |Filter(keep, s[..k])| < |Filter(keep, s)| && Filter(keep, s)[|Filter(keep, s[..k])|] == s[k]
  {
    forall k, k' | 0 <= k < k' <= |s| && keep(s[k])
      ensures |Filter(keep, s[..k])| < |Filter(keep, s[..k'])| <= |Filter(keep, s)|
      ensures Filter(keep, s)[|Filter(keep, s[..k])|] == s[k]
    {
      FilterPlaces(keep, s, k, k');
    }
    forall k | 0 <= k < |s| && keep(s[k])
      ensures |Filter(keep, s[..k])| < |Filter(keep, s)| && Filter(keep, s)[|Filter(keep, s[..k])|] == s[k]
    {
      FilterPlaces(keep, s, k, |s|);
    }
  }

  /** A filter that keeps everything changes nothing. */
  lemma {:induction false} FilterAll<T>(keep: T -> bool, s: seq<T>)
    requires forall i :: 0 <= i < |s| ==> keep(s[i])
    ensures Filter(keep, s) == s
    decreases |s|
  {
    if s != [] {
      var init := s[..|s| - 1];
      forall i | 0 <= i < |init| ensures keep(init[i]) {
        assert init[i] == s[i];
      }
      FilterAll(keep, init);
      assert keep(s[|s| - 1]);
      assert s == init + [s[|s| - 1]];
    }
  }

  predicate Ascending(s: seq<int>) {
    forall i, j :: 0 <= i < j < |s| ==> s[i] <= s[j]
  }

  predicate StrictlyAscending(s: seq<int>) {
    forall i, j :: 0 <= i < j < |s| ==> s[i] < s[j]
  }

  predicate NoDuplicates<T(==)>(s: seq<T>) {
    forall i, j :: 0 <= i < j < |s| ==> s[i] != s[j]
  }

  /** `x` inserted into an ascending list at its place. */
  function Insert(x: int, s: seq<int>): (r: seq<int>)
    requires Ascending(s)
    ensures Ascending(r)
    ensures forall i :: 0 <= i < |r| ==> r[i] == x || r[i] in s
    ensures multiset(r) == multiset(s) + multiset{x}
  {
    if s == [] then [x]
    else if x <= s[0] then [x] + s
    else
      var rest := Insert(x, s[1..]);
      InsertAfterHead(x, s, rest);
      [s[0]] + rest
  }

  /** Putting the head back in front of `x` inserted into the tail keeps order and contents. */
  lemma InsertAfterHead(x: int, s: seq<int>, rest: seq<int>)
    requires Ascending(s) && s != [] && s[0] < x
    requires Ascending(rest)
    requires forall i :: 0 <= i < |rest| ==> rest[i] == x || rest[i] in s[1..]
    requires multiset(rest) == multiset(s[1..]) + multiset{x}
    ensures Ascending([s[0]] + rest)
    ensures forall i :: 0 <= i < |[s[0]] + rest| ==> ([s[0]] + rest)[i] == x || ([s[0]] + rest)[i] in s
    ensures multiset([s[0]] + rest) == multiset(s) + multiset{x}
  {
    assert s == [s[0]] + s[1..];
    forall k | 0 <= k < |rest| ensures s[0] <= rest[k] && (rest[k] == x || rest[k] in s) {
      if rest[k] != x {
        InTailAtLeastHead(s, rest[k]);
      }
    }
  }

  /** A value of an ascending list's tail is one of its values and no smaller than its head. */
  lemma InTailAtLeastHead(s: seq<int>, v: int)
    requires Ascending(s) && s != [] && v in s[1..]
    ensures v in s && s[0] <= v
  {
    var j :| 0 <= j < |s| - 1 && s[1..][j] == v;
    assert s[j + 1] == v;
  }

  /** Kotlin `s.sorted()` on integers: the same elements in ascending order. */
  function Sorted(s: seq<int>): (r: seq<int>)
    ensures Ascending(r)
    ensures multiset(r) == multiset(s)
  {
    if s == [] then []
    else
      assert s == s[..|s| - 1] + [s[|s| - 1]];
      Insert(s[|s| - 1], Sorted(s[..|s| - 1]))
  }

  /** Kotlin `s.distinct()`: the first occurrence of every element, in order. */
  function Distinct<T(==)>(s: seq<T>): (r: seq<T>)
    ensures NoDuplicates(r)
    ensures forall i :: 0 <= i < |r| ==> r[i] in s
    ensures forall i :: 0 <= i < |s| ==> s[i] in r
  {
    if s == [] then []
    else
      var d := Distinct(s[..|s| - 1]);
      if s[|s| - 1] in d then d else d + [s[|s| - 1]]
  }

  /** A list without duplicates holds each of its elements once. */
  lemma {:induction false} NoDuplicatesMultiset(s: seq<int>)
    requires NoDuplicates(s)
    ensures forall x :: x in multiset(s) ==> multiset(s)[x] == 1
    decreases |s|
  {
    if s != [] {
      var init := s[..|s| - 1];
      NoDuplicatesMultiset(init);
      assert s == init + [s[|s| - 1]];
      assert s[|s| - 1] !in init;
    }
  }

  /** Sorting a list without duplicates gives a strictly ascending list. */
  lemma SortedDistinctIsStrict(s: seq<int>)
    requires NoDuplicates(s)
    ensures StrictlyAscending(Sorted(s))
  {
    var r := Sorted(s);
    NoDuplicatesMultiset(s);
    forall i, j | 0 <= i < j < |r| ensures r[i] < r[j] {
      RepeatCounts(r, i, j);
      assert r[i] in multiset(s);
    }
  }

  /** An element found at two positions occurs at least twice. */
  lemma RepeatCounts(r: seq<int>, i: int, j: int)
    requires 0 <= i < j < |r|
    ensures r[i] == r[j] ==> multiset(r)[r[i]] >= 2
  {
    assert r == r[..i] + [r[i]] + r[i + 1..j] + [r[j]] + r[j + 1..];
  }

  /** A set of values drawn from a list is no larger than the list. */
  lemma {:induction false} SetOfSeqSize<T>(s: seq<T>)
    ensures |set x | x in s| <= |s|
    decreases |s|
  {
    if s != [] {
      var init := s[..|s| - 1];
      SetOfSeqSize(init);
      assert (set x | x in s) == (set x | x in init) + {s[|s| - 1]};
    }
  }

  /** Kotlin `removeAt(from)` followed by `add(to, item)` on a copy of `xs`. */
  function Move<T>(xs: seq<T>, from: int, to: int): (r: seq<T>)
    requires 0 <= from < |xs| && 0 <= to < |xs|
    ensures |r| == |xs|
  {
    var rest := xs[..from] + xs[from + 1..];
    rest[..to] + [xs[from]] + rest[to..]
  }

  /** The old index of the element a move puts at index `i`. */
  function MoveSource(i: int, from: int, to: int): int {
    if i == to then from
    else if from < to && from <= i < to then i + 1
    else if to < from && to < i <= from then i - 1
    else i
  }

  /** Element by element, a move takes each new index's element from `MoveSource`. */
  lemma MoveIndex<T>(xs: seq<T>, from: int, to: int)
    requires 0 <= from < |xs| && 0 <= to < |xs|
    ensures forall i :: 0 <= i < |xs| ==>
      0 <= MoveSource(i, from, to) < |xs| && Move(xs, from, to)[i] == xs[MoveSource(i, from, to)]
  {
    var rest := xs[..from] + xs[from + 1..];
    var r := Move(xs, from, to);
    forall i | 0 <= i < |xs| ensures r[i] == xs[MoveSource(i, from, to)] {
      if i < to {
        assert r[i] == rest[i];
      } else if i > to {
        assert r[i] == rest[i - 1];
      }
    }
  }

  /** Moving back undoes a move. */
  lemma MoveUndo<T>(xs: seq<T>, from: int, to: int)
    requires 0 <= from < |xs| && 0 <= to < |xs|
    ensures Move(Move(xs, from, to), to, from) == xs
  {
    var ys := Move(xs, from, to);
    MoveIndex(xs, from, to);
    MoveIndex(ys, to, from);
    var zs := Move(ys, to, from);
    forall i | 0 <= i < |xs| ensures zs[i] == xs[i] {
      assert MoveSource(MoveSource(i, to, from), from, to) == i;
    }
  }

  /** A move rearranges the list: the same elements, as often as before. */
  lemma MovePermutes<T>(xs: seq<T>, from: int, to: int)
    requires 0 <= from < |xs| && 0 <= to < |xs|
    ensures multiset(Move(xs, from, to)) == multiset(xs)
  {
    var rest := xs[..from] + xs[from + 1..];
    assert xs == xs[..from] + [xs[from]] + xs[from + 1..];
    assert multiset(xs) == multiset(rest) + multiset{xs[from]};
    assert rest == rest[..to] + rest[to..];
    assert multiset(Move(xs, from, to)) == multiset(rest[..to]) + multiset{xs[from]} + multiset(rest[to..]);
  }

  /** A move keeps a list free of duplicates. */
  lemma MoveKeepsDistinct<T>(xs: seq<T>, from: int, to: int)
    requires 0 <= from < |xs| && 0 <= to < |xs| && NoDuplicates(xs)
    ensures NoDuplicates(Move(xs, from, to))
  {
    MoveIndex(xs, from, to);
  }

  /** Filtering a strictly ascending list leaves it strictly ascending. */
  lemma {:induction false} FilterKeepsStrict(keep: int -> bool, s: seq<int>)
    requires StrictlyAscending(s)
    ensures StrictlyAscending(Filter(keep, s))
    decreases |s|
  {
    if s != [] {
      var init := s[..|s| - 1];
      FilterKeepsStrict(keep, init);
      var f := Filter(keep, init);
      forall k | 0 <= k < |f| ensures f[k] < s[|s| - 1] {
        var j :| 0 <= j < |init| && init[j] == f[k];
        assert s[j] == f[k];
      }
    }
  }

  /** Concatenation is associative; stated once so that callers need not re-derive it element by element. */
  lemma Associative<T>(a: seq<T>, b: seq<T>, c: seq<T>)
    ensures (a + b) + c == a + (b + c)
  {
  }

  /** A common head keeps one list a prefix of another. */
  lemma PrefixConcat<T>(h: seq<T>, a: seq<T>, b: seq<T>)
    requires a <= b
    ensures h + a <= h + b
  {
    assert h + b == (h + a) + b[|a|..];
  }

  /** The middle part of a three-part concatenation sits at the same place in anything it begins. */
  lemma MiddleOfPrefix<T>(p: seq<T>, b: seq<T>, c: seq<T>, r: seq<T>)
    requires p + b + c <= r
    ensures |p| + |b| <= |r| && r[|p|..|p| + |b|] == b
  {
    assert r[|p|..|p| + |b|] == (p + b + c)[|p|..|p| + |b|];
  }

  /** `f` applied to each of the first `i` elements, in order. */
  function MapTo<T, U>(f: T -> U, s: seq<T>, i: nat): (r: seq<U>)
    requires i <= |s|
    ensures |r| == i && forall k :: 0 <= k < i ==> r[k] == f(s[k])
  {
    if i == 0 then [] else MapTo(f, s, i - 1) + [f(s[i - 1])]
  }

  /** The parts of a sequence with one element added at the end. */
  lemma SnocParts<T>(p: seq<T>, x: T)
    ensures (p + [x])[..|p|] == p && (p + [x])[|p|] == x
  {
  }

  /** A slice grows by the element after it. */
  lemma SliceSnoc<T>(s: seq<T>, i: nat, j: nat)
    requires i < j <= |s|
    ensures s[i..j - 1] + [s[j - 1]] == s[i..j]
  {
  }
}
