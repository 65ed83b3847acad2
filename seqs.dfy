/**
 * The array operations of JavaScript the source uses: filter, `Array.from(new Set(xs))`,
 * `find`, and a stable sort (`Array.prototype.sort` with a comparator, modelled as an
 * insertion sort over a total preorder), plus the default string order of `sort()`.
 */
module Seqs {
  import opened Basics

  /** `xs.filter(p)` */
  function Filter<T>(xs: seq<T>, p: T -> bool): (r: seq<T>)
    ensures |r| <= |xs|
    ensures forall k :: 0 <= k < |r| ==> r[k] in xs && p(r[k])
    ensures forall k :: 0 <= k < |xs| && p(xs[k]) ==> xs[k] in r
  {
    if xs == [] then [] else (if p(xs[0]) then [xs[0]] else []) + Filter(xs[1..], p)
  }

  /** A non-empty sequence is its front followed by its last element. */
  lemma SplitLast<T>(xs: seq<T>)
    requires xs != []
    ensures xs == xs[..|xs| - 1] + [xs[|xs| - 1]]
  {
  }

  /** The front and last element of `a + b`, when `b` is not empty. */
  lemma DropLastAppend<T>(a: seq<T>, b: seq<T>)
    requires b != []
    ensures (a + b)[..|a + b| - 1] == a + b[..|b| - 1] && (a + b)[|a + b| - 1] == b[|b| - 1]
  {
  }

  /** A prefix shorter than the whole is a prefix of its front. */
  lemma PrefixOfFront<T>(xs: seq<T>, ys: seq<T>)
    requires xs <= ys && |xs| < |ys|
    ensures xs <= ys[..|ys| - 1]
  {
  }

  /** Prefixes compose with appending. */
  lemma PrefixExtended<T>(xs: seq<T>, ys: seq<T>, zs: seq<T>)
    requires xs <= ys
    ensures xs <= ys + zs
  {
    assert (ys + zs)[..|ys|] == ys;
  }

  /** Taking no element gives the empty sequence. */
  lemma TakeNone<T>(xs: seq<T>)
    ensures xs[..0] == []
  {
  }

  /** Taking every element gives the sequence back. */
  lemma TakeAll<T>(xs: seq<T>)
    ensures xs[..|xs|] == xs
  {
  }

  /** The front of a longer front. */
  lemma TakeTake<T>(xs: seq<T>, i: nat)
    requires i < |xs|
    ensures xs[..i + 1][..i] == xs[..i] && xs[..i + 1] == xs[..i] + [xs[i]]
  {
  }

  /** Appending a non-empty sequence appends its front, then its last element. */
  lemma AppendSplitLast<T>(xs: seq<T>, ys: seq<T>)
    requires ys != []
    ensures xs + ys == (xs + ys[..|ys| - 1]) + [ys[|ys| - 1]]
  {
  }

  /** A sequence is any of its prefixes followed by the rest. */
  lemma PrefixRest<T>(xs: seq<T>, ys: seq<T>)
    requires xs <= ys
    ensures ys == xs + ys[|xs|..]
  {
  }

  /** A sequence is its front, one element, and its back. */
  lemma Around<T>(xs: seq<T>, i: nat)
    requires i < |xs|
    ensures xs == xs[..i] + ([xs[i]] + xs[i + 1..])
  {
  }

  lemma AppendAssoc<T>(xs: seq<T>, ys: seq<T>, zs: seq<T>)
    ensures (xs + ys) + zs == xs + (ys + zs)
  {
  }

  /** A prefix is the front of the sequence it starts. */
  lemma PrefixTake<T>(xs: seq<T>, ys: seq<T>)
    requires xs <= ys
    ensures ys[..|xs|] == xs
  {
  }

  /** `Filter` without its contract, for proofs its quantifiers would slow down. */
  function Kept<T>(xs: seq<T>, p: T -> bool): seq<T> {
    if xs == [] then [] else (if p(xs[0]) then [xs[0]] else []) + Kept(xs[1..], p)
  }

  lemma {:induction false} KeptIsFilter<T>(xs: seq<T>, p: T -> bool)
    ensures Kept(xs, p) == Filter(xs, p)
  {
    if xs != [] {
      KeptIsFilter(xs[1..], p);
    }
  }

  lemma {:induction false} KeptPartition<T>(xs: seq<T>, p: T -> bool, q: T -> bool)
    requires forall x :: q(x) <==> !p(x)
    ensures multiset(Kept(xs, p)) + multiset(Kept(xs, q)) == multiset(xs)
  {
    if xs != [] {
      KeptPartition(xs[1..], p, q);
      assert xs == [xs[0]] + xs[1..];
    }
  }

  /** Two filters on complementary tests split the sequence between them. */
  lemma FilterPartition<T>(xs: seq<T>, p: T -> bool, q: T -> bool)
    requires forall x :: q(x) <==> !p(x)
    ensures multiset(Filter(xs, p)) + multiset(Filter(xs, q)) == multiset(xs)
  {
    KeptPartition(xs, p, q);
    KeptIsFilter(xs, p);
    KeptIsFilter(xs, q);
  }

  /** A filter that keeps everything is the identity. */
  lemma {:induction false} FilterAll<T>(xs: seq<T>, p: T -> bool)
    requires forall x :: x in xs ==> p(x)
    ensures Filter(xs, p) == xs
  {
    if xs != [] {
      FilterAll(xs[1..], p);
    }
  }

  /** A filter that keeps as many elements as it is given keeps all of them. */
  lemma {:induction false} FilterSameLength<T>(xs: seq<T>, p: T -> bool)
    requires |Filter(xs, p)| == |xs|
    ensures Filter(xs, p) == xs
  {
    if xs != [] {
      assert p(xs[0]);
      FilterSameLength(xs[1..], p);
      assert xs == [xs[0]] + xs[1..];
    }
  }

  /** Filtering a sequence that splits in two filters each half. */
  lemma {:induction false} FilterAppend<T>(xs: seq<T>, ys: seq<T>, p: T -> bool)
    ensures Filter(xs + ys, p) == Filter(xs, p) + Filter(ys, p)
  {
    if xs != [] {
      assert (xs + ys)[1..] == xs[1..] + ys;
      FilterAppend(xs[1..], ys, p);
    } else {
      assert xs + ys == ys;
    }
  }

  /** The positions from `i` on of the elements `p` keeps, in ascending order. */
  function KeptPositions<T>(xs: seq<T>, p: T -> bool, i: nat): seq<nat>
    requires i <= |xs|
    decreases |xs| - i
  {
    if i == |xs| then [] else (if p(xs[i]) then [i] else []) + KeptPositions(xs, p, i + 1)
  }

  /** Positions that lie in `lo..hi` and strictly ascend. */
  predicate AscendingWithin(idx: seq<nat>, lo: nat, hi: nat) {
    && (forall j :: 0 <= j < |idx| ==> lo <= idx[j] < hi)
    && (forall a, b :: 0 <= a < b < |idx| ==> idx[a] < idx[b])
  }

  /** The kept positions from `i` on lie in `xs[i..]` and ascend. */
  lemma {:induction false} KeptPositionsAscend<T>(xs: seq<T>, p: T -> bool, i: nat)
    requires i <= |xs|
    ensures AscendingWithin(KeptPositions(xs, p, i), i, |xs|)
    decreases |xs| - i
  {
    if i < |xs| {
      KeptPositionsAscend(xs, p, i + 1);
      var rest := KeptPositions(xs, p, i + 1);
      var idx := KeptPositions(xs, p, i);
      var h := |idx| - |rest|;
      assert idx == (if p(xs[i]) then [i] else []) + rest;
      forall j | 0 <= j < |idx| ensures i <= idx[j] < |xs| {
        if j >= h {
          assert idx[j] == rest[j - h];
        }
      }
      forall a, b | 0 <= a < b < |idx| ensures idx[a] < idx[b] {
        assert idx[b] == rest[b - h];
        if a >= h {
          assert idx[a] == rest[a - h];
        }
      }
    }
  }

  /** The elements at the positions `idx` are `r`, and every position from `i` on whose element `p` keeps is in `idx`. */
  ghost predicate PicksKept<T>(xs: seq<T>, p: T -> bool, i: nat, idx: seq<nat>, r: seq<T>) {
    && |idx| == |r|
    && (forall j :: 0 <= j < |idx| ==> idx[j] < |xs| && r[j] == xs[idx[j]])
    && (forall k :: i <= k < |xs| && p(xs[k]) ==> k in idx)
  }

  lemma {:induction false} KeptAtPositions<T>(xs: seq<T>, p: T -> bool, i: nat)
    requires i <= |xs|
    ensures PicksKept(xs, p, i, KeptPositions(xs, p, i), Kept(xs[i..], p))
    decreases |xs| - i
  {
    if i < |xs| {
      KeptAtPositions(xs, p, i + 1);
      assert xs[i..][1..] == xs[i + 1..];
      assert xs[i..][0] == xs[i];
    }
  }

  /**
   * The filter of `xs[i..]` picks the elements at strictly increasing positions, which are
   * exactly the positions from `i` on whose element `p` keeps.
   */
  lemma FilterPositions<T>(xs: seq<T>, p: T -> bool, i: nat)
    requires i <= |xs|
    ensures var idx := KeptPositions(xs, p, i); var r := Filter(xs[i..], p);
      && |idx| == |r|
      && (forall a, b :: 0 <= a < b < |idx| ==> idx[a] < idx[b])
      && (forall j :: 0 <= j < |idx| ==> i <= idx[j] < |xs| && r[j] == xs[idx[j]])
      && (forall k :: i <= k < |xs| && p(xs[k]) ==> k in idx)
  {
    KeptPositionsAscend(xs, p, i);
    KeptAtPositions(xs, p, i);
    KeptIsFilter(xs[i..], p);
  }

  /** `Array.from(new Set(xs))`: the distinct elements in the order they first occur. */
  function Distinct<T(==)>(xs: seq<T>): (r: seq<T>)
    ensures forall k :: 0 <= k < |r| ==> r[k] in xs
    ensures forall k :: 0 <= k < |xs| ==> xs[k] in r
    ensures forall i, j :: 0 <= i < j < |r| ==> r[i] != r[j]
  {
    if xs == [] then []
    else
      var d := Distinct(xs[..|xs| - 1]);
      assert xs == xs[..|xs| - 1] + [xs[|xs| - 1]];
      if xs[|xs| - 1] in d then d else d + [xs[|xs| - 1]]
  }

  predicate NoDuplicates<T(==)>(xs: seq<T>) {
    forall i, j :: 0 <= i < j < |xs| ==> xs[i] != xs[j]
  }

  lemma {:induction false} NoDuplicatesCount<T>(xs: seq<T>, x: T)
    requires NoDuplicates(xs)
    ensures multiset(xs)[x] <= 1
  {
    if xs != [] {
      assert xs == [xs[0]] + xs[1..];
      assert NoDuplicates(xs[1..]) by {
        forall i, j | 0 <= i < j < |xs| - 1 ensures xs[1..][i] != xs[1..][j] {
          assert xs[1..][i] == xs[i + 1] && xs[1..][j] == xs[j + 1];
        }
      }
      NoDuplicatesCount(xs[1..], x);
      assert xs[0] !in xs[1..];
    }
  }

  lemma RepeatCounted<T>(ys: seq<T>, i: nat, j: nat)
    requires i < j < |ys|
    ensures ys[i] == ys[j] ==> multiset(ys)[ys[i]] >= 2
  {
    assert ys == ys[..j] + [ys[j]] + ys[j + 1..];
    assert ys[..j][i] == ys[i];
  }

  /** A reordering of a duplicate-free sequence is duplicate-free. */
  lemma PermutationNoDuplicates<T>(xs: seq<T>, ys: seq<T>)
    requires multiset(xs) == multiset(ys) && NoDuplicates(xs)
    ensures NoDuplicates(ys)
  {
    forall i, j | 0 <= i < j < |ys| ensures ys[i] != ys[j] {
      RepeatCounted(ys, i, j);
      NoDuplicatesCount(xs, ys[i]);
    }
  }

  /** The position of the first occurrence of `x`. */
  function FirstIndex<T(==)>(xs: seq<T>, x: T): (k: nat)
    requires x in xs
    ensures k < |xs| && xs[k] == x && x !in xs[..k]
  {
    if xs[0] == x then 0 else 1 + FirstIndex(xs[1..], x)
  }

  lemma FirstIndexInPrefix<T>(xs: seq<T>, n: nat, x: T)
    requires n <= |xs| && x in xs[..n]
    ensures FirstIndex(xs, x) == FirstIndex(xs[..n], x)
  {
    var k := FirstIndex(xs[..n], x);
    var j := FirstIndex(xs, x);
    assert xs[..k] == xs[..n][..k];
  }

  /** Distinct keeps the order of first occurrences. */
  lemma {:induction false} DistinctFirstOccurrenceOrder<T>(xs: seq<T>, i: nat, j: nat)
    requires i < j < |Distinct(xs)|
    ensures FirstIndex(xs, Distinct(xs)[i]) < FirstIndex(xs, Distinct(xs)[j])
  {
    var n := |xs| - 1;
    var init := xs[..n];
    var d := Distinct(init);
    var r := Distinct(xs);
    assert xs == init + [xs[n]];
    if j < |d| {
      DistinctFirstOccurrenceOrder(init, i, j);
      assert r[i] == d[i] && r[j] == d[j];
      FirstIndexInPrefix(xs, n, d[i]);
      FirstIndexInPrefix(xs, n, d[j]);
    } else {
      assert r == d + [xs[n]] && r[j] == xs[n] && xs[n] !in init;
      assert r[i] == d[i] && d[i] in init;
      FirstIndexInPrefix(xs, n, d[i]);
      assert FirstIndex(xs, xs[n]) == n by {
        var k := FirstIndex(xs, xs[n]);
        assert xs[..n] == init;
      }
    }
  }

  /** `xs.find(p)`: the first element satisfying `p`, if any. */
  function Find<T>(xs: seq<T>, p: T -> bool): (r: Option<T>)
    ensures r.Some? ==> r.value in xs && p(r.value)
    ensures r.None? ==> forall k :: 0 <= k < |xs| ==> !p(xs[k])
  {
    if xs == [] then None else if p(xs[0]) then Some(xs[0]) else Find(xs[1..], p)
  }

  /** `xs.findIndex(p)`: the position of the first element satisfying `p`, if any. */
  function FindIndex<T>(xs: seq<T>, p: T -> bool): (r: Option<nat>)
    ensures r.Some? ==> r.value < |xs| && p(xs[r.value]) && forall k :: 0 <= k < r.value ==> !p(xs[k])
    ensures r.None? ==> forall k :: 0 <= k < |xs| ==> !p(xs[k])
  {
    if xs == [] then None
    else if p(xs[0]) then Some(0)
    else
      var r := FindIndex(xs[1..], p);
      if r.Some? then Some(r.value + 1) else None
  }

  ghost predicate TotalPreorder<T(!new)>(le: (T, T) -> bool) {
    && (forall a, b :: le(a, b) || le(b, a))
    && (forall a, b, c :: le(a, b) && le(b, c) ==> le(a, c))
  }

  predicate SortedBy<T>(s: seq<T>, le: (T, T) -> bool) {
    forall i, j :: 0 <= i < j < |s| ==> le(s[i], s[j])
  }

  /** Puts `x` before the first element it precedes. */
  function Insert<T>(x: T, s: seq<T>, le: (T, T) -> bool): (r: seq<T>)
    ensures |r| == |s| + 1
    ensures multiset(r) == multiset(s) + multiset{x}
  {
    if s == [] then [x]
    else if le(x, s[0]) then [x] + s
    else
      assert s == [s[0]] + s[1..];
      [s[0]] + Insert(x, s[1..], le)
  }

  /** A stable sort: `s.sort(cmp)` where `le(a, b)` means `cmp(a, b) <= 0`. */
  function SortBy<T>(s: seq<T>, le: (T, T) -> bool): (r: seq<T>)
    ensures |r| == |s|
    ensures multiset(r) == multiset(s)
  {
    if s == [] then []
    else
      assert s == [s[0]] + s[1..];
      Insert(s[0], SortBy(s[1..], le), le)
  }

  lemma {:induction false} InsertSorted<T(!new)>(x: T, s: seq<T>, le: (T, T) -> bool)
    requires TotalPreorder(le) && SortedBy(s, le)
    ensures SortedBy(Insert(x, s, le), le)
  {
    if s != [] && !le(x, s[0]) {
      InsertSorted(x, s[1..], le);
      var r := Insert(x, s, le);
      assert le(s[0], x);
      forall k | 1 <= k < |r| ensures le(r[0], r[k]) {
        assert r[k] in multiset(Insert(x, s[1..], le));
        assert r[k] in multiset(s[1..]) + multiset{x};
        if r[k] != x {
          assert r[k] in s[1..];
        }
      }
    }
  }

  /** The sort orders its result. */
  lemma {:induction false} SortBySorted<T(!new)>(s: seq<T>, le: (T, T) -> bool)
    requires TotalPreorder(le)
    ensures SortedBy(SortBy(s, le), le)
  {
    if s != [] {
      SortBySorted(s[1..], le);
      InsertSorted(s[0], SortBy(s[1..], le), le);
    }
  }

  /** The default `sort()` order on strings: lexicographic by character code. */
  predicate StrLe(a: string, b: string) {
    a == [] || (b != [] && (a[0] < b[0] || (a[0] == b[0] && StrLe(a[1..], b[1..]))))
  }

  lemma {:induction false} StrLeTotal(a: string, b: string)
    ensures StrLe(a, b) || StrLe(b, a)
  {
    if a != [] && b != [] && a[0] == b[0] {
      StrLeTotal(a[1..], b[1..]);
    }
  }

  lemma {:induction false} StrLeTransitive(a: string, b: string, c: string)
    requires StrLe(a, b) && StrLe(b, c)
    ensures StrLe(a, c)
  {
    if a != [] && a[0] == b[0] && b[0] == c[0] {
      StrLeTransitive(a[1..], b[1..], c[1..]);
    }
  }

  lemma {:induction false} StrLeAntisymmetric(a: string, b: string)
    requires StrLe(a, b) && StrLe(b, a)
    ensures a == b
  {
    if a != [] && b != [] {
      StrLeAntisymmetric(a[1..], b[1..]);
      assert a == [a[0]] + a[1..] && b == [b[0]] + b[1..];
    }
  }

  lemma StrLeIsTotalPreorder()
    ensures TotalPreorder(StrLe)
  {
    forall a, b ensures StrLe(a, b) || StrLe(b, a) {
      StrLeTotal(a, b);
    }
    forall a, b, c | StrLe(a, b) && StrLe(b, c) ensures StrLe(a, c) {
      StrLeTransitive(a, b, c);
    }
  }
}
