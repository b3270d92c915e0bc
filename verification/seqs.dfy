/**
  Sequence utilities the retrieval pipeline is built from: first-occurrence
  de-duplication (`[...new Set(xs)]`), the subsequence relation, and a stable
  sort by descending integer key (`Array.prototype.sort` with `(a, b) => key(b) - key(a)`).
 */
module Seqs {

  /** No element occurs twice. */
  predicate NoDup<T(==)>(xs: seq<T>) {
    forall i, j :: 0 <= i < j < |xs| ==> xs[i] != xs[j]
  }

  /** Index of the first occurrence of `x` in `xs`. */
  function FirstIndex<T(==)>(xs: seq<T>, x: T): (i: nat)
    requires x in xs
    ensures i < |xs| && xs[i] == x && x !in xs[..i]
    decreases |xs|
  {
    if xs[0] == x then 0
    else
      var j := FirstIndex(xs[1..], x);
      assert xs[..j + 1] == [xs[0]] + xs[1..][..j];
      j + 1
  }

  lemma FirstIndexUnique<T>(xs: seq<T>, x: T, i: nat)
    requires i < |xs| && xs[i] == x && x !in xs[..i]
    ensures FirstIndex(xs, x) == i
  {
    var f := FirstIndex(xs, x);
    assert f >= i by {
      assert forall k :: 0 <= k < i ==> xs[..i][k] == xs[k];
    }
    assert f <= i by {
      assert forall k :: 0 <= k < f ==> xs[..f][k] == xs[k];
    }
  }

  /** `xs` can be obtained from `ys` by deleting elements (matched from the back). */
  predicate IsSubseq<T(==)>(xs: seq<T>, ys: seq<T>)
    decreases |ys|
  {
    if xs == [] then true
    else if ys == [] then false
    else if xs[|xs| - 1] == ys[|ys| - 1] then IsSubseq(xs[..|xs| - 1], ys[..|ys| - 1])
    else IsSubseq(xs, ys[..|ys| - 1])
  }

  lemma SubseqSnoc<T>(xs: seq<T>, ys: seq<T>, d: T)
    requires IsSubseq(xs, ys)
    ensures IsSubseq(xs + [d], ys + [d])
  {
    assert (xs + [d])[..|xs|] == xs;
    assert (ys + [d])[..|ys|] == ys;
  }

  lemma {:induction false} SubseqExtend<T>(xs: seq<T>, ys: seq<T>, d: T)
    requires IsSubseq(xs, ys)
    ensures IsSubseq(xs, ys + [d])
    decreases |ys|, 1
  {
    assert (ys + [d])[..|ys|] == ys;
    if xs != [] && xs[|xs| - 1] == d {
      SubseqDropLast(xs, ys);
    }
  }

  lemma {:induction false} SubseqDropLast<T>(xs: seq<T>, ys: seq<T>)
    requires xs != [] && IsSubseq(xs, ys)
    ensures IsSubseq(xs[..|xs| - 1], ys)
    decreases |ys|, 0
  {
    var ys' := ys[..|ys| - 1];
    assert ys == ys' + [ys[|ys| - 1]];
    if xs[|xs| - 1] == ys[|ys| - 1] {
      SubseqExtend(xs[..|xs| - 1], ys', ys[|ys| - 1]);
    } else {
      SubseqDropLast(xs, ys');
      SubseqExtend(xs[..|xs| - 1], ys', ys[|ys| - 1]);
    }
  }

  /** A subsequence of `ys` is a subsequence of `ys` followed by anything. */
  lemma {:induction false} SubseqAppendRight<T>(xs: seq<T>, ys: seq<T>, zs: seq<T>)
    requires IsSubseq(xs, ys)
    ensures IsSubseq(xs, ys + zs)
    decreases |zs|
  {
    if zs == [] {
      assert ys + zs == ys;
    } else {
      var init := zs[..|zs| - 1];
      SubseqAppendRight(xs, ys, init);
      SubseqExtend(xs, ys + init, zs[|zs| - 1]);
      assert ys + init + [zs[|zs| - 1]] == ys + zs;
    }
  }

  /** Every element of a subsequence is an element of the whole. */
  lemma {:induction false} SubseqMembers<T>(xs: seq<T>, ys: seq<T>)
    requires IsSubseq(xs, ys)
    ensures |xs| <= |ys|
    ensures forall x :: x in xs ==> x in ys
    decreases |ys|
  {
    if xs != [] {
      var ys' := ys[..|ys| - 1];
      assert ys == ys' + [ys[|ys| - 1]];
      if xs[|xs| - 1] == ys[|ys| - 1] {
        var xs' := xs[..|xs| - 1];
        SubseqMembers(xs', ys');
        assert xs == xs' + [xs[|xs| - 1]];
      } else {
        SubseqMembers(xs, ys');
      }
    }
  }

  /** `xs.filter(p)`. */
  function Filter<T(!new)>(xs: seq<T>, p: T -> bool): (r: seq<T>)
    ensures |r| <= |xs|
    ensures forall x :: x in r <==> x in xs && p(x)
    ensures forall i :: 0 <= i < |r| ==> p(r[i])
    decreases |xs|
  {
    if xs == [] then []
    else
      var rest := Filter(xs[1..], p);
      assert forall x :: x in xs <==> x == xs[0] || x in xs[1..];
      (if p(xs[0]) then [xs[0]] else []) + rest
  }

  /** `[...new Set(xs)]`: the distinct elements of `xs` in order of first occurrence. */
  function Dedup<T(==,!new)>(xs: seq<T>): (r: seq<T>)
    ensures NoDup(r)
    ensures forall x :: x in r <==> x in xs
    ensures IsSubseq(r, xs)
    decreases |xs|
  {
    if xs == [] then []
    else
      var init := xs[..|xs| - 1];
      var last := xs[|xs| - 1];
      assert xs == init + [last];
      var p := Dedup(init);
      if last in p then
        SubseqExtend(p, init, last);
        p
      else
        SubseqSnoc(p, init, last);
        p + [last]
  }

  /** A first occurrence inside a prefix is the first occurrence in the whole sequence. */
  lemma FirstIndexOfPrefix<T>(xs: seq<T>, n: nat, y: T)
    requires n <= |xs| && y in xs[..n]
    ensures y in xs && FirstIndex(xs, y) == FirstIndex(xs[..n], y)
  {
    var f := FirstIndex(xs[..n], y);
    assert xs[..f] == xs[..n][..f];
    FirstIndexUnique(xs, y, f);
  }

  /** `Dedup` lists elements in the order of their first occurrences. */
  lemma {:induction false} DedupFirstOccurrenceOrder<T(!new)>(xs: seq<T>)
    ensures forall i, j :: 0 <= i < j < |Dedup(xs)| ==> FirstIndex(xs, Dedup(xs)[i]) < FirstIndex(xs, Dedup(xs)[j])
    decreases |xs|
  {
    if xs != [] {
      var init := xs[..|xs| - 1];
      var last := xs[|xs| - 1];
      assert xs == init + [last];
      var p := Dedup(init);
      DedupFirstOccurrenceOrder(init);
      forall y | y in p ensures FirstIndex(xs, y) == FirstIndex(init, y) {
        FirstIndexOfPrefix(xs, |xs| - 1, y);
      }
      if last !in p {
        FirstIndexUnique(xs, last, |xs| - 1);
        var r := p + [last];
        forall i, j | 0 <= i < j < |r| ensures FirstIndex(xs, r[i]) < FirstIndex(xs, r[j]) {
          if j < |p| {
            assert r[i] == p[i] && r[j] == p[j];
          } else {
            assert r[i] == p[i] && r[i] in init;
          }
        }
      }
    }
  }

  lemma DedupOfNoDup<T(!new)>(xs: seq<T>)
    requires NoDup(xs)
    ensures Dedup(xs) == xs
    decreases |xs|
  {
    if xs != [] {
      var init := xs[..|xs| - 1];
      DedupOfNoDup(init);
    }
  }

  // ---------------------------------------------------------------------
  // stable sort by descending key

  /** Non-increasing by `key`. */
  predicate SortedDesc<T>(xs: seq<T>, key: T -> int) {
    forall i, j :: 0 <= i < j < |xs| ==> key(xs[i]) >= key(xs[j])
  }

  /** The elements of `xs` whose key is `k`, in order. */
  function WithKey<T>(xs: seq<T>, key: T -> int, k: int): seq<T>
    decreases |xs|
  {
    if xs == [] then []
    else (if key(xs[0]) == k then [xs[0]] else []) + WithKey(xs[1..], key, k)
  }

  /** Places `x` before the first element whose key is not larger than its own. */
  function InsertDesc<T>(x: T, ys: seq<T>, key: T -> int): (r: seq<T>)
    requires SortedDesc(ys, key)
    ensures SortedDesc(r, key)
    ensures multiset(r) == multiset(ys) + multiset{x}
    ensures r != [] && (r[0] == x || (ys != [] && r[0] == ys[0]))
    decreases |ys|
  {
    if ys == [] || key(ys[0]) <= key(x) then
      [x] + ys
    else
      var rest := InsertDesc(x, ys[1..], key);
      assert ys == [ys[0]] + ys[1..];
      BelowHead(x, ys, rest, key);
      ConsSorted(ys[0], rest, key);
      [ys[0]] + rest
  }

  /** The head of a sorted sequence bounds the keys of any rearrangement of its tail with a smaller element. */
  lemma BelowHead<T>(x: T, ys: seq<T>, rest: seq<T>, key: T -> int)
    requires SortedDesc(ys, key) && ys != [] && key(x) < key(ys[0])
    requires multiset(rest) == multiset(ys[1..]) + multiset{x}
    ensures forall j :: 0 <= j < |rest| ==> key(rest[j]) <= key(ys[0])
  {
    forall j | 0 <= j < |rest| ensures key(rest[j]) <= key(ys[0]) {
      assert rest[j] in multiset(rest);
      if rest[j] != x {
        assert rest[j] in ys[1..];
        var k :| 0 <= k < |ys[1..]| && ys[1..][k] == rest[j];
        assert ys[k + 1] == rest[j];
      }
    }
  }

  lemma ConsSorted<T>(a: T, rest: seq<T>, key: T -> int)
    requires SortedDesc(rest, key) && forall j :: 0 <= j < |rest| ==> key(rest[j]) <= key(a)
    ensures SortedDesc([a] + rest, key)
  {
    var r := [a] + rest;
    forall i, j | 0 <= i < j < |r| ensures key(r[i]) >= key(r[j]) {
      assert r[j] == rest[j - 1];
      if i > 0 {
        assert r[i] == rest[i - 1];
      }
    }
  }

  /** Unfolds `WithKey` on a sequence with a known first element. */
  lemma WithKeyCons<T>(a: T, ys: seq<T>, key: T -> int, k: int)
    ensures WithKey([a] + ys, key, k) == (if key(a) == k then [a] else []) + WithKey(ys, key, k)
  {
    assert ([a] + ys)[1..] == ys;
  }

  /** Stable sort by descending key: sorted and a permutation of its input. */
  function SortDesc<T>(xs: seq<T>, key: T -> int): (r: seq<T>)
    ensures SortedDesc(r, key)
    ensures multiset(r) == multiset(xs)
    decreases |xs|
  {
    if xs == [] then []
    else
      assert xs == [xs[0]] + xs[1..];
      InsertDesc(xs[0], SortDesc(xs[1..], key), key)
  }

  lemma {:induction false} InsertDescWithKey<T>(x: T, ys: seq<T>, key: T -> int, k: int)
    requires SortedDesc(ys, key)
    ensures WithKey(InsertDesc(x, ys, key), key, k)
         == (if key(x) == k then [x] else []) + WithKey(ys, key, k)
    decreases |ys|
  {
    if ys == [] || key(ys[0]) <= key(x) {
      WithKeyCons(x, ys, key, k);
    } else {
      var rest := InsertDesc(x, ys[1..], key);
      InsertDescWithKey(x, ys[1..], key, k);
      WithKeyCons(ys[0], rest, key, k);
      WithKeyCons(ys[0], ys[1..], key, k);
      assert [ys[0]] + ys[1..] == ys;
    }
  }

  /** Stability: among elements with equal keys, the sort keeps the input order. */
  lemma {:induction false} SortDescStable<T>(xs: seq<T>, key: T -> int, k: int)
    ensures WithKey(SortDesc(xs, key), key, k) == WithKey(xs, key, k)
    decreases |xs|
  {
    if xs != [] {
      SortDescStable(xs[1..], key, k);
      InsertDescWithKey(xs[0], SortDesc(xs[1..], key), key, k);
    }
  }

  lemma SortDescOfSorted<T>(xs: seq<T>, key: T -> int)
    requires SortedDesc(xs, key)
    ensures SortDesc(xs, key) == xs
    decreases |xs|
  {
    if xs != [] {
      SortDescOfSorted(xs[1..], key);
      assert SortDesc(xs[1..], key) == xs[1..];
      assert xs == [xs[0]] + xs[1..];
    }
  }
}
