/** Index arrays: `np.arange`, fancy indexing `x[perm]` and `np.argsort`.
    The cipher permutes each block by an index array produced by an argsort,
    and undoes it with the argsort of that array. */
module Permutations {

  /** `np.arange(n)`. */
  function Iota(n: nat): (r: seq<int>)
    ensures |r| == n
    ensures forall i :: 0 <= i < n ==> r[i] == i
  {
    seq(n, i => i)
  }

  /** Every entry of `p` is a valid position of a sequence of length `n`. */
  predicate InRange(p: seq<int>, n: nat)
  {
    forall j :: 0 <= j < |p| ==> 0 <= p[j] < n
  }

  /** `p` holds each of 0 .. |p|-1 exactly once. */
  ghost predicate IsPermutation(p: seq<int>)
  {
    multiset(p) == multiset(Iota(|p|))
  }

  /** Fancy indexing `s[p]`: entry j of the result is `s[p[j]]`. */
  function Gather<T>(s: seq<T>, p: seq<int>): (r: seq<T>)
    requires InRange(p, |s|)
    ensures |r| == |p|
    ensures forall j :: 0 <= j < |p| ==> r[j] == s[p[j]]
  {
    seq(|p|, j requires 0 <= j < |p| => s[p[j]])
  }

  /** An integer index array read as argsort keys (`np.argsort` on an int array). */
  function AsKeys(p: seq<int>): (r: seq<real>)
    ensures |r| == |p|
    ensures forall j :: 0 <= j < |p| ==> r[j] == p[j] as real
  {
    seq(|p|, j requires 0 <= j < |p| => p[j] as real)
  }

  /** The keys, read in the order `idx` lists their positions, never decrease. */
  ghost predicate SortedBy(keys: seq<real>, idx: seq<int>)
    requires InRange(idx, |keys|)
  {
    forall a, b :: 0 <= a < b < |idx| ==> keys[idx[a]] <= keys[idx[b]]
  }

  /** Places position `i` after every listed position whose key is at most
      `keys[i]` (so equal keys keep their original order). */
  function Insert(keys: seq<real>, i: int, sorted: seq<int>): (r: seq<int>)
    requires 0 <= i < |keys| && InRange(sorted, |keys|)
    ensures |r| == |sorted| + 1 && InRange(r, |keys|)
    ensures multiset(r) == multiset(sorted) + multiset{i}
    decreases |sorted|
  {
    if sorted == [] then [i]
    else if keys[i] < keys[sorted[0]] then [i] + sorted
    else
      assert sorted == [sorted[0]] + sorted[1..];
      [sorted[0]] + Insert(keys, i, sorted[1..])
  }

  /** Inserting into a sorted list keeps it sorted. */
  lemma {:induction false} InsertKeepsSorted(keys: seq<real>, i: int, sorted: seq<int>)
    requires 0 <= i < |keys| && InRange(sorted, |keys|)
    requires SortedBy(keys, sorted)
    ensures SortedBy(keys, Insert(keys, i, sorted))
    decreases |sorted|
  {
    if sorted != [] && keys[sorted[0]] <= keys[i] {
      var rest := Insert(keys, i, sorted[1..]);
      InsertKeepsSorted(keys, i, sorted[1..]);
      InsertBounded(keys, i, sorted[1..], keys[sorted[0]]);
      assert Insert(keys, i, sorted) == [sorted[0]] + rest;
    }
  }

  /** A key bound that holds for `i` and for every listed position holds for
      every position of the insertion. */
  lemma {:induction false} InsertBounded(keys: seq<real>, i: int, sorted: seq<int>, m: real)
    requires 0 <= i < |keys| && InRange(sorted, |keys|)
    requires m <= keys[i]
    requires forall b :: 0 <= b < |sorted| ==> m <= keys[sorted[b]]
    ensures forall b :: 0 <= b < |sorted| + 1 ==> m <= keys[Insert(keys, i, sorted)[b]]
    decreases |sorted|
  {
    if sorted != [] && keys[sorted[0]] <= keys[i] {
      InsertBounded(keys, i, sorted[1..], m);
      assert Insert(keys, i, sorted) == [sorted[0]] + Insert(keys, i, sorted[1..]);
    }
  }

  /** Insertion sort of the positions `idx` by their keys. */
  function SortIndices(keys: seq<real>, idx: seq<int>): (r: seq<int>)
    requires InRange(idx, |keys|)
    ensures |r| == |idx| && InRange(r, |keys|)
    ensures multiset(r) == multiset(idx)
    ensures SortedBy(keys, r)
    decreases |idx|
  {
    if idx == [] then []
    else
      assert idx == idx[..|idx| - 1] + [idx[|idx| - 1]];
      var front := SortIndices(keys, idx[..|idx| - 1]);
      InsertKeepsSorted(keys, idx[|idx| - 1], front);
      Insert(keys, idx[|idx| - 1], front)
  }

  /** `np.argsort(keys)`: the positions of `keys`, ordered so that the keys
      read in that order never decrease. NumPy promises no order among equal
      keys; this definition happens to keep them by position, and the contract
      promises only a sorting permutation. */
  function Argsort(keys: seq<real>): (r: seq<int>)
    ensures |r| == |keys| && InRange(r, |keys|)
    ensures IsPermutation(r)
    ensures SortedBy(keys, r)
  {
    SortIndices(keys, Iota(|keys|))
  }

  /** Each value occurs in `np.arange(n)` once if it is below n and not at all otherwise. */
  lemma {:induction false} IotaCount(n: nat, v: int)
    ensures multiset(Iota(n))[v] == if 0 <= v < n then 1 else 0
  {
    if n > 0 {
      assert Iota(n) == Iota(n - 1) + [n - 1];
      IotaCount(n - 1, v);
    }
  }

  /** A permutation lists positions of a sequence of its own length. */
  lemma PermutationInRange(p: seq<int>)
    requires IsPermutation(p)
    ensures InRange(p, |p|)
  {
    forall j | 0 <= j < |p| ensures 0 <= p[j] < |p| {
      assert p[j] in multiset(p);
      IotaCount(|p|, p[j]);
    }
  }

  /** A permutation lists no position twice. */
  lemma PermutationInjective(p: seq<int>, i: int, j: int)
    requires IsPermutation(p) && 0 <= i < j < |p|
    ensures p[i] != p[j]
  {
    var v := p[i];
    assert p == p[..i] + [p[i]] + p[i + 1..j] + [p[j]] + p[j + 1..];
    assert multiset(p)[v] >= multiset([p[i]] + p[i + 1..j] + [p[j]])[v];
    IotaCount(|p|, v);
  }

  /** A permutation leaves out no position. */
  lemma PermutationCovers(p: seq<int>, k: int)
    requires IsPermutation(p) && 0 <= k < |p|
    ensures exists j :: 0 <= j < |p| && p[j] == k
  {
    IotaCount(|p|, k);
    assert k in multiset(p);
  }

  /** The argsort of any keys is a bijection on 0 .. n-1: no position twice,
      none missing. */
  lemma ArgsortIsBijection(keys: seq<real>)
    ensures InRange(Argsort(keys), |keys|)
    ensures forall a, b :: 0 <= a < b < |keys| ==> Argsort(keys)[a] != Argsort(keys)[b]
    ensures forall k :: 0 <= k < |keys| ==> k in Argsort(keys)
  {
    var r := Argsort(keys);
    forall a, b | 0 <= a < b < |keys| ensures r[a] != r[b] {
      PermutationInjective(r, a, b);
    }
    forall k | 0 <= k < |keys| ensures k in r {
      PermutationCovers(r, k);
    }
  }

  /** A strictly increasing sequence of n values in 0 .. n-1 is 0, 1, ..., n-1:
      each entry is at least its position ... */
  lemma {:induction false} StrictlyIncreasingAtLeast(s: seq<int>, k: int)
    requires forall j :: 0 <= j < |s| ==> 0 <= s[j]
    requires forall a, b :: 0 <= a < b < |s| ==> s[a] < s[b]
    requires 0 <= k < |s|
    ensures s[k] >= k
  {
    if k > 0 {
      StrictlyIncreasingAtLeast(s, k - 1);
    }
  }

  /** ... and at most its position. */
  lemma {:induction false} StrictlyIncreasingAtMost(s: seq<int>, k: int)
    requires forall j :: 0 <= j < |s| ==> s[j] < |s|
    requires forall a, b :: 0 <= a < b < |s| ==> s[a] < s[b]
    requires 0 <= k < |s|
    ensures s[k] <= k
    decreases |s| - k
  {
    if k < |s| - 1 {
      StrictlyIncreasingAtMost(s, k + 1);
    }
  }

  /** `np.argsort(p)` of a permutation p is its inverse: p at the k-th argsort
      entry is k. */
  lemma ArgsortInverts(p: seq<int>)
    requires IsPermutation(p)
    ensures InRange(Argsort(AsKeys(p)), |p|)
    ensures forall k :: 0 <= k < |p| ==> p[Argsort(AsKeys(p))[k]] == k
  {
    var q := Argsort(AsKeys(p));
    PermutationInRange(p);
    PermutationInRange(q);
    var s := seq(|p|, k requires 0 <= k < |p| => p[q[k]]);
    assert forall k :: 0 <= k < |s| ==> 0 <= s[k] < |s|;
    forall a, b | 0 <= a < b < |s| ensures s[a] < s[b] {
      PermutationInjective(q, a, b);
      if p[q[a]] == p[q[b]] {
        if q[a] < q[b] {
          PermutationInjective(p, q[a], q[b]);
        } else {
          PermutationInjective(p, q[b], q[a]);
        }
      }
    }
    forall k | 0 <= k < |s| ensures p[q[k]] == k {
      StrictlyIncreasingAtLeast(s, k);
      StrictlyIncreasingAtMost(s, k);
    }
  }

  /** Gathering by the argsort of a permutation undoes gathering by it:
      `x[perm][np.argsort(perm)] == x`. */
  lemma GatherByArgsortUndoes<T>(s: seq<T>, p: seq<int>)
    requires IsPermutation(p) && |p| == |s|
    ensures InRange(p, |s|) && InRange(Argsort(AsKeys(p)), |p|)
    ensures Gather(Gather(s, p), Argsort(AsKeys(p))) == s
  {
    PermutationInRange(p);
    ArgsortInverts(p);
  }
}
