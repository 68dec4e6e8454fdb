/** Python's `dict` of counts and `collections.Counter` as the metrics use
    them: the keys in insertion order (the order in which `.values()` and
    `.items()` visit them) and one count per key. */
module Tally {

  datatype Table<K> = Table(keys: seq<K>, counts: map<K, nat>)

  /** A dict with no entries. */
  function Empty<K>(): Table<K>
  {
    Table([], map[])
  }

  /** `counts.get(k, 0)`. */
  function Get<K>(counts: map<K, nat>, k: K): nat
  {
    if k in counts then counts[k] else 0
  }

  /** No key listed twice, and the listed keys are those with an entry. */
  ghost predicate Valid<K(!new)>(t: Table<K>)
  {
    && (forall i, j :: 0 <= i < j < |t.keys| ==> t.keys[i] != t.keys[j])
    && (forall k :: k in t.counts <==> k in t.keys)
  }

  /** `counter[k] += 1`, or `d[k] = d.get(k, 0) + 1`: a new key goes to the
      end of the insertion order. */
  function Add<K>(t: Table<K>, k: K): Table<K>
  {
    if k in t.counts then Table(t.keys, t.counts[k := t.counts[k] + 1])
    else Table(t.keys + [k], t.counts[k := 1])
  }

  /** `sum(d.values())`, added in insertion order. */
  function Sum<K>(keys: seq<K>, counts: map<K, nat>): nat
  {
    if keys == [] then 0 else Sum(keys[..|keys| - 1], counts) + Get(counts, keys[|keys| - 1])
  }

  function Total<K>(t: Table<K>): nat
  {
    Sum(t.keys, t.counts)
  }

  /** `Counter(s)`: every element of `s` added in turn. */
  function Tallied<K>(s: seq<K>): Table<K>
  {
    if s == [] then Empty() else Add(Tallied(s[..|s| - 1]), s[|s| - 1])
  }

  /** The number of times `k` occurs in `s`, `s.count(k)`. */
  function Count<K(==)>(s: seq<K>, k: K): (c: nat)
    ensures c <= |s|
  {
    if s == [] then 0 else Count(s[..|s| - 1], k) + (if s[|s| - 1] == k then 1 else 0)
  }

  /** Changing the entry of a key that is not listed leaves the sum alone. */
  lemma {:induction false} SumOffKeys<K>(keys: seq<K>, counts: map<K, nat>, k: K, v: nat)
    requires k !in keys
    ensures Sum(keys, counts[k := v]) == Sum(keys, counts)
  {
    if keys != [] {
      SumOffKeys(keys[..|keys| - 1], counts, k, v);
    }
  }

  /** Adding one to the entry of a key listed once adds one to the sum. */
  lemma {:induction false} SumIncrement<K>(keys: seq<K>, counts: map<K, nat>, k: K)
    requires forall i, j :: 0 <= i < j < |keys| ==> keys[i] != keys[j]
    requires k in keys
    ensures Sum(keys, counts[k := Get(counts, k) + 1]) == Sum(keys, counts) + 1
  {
    var front := keys[..|keys| - 1];
    if keys[|keys| - 1] == k {
      assert k !in front;
      SumOffKeys(front, counts, k, Get(counts, k) + 1);
    } else {
      assert k in front;
      SumIncrement(front, counts, k);
    }
  }

  /** One `Add` keeps the table well formed, adds one to the count of its key
      and to the total, and changes no other count. */
  lemma AddCounts<K(!new)>(t: Table<K>, k: K)
    requires Valid(t)
    ensures Valid(Add(t, k))
    ensures Total(Add(t, k)) == Total(t) + 1
    ensures forall j :: Get(Add(t, k).counts, j) == Get(t.counts, j) + (if j == k then 1 else 0)
    ensures k in t.counts ==> Add(t, k).keys == t.keys
    ensures k !in t.counts ==> Add(t, k).keys == t.keys + [k]
  {
    if k in t.counts {
      SumIncrement(t.keys, t.counts, k);
    } else {
      AddNewKey(t, k);
    }
  }

  /** `Add` of a key the table does not have yet. */
  lemma AddNewKey<K(!new)>(t: Table<K>, k: K)
    requires Valid(t) && k !in t.counts
    ensures Valid(Add(t, k))
    ensures Total(Add(t, k)) == Total(t) + 1
  {
    var keys := t.keys + [k];
    var counts := t.counts[k := 1];
    assert Add(t, k) == Table(keys, counts);
    assert k !in t.keys;
    SumOffKeys(t.keys, t.counts, k, 1);
    assert keys[..|keys| - 1] == t.keys;
    assert Sum(keys, counts) == Sum(t.keys, counts) + 1;
    forall i, j | 0 <= i < j < |keys| ensures keys[i] != keys[j] {
      if j == |keys| - 1 {
        assert keys[i] == t.keys[i];
      }
    }
  }

  /** `Counter(s)`: one entry per distinct element, holding the number of
      times it occurs; the counts add up to the length of `s`. */
  lemma TalliedCounts<K(!new)>(s: seq<K>)
    ensures Valid(Tallied(s))
    ensures forall k :: k in Tallied(s).counts <==> k in s
    ensures forall k :: Get(Tallied(s).counts, k) == Count(s, k)
    ensures Total(Tallied(s)) == |s|
  {
    TalliedValid(s);
    TalliedKeys(s);
    TalliedCount(s);
  }

  lemma {:induction false} TalliedValid<K(!new)>(s: seq<K>)
    ensures Valid(Tallied(s)) && Total(Tallied(s)) == |s|
  {
    if s != [] {
      TalliedValid(s[..|s| - 1]);
      AddCounts(Tallied(s[..|s| - 1]), s[|s| - 1]);
    }
  }

  lemma {:induction false} TalliedKeys<K>(s: seq<K>)
    ensures forall k :: k in Tallied(s).counts <==> k in s
  {
    if s != [] {
      var front := s[..|s| - 1];
      TalliedKeys(front);
      assert s == front + [s[|s| - 1]];
      forall k ensures k in s <==> k in front || k == s[|s| - 1] {
        assert k in front ==> k in s;
      }
    }
  }

  lemma {:induction false} TalliedCount<K(!new)>(s: seq<K>)
    ensures forall k :: Get(Tallied(s).counts, k) == Count(s, k)
  {
    if s != [] {
      var front := s[..|s| - 1];
      TalliedCount(front);
      forall k ensures Get(Tallied(s).counts, k) == Count(s, k) {
        assert Get(Add(Tallied(front), s[|s| - 1]).counts, k)
            == Get(Tallied(front).counts, k) + (if k == s[|s| - 1] then 1 else 0);
      }
    }
  }

  /** Every listed key of a counter has a positive count. */
  lemma TalliedPositive<K(!new)>(s: seq<K>, k: K)
    requires k in Tallied(s).keys
    ensures Get(Tallied(s).counts, k) >= 1
  {
    TalliedCounts(s);
  }

  /** A counter of elements drawn from a set of m values has at most m keys. */
  lemma TalliedKeysWithin<K(!new)>(s: seq<K>, values: set<K>)
    requires forall i :: 0 <= i < |s| ==> s[i] in values
    ensures |Tallied(s).keys| <= |values|
  {
    TalliedCounts(s);
    var keys := Tallied(s).keys;
    DistinctCard(keys);
    var present := set k | k in keys;
    assert present <= values;
    SubsetCard(present, values);
  }

  /** A sequence without repetitions has as many elements as its set. */
  lemma {:induction false} DistinctCard<K>(keys: seq<K>)
    requires forall i, j :: 0 <= i < j < |keys| ==> keys[i] != keys[j]
    ensures |set k | k in keys| == |keys|
  {
    if keys != [] {
      var front := keys[..|keys| - 1];
      var last := keys[|keys| - 1];
      DistinctCard(front);
      assert last !in front;
      assert (set k | k in keys) == (set k | k in front) + {last};
    }
  }

  /** A subset is no larger than its superset. */
  lemma SubsetCard<K>(a: set<K>, b: set<K>)
    requires a <= b
    ensures |a| <= |b|
  {
    assert b == a + (b - a);
  }
}
