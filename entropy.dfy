/** Shannon entropy of a symbol sequence from its histogram, the entropy of
    fixed-size blocks, and the conditional entropy of a symbol given the
    `order` symbols before it. `math.log2` is a parameter. */
module Entropy {
  import opened Base
  import opened Tally

  // ---------------------------------------------------------------------
  // Entropy of a histogram

  /** `p * math.log2(p)`, the amount subtracted for a probability p; nothing
      is subtracted unless p > 0. */
  function Information(log2: real -> real, p: real): real
  {
    if p > 0.0 then p * log2(p) else 0.0
  }

  /** `-sum(p * log2(p))` over the counts of the listed keys, `p = count / n`,
      subtracted in key order. */
  function HistogramEntropy<K(==)>(log2: real -> real, keys: seq<K>, counts: map<K, nat>, n: nat): real
    requires n > 0
  {
    if keys == [] then 0.0
    else
      HistogramEntropy(log2, keys[..|keys| - 1], counts, n)
        - Information(log2, Get(counts, keys[|keys| - 1]) as real / n as real)
  }

  /** The Shannon entropy of a sequence in bits: 0 for the empty sequence,
      otherwise the entropy of its `Counter`. */
  function Entropy<K(==)>(log2: real -> real, s: seq<K>): real
  {
    if |s| == 0 then 0.0
    else
      var counts := Tallied(s);
      HistogramEntropy(log2, counts.keys, counts.counts, |s|)
  }

  /** The loop `for count in counts.values(): p = count / n; if p > 0:
      entropy -= p * math.log2(p)`. */
  method HistogramLoop<K(==)>(log2: real -> real, counts: Table<K>, n: nat) returns (h: real)
    requires n > 0
    ensures h == HistogramEntropy(log2, counts.keys, counts.counts, n)
  {
    h := 0.0;
    var i := 0;
    while i < |counts.keys|
      invariant 0 <= i <= |counts.keys|
      invariant h == HistogramEntropy(log2, counts.keys[..i], counts.counts, n)
    {
      var p := Get(counts.counts, counts.keys[i]) as real / n as real;
      if p > 0.0 {
        h := h - p * log2(p);
      }
      assert counts.keys[..i + 1][..i] == counts.keys[..i];
      i := i + 1;
    }
    assert counts.keys[..i] == counts.keys;
  }

  /** `shannon_entropy(sequence)`; `shannon_entropy_bytes` is this on bytes. */
  method ShannonEntropy<K(==)>(log2: real -> real, s: seq<K>) returns (h: real)
    ensures |s| == 0 ==> h == 0.0
    ensures h == Entropy(log2, s)
  {
    if |s| == 0 {
      return 0.0;
    }
    var counts := Tallied(s);
    var n := |s|;
    h := HistogramLoop(log2, counts, n);
  }

  /** Where `log2` is at most 0 on (0, 1], every probability subtracts a
      non-positive amount, so the entropy is never negative. */
  lemma {:induction false} HistogramNonNegative<K>(log2: real -> real, keys: seq<K>, counts: map<K, nat>, n: nat)
    requires n > 0
    requires forall p :: 0.0 < p <= 1.0 ==> log2(p) <= 0.0
    requires forall j :: 0 <= j < |keys| ==> Get(counts, keys[j]) <= n
    ensures HistogramEntropy(log2, keys, counts, n) >= 0.0
  {
    if keys != [] {
      var front := keys[..|keys| - 1];
      assert forall j :: 0 <= j < |front| ==> front[j] == keys[j];
      HistogramNonNegative(log2, front, counts, n);
      InformationNonPositive(log2, Get(counts, keys[|keys| - 1]), n);
    }
  }

  /** The amount subtracted for `count / n`, count at most n, is never
      positive where `log2` is at most 0 on (0, 1]. */
  lemma InformationNonPositive(log2: real -> real, count: nat, n: nat)
    requires 0 < n && count <= n
    requires forall p :: 0.0 < p <= 1.0 ==> log2(p) <= 0.0
    ensures Information(log2, count as real / n as real) <= 0.0
  {
    var p := Quotient(count as real, n as real);
    QuotientUnit(count as real, n as real);
    if p > 0.0 {
      ProductNonPositive(p, log2(p));
      assert Information(log2, count as real / n as real) == Product(p, log2(p));
    }
  }

  lemma EntropyNonNegative<K(!new)>(log2: real -> real, s: seq<K>)
    requires forall p :: 0.0 < p <= 1.0 ==> log2(p) <= 0.0
    ensures Entropy(log2, s) >= 0.0
  {
    if |s| > 0 {
      var counts := Tallied(s);
      TalliedCounts(s);
      HistogramNonNegative(log2, counts.keys, counts.counts, |s|);
    }
  }

  /** A sequence of one repeated symbol has entropy 0 (`log2(1) = 0`). */
  lemma ConstantEntropy<K(!new)>(log2: real -> real, s: seq<K>)
    requires log2(1.0) == 0.0
    requires |s| > 0 && forall j :: 0 <= j < |s| ==> s[j] == s[0]
    ensures Entropy(log2, s) == 0.0
  {
    var counts := Tallied(s);
    var n := |s|;
    TalliedCounts(s);
    var present := set k | k in counts.keys;
    assert present == {s[0]};
    DistinctCard(counts.keys);
    assert counts.keys == [s[0]];
    var c := Get(counts.counts, s[0]);
    assert c == n by {
      assert [s[0]][..0] == [];
      assert Total(counts) == Sum([s[0]], counts.counts) == Sum([], counts.counts) + c;
    }
    OneKeyEntropy(log2, s[0], counts.counts, n);
  }

  /** One key holding the whole count contributes `1 * log2(1)`. */
  lemma OneKeyEntropy<K>(log2: real -> real, k: K, counts: map<K, nat>, n: nat)
    requires log2(1.0) == 0.0
    requires n > 0 && Get(counts, k) == n
    ensures HistogramEntropy(log2, [k], counts, n) == 0.0
  {
    assert [k][..0] == [];
    QuotientOne(n as real, n as real);
    assert Information(log2, Quotient(n as real, n as real)) == Product(1.0, log2(1.0));
  }

  /** Two symbols occurring equally often give entropy 1 (`log2(0.5) = -1`):
      the repeated pattern `[0, 1, 0, 1, ...]`. */
  lemma TwoSymbolEntropy<K(!new)>(log2: real -> real, s: seq<K>, a: K, b: K)
    requires log2(0.5) == -1.0
    requires a != b && a in s && b in s
    requires forall j :: 0 <= j < |s| ==> s[j] == a || s[j] == b
    requires Count(s, a) == Count(s, b)
    ensures Entropy(log2, s) == 1.0
  {
    var counts := Tallied(s);
    TalliedCounts(s);
    assert forall k :: k in counts.keys <==> k == a || k == b;
    TwoKeysListed(counts.keys, a, b);
    var x, y := counts.keys[0], counts.keys[1];
    assert Get(counts.counts, x) == Get(counts.counts, y);
    TwoKeysEntropy(log2, x, y, counts.counts, |s|);
  }

  /** A list without repetitions holding exactly a and b is [a, b] or [b, a]. */
  lemma TwoKeysListed<K>(keys: seq<K>, a: K, b: K)
    requires forall i, j :: 0 <= i < j < |keys| ==> keys[i] != keys[j]
    requires a != b && forall k :: k in keys <==> k == a || k == b
    ensures keys == [a, b] || keys == [b, a]
  {
    DistinctCard(keys);
    assert (set k | k in keys) == {a, b};
    assert |keys| == 2;
    assert keys == [keys[0], keys[1]];
  }

  /** Two keys holding half the count each contribute `0.5 * log2(0.5)`
      each. */
  lemma TwoKeysEntropy<K>(log2: real -> real, x: K, y: K, counts: map<K, nat>, n: nat)
    requires log2(0.5) == -1.0
    requires n > 0 && Get(counts, x) == Get(counts, y) && Sum([x, y], counts) == n
    ensures HistogramEntropy(log2, [x, y], counts, n) == 1.0
  {
    assert [x, y][..1] == [x];
    assert [x][..0] == [];
    var c := Get(counts, x);
    assert Sum([x], counts) == Sum([], counts) + c;
    assert Sum([x, y], counts) == Sum([x], counts) + Get(counts, y);
    assert 2 * c == n;
    QuotientHalf(c as real, n as real);
    var share := Information(log2, c as real / n as real);
    assert share == Information(log2, Quotient(c as real, n as real)) == Product(0.5, -1.0) == -0.5;
    assert HistogramEntropy(log2, [x], counts, n) == 0.0 - share;
    assert HistogramEntropy(log2, [x, y], counts, n) == HistogramEntropy(log2, [x], counts, n) - share;
  }

  // ---------------------------------------------------------------------
  // Blocks

  /** Block i, `byte_array[i * block_size:(i + 1) * block_size]`, for a
      block that lies wholly inside the array. */
  function Block(bytes: seq<byte>, bs: nat, i: nat): (b: seq<byte>)
    requires bs > 0 && i < |bytes| / bs
    ensures |b| == bs && i * bs + bs <= |bytes|
    ensures forall j :: 0 <= j < bs ==> b[j] == bytes[i * bs + j]
  {
    BlockWithin(i, bs, |bytes| / bs, |bytes|);
    SliceAt(bytes, bytes[i * bs..(i + 1) * bs], i * bs, bs);
    bytes[i * bs..(i + 1) * bs]
  }

  /** The entries of a slice are those of the sequence, shifted by its start. */
  lemma SliceAt<T>(s: seq<T>, t: seq<T>, lo: nat, len: nat)
    requires lo + len <= |s| && t == s[lo..lo + len]
    ensures forall j :: 0 <= j < len ==> t[j] == s[lo + j]
  {
  }

  /** `entropy_per_block(byte_array, block_size)`: `len // block_size`
      entries (`//` by zero raises), entry i the entropy of block i; a
      trailing partial block is not measured. */
  method EntropyPerBlock(log2: real -> real, bytes: seq<byte>, blockSize: int) returns (r: Result<seq<real>>)
    ensures r.Err? <==> blockSize == 0
    ensures r.Err? ==> r.error == ZeroDivisionError
    ensures r.Ok? && blockSize < 0 ==> r.value == []
    ensures r.Ok? && blockSize > 0 ==>
              && |r.value| == |bytes| / blockSize
              && |r.value| * blockSize <= |bytes| < (|r.value| + 1) * blockSize
              && forall i :: 0 <= i < |r.value| ==> r.value[i] == Entropy(log2, Block(bytes, blockSize, i))
  {
    if blockSize == 0 {
      return Err(ZeroDivisionError);
    }
    if blockSize < 0 {
      return Ok([]);
    }
    var nBlocks := |bytes| / blockSize;
    var entropies: seq<real> := [];
    var i := 0;
    while i < nBlocks
      invariant 0 <= i <= nBlocks
      invariant |entropies| == i
      invariant forall j :: 0 <= j < i ==> entropies[j] == Entropy(log2, Block(bytes, blockSize, j))
    {
      BlockWithin(i, blockSize, nBlocks, |bytes|);
      var block := bytes[i * blockSize..(i + 1) * blockSize];
      assert block == Block(bytes, blockSize, i);
      var h := ShannonEntropy(log2, block);
      entropies := entropies + [h];
      i := i + 1;
    }
    DivBounds(|bytes|, blockSize);
    r := Ok(entropies);
  }

  /** Block i < len // bs lies inside the sequence. */
  lemma BlockWithin(i: nat, bs: nat, nBlocks: nat, n: nat)
    requires bs > 0 && nBlocks == n / bs && i < nBlocks
    ensures 0 <= i * bs <= (i + 1) * bs <= n
    ensures (i + 1) * bs == i * bs + bs
  {
    DivBounds(n, bs);
    MulAtMost(i + 1, nBlocks, bs);
  }

  lemma MulAtMost(a: nat, b: nat, c: nat)
    requires a <= b
    ensures a * c <= b * c
  {
  }

  /** (n // bs) bs <= n < (n // bs + 1) bs. */
  lemma DivBounds(n: nat, bs: nat)
    requires bs > 0
    ensures (n / bs) * bs <= n < (n / bs + 1) * bs
  {
  }

  // ---------------------------------------------------------------------
  // Conditional entropy

  /** A dict from contexts to `Counter`s of the symbols seen after them,
      the contexts in insertion order. */
  datatype Grouping<C(==), K(==)> = Grouping(contexts: seq<C>, counters: map<C, Table<K>>)

  /** `contexts.get(c, Counter())`. */
  function CounterOf<C(==), K(==)>(g: Grouping<C, K>, c: C): Table<K>
  {
    if c in g.counters then g.counters[c] else Empty()
  }

  /** `contexts.setdefault(c, Counter())[k] += 1`. */
  function Group<C(==), K(==)>(g: Grouping<C, K>, c: C, k: K): Grouping<C, K>
  {
    if c in g.counters then Grouping(g.contexts, g.counters[c := Add(g.counters[c], k)])
    else Grouping(g.contexts + [c], g.counters[c := Add(Empty(), k)])
  }

  /** The grouping of a list of (context, symbol) pairs. */
  function Grouped<C(==), K(==)>(pairs: seq<(C, K)>): Grouping<C, K>
  {
    if pairs == [] then Grouping([], map[])
    else Group(Grouped(pairs[..|pairs| - 1]), pairs[|pairs| - 1].0, pairs[|pairs| - 1].1)
  }

  /** The contexts of the pairs, in order. */
  function Firsts<C(==), K(==)>(pairs: seq<(C, K)>): (cs: seq<C>)
    ensures |cs| == |pairs|
  {
    if pairs == [] then [] else Firsts(pairs[..|pairs| - 1]) + [pairs[|pairs| - 1].0]
  }

  /** The symbols that follow context c, in order. */
  function Following<C(==), K(==)>(pairs: seq<(C, K)>, c: C): seq<K>
  {
    if pairs == [] then []
    else
      var rest := Following(pairs[..|pairs| - 1], c);
      if pairs[|pairs| - 1].0 == c then rest + [pairs[|pairs| - 1].1] else rest
  }

  /** Counting one more element is `Add` on the counter of the rest. */
  lemma TalliedSnoc<K>(s: seq<K>, k: K)
    ensures Tallied(s + [k]) == Add(Tallied(s), k)
  {
    assert (s + [k])[..|s|] == s;
  }

  /** The contexts are listed as a `Counter` of the contexts would list
      them, and the counter of each context counts exactly the symbols that
      follow it. */
  lemma {:induction false} GroupedCounters<C(!new), K(!new)>(pairs: seq<(C, K)>)
    ensures Grouped(pairs).contexts == Tallied(Firsts(pairs)).keys
    ensures forall c :: c in Grouped(pairs).counters <==> c in Tallied(Firsts(pairs)).counts
    ensures forall c :: CounterOf(Grouped(pairs), c) == Tallied(Following(pairs, c))
  {
    if pairs != [] {
      var front := pairs[..|pairs| - 1];
      var c0, k0 := pairs[|pairs| - 1].0, pairs[|pairs| - 1].1;
      GroupedCounters(front);
      assert Firsts(pairs) == Firsts(front) + [c0];
      TalliedSnoc(Firsts(front), c0);
      forall c ensures CounterOf(Grouped(pairs), c) == Tallied(Following(pairs, c)) {
        if c == c0 {
          TalliedSnoc(Following(front, c), k0);
        }
      }
    }
  }

  /** Each context's counter totals the number of positions the context
      precedes. */
  lemma ContextCount<C(!new), K(!new)>(pairs: seq<(C, K)>, c: C)
    ensures Total(CounterOf(Grouped(pairs), c)) == Count(Firsts(pairs), c)
  {
    GroupedCounters(pairs);
    TalliedCounts(Following(pairs, c));
    FollowingCount(pairs, c);
  }

  lemma {:induction false} FollowingCount<C, K>(pairs: seq<(C, K)>, c: C)
    ensures |Following(pairs, c)| == Count(Firsts(pairs), c)
  {
    if pairs != [] {
      var front := pairs[..|pairs| - 1];
      FollowingCount(front, c);
      assert Firsts(pairs)[..|pairs| - 1] == Firsts(front);
    }
  }

  /** `sum(sum(counter.values()) for counter in contexts.values())` over the
      listed contexts. */
  function ContextsTotal<C(==), K(==)>(g: Grouping<C, K>, contexts: seq<C>): nat
  {
    if contexts == [] then 0
    else ContextsTotal(g, contexts[..|contexts| - 1]) + Total(CounterOf(g, contexts[|contexts| - 1]))
  }

  /** Summing per-key values that agree with a table's counts gives the
      table's sum. */
  lemma {:induction false} ContextsTotalIsSum<C(!new), K(!new)>(pairs: seq<(C, K)>, contexts: seq<C>)
    requires forall c :: Total(CounterOf(Grouped(pairs), c)) == Get(Tallied(Firsts(pairs)).counts, c)
    ensures ContextsTotal(Grouped(pairs), contexts) == Sum(contexts, Tallied(Firsts(pairs)).counts)
  {
    if contexts != [] {
      ContextsTotalIsSum(pairs, contexts[..|contexts| - 1]);
    }
  }

  /** The context counts add up to the number of pairs. */
  lemma ContextsTotalIsLength<C(!new), K(!new)>(pairs: seq<(C, K)>)
    ensures ContextsTotal(Grouped(pairs), Grouped(pairs).contexts) == |pairs|
  {
    GroupedCounters(pairs);
    TalliedCounts(Firsts(pairs));
    forall c ensures Total(CounterOf(Grouped(pairs), c)) == Get(Tallied(Firsts(pairs)).counts, c) {
      ContextCount(pairs, c);
    }
    ContextsTotalIsSum(pairs, Grouped(pairs).contexts);
  }

  /** Every listed context has a non-empty counter. */
  lemma ListedContextPositive<C(!new), K(!new)>(pairs: seq<(C, K)>, c: C)
    requires c in Grouped(pairs).contexts
    ensures Total(CounterOf(Grouped(pairs), c)) > 0
  {
    GroupedCounters(pairs);
    ContextCount(pairs, c);
    TalliedCounts(Firsts(pairs));
    TalliedPositive(Firsts(pairs), c);
  }

  /** `sum(p_context * h_context)` over the listed contexts, with
      `p_context = context_count / total_count`. */
  function ConditionalOver<C(==), K(==)>(log2: real -> real, g: Grouping<C, K>, contexts: seq<C>, total: nat): real
    requires total > 0
  {
    if contexts == [] then 0.0
    else
      var counter := CounterOf(g, contexts[|contexts| - 1]);
      var contextCount := Total(counter);
      var hContext := if contextCount == 0 then 0.0 else HistogramEntropy(log2, counter.keys, counter.counts, contextCount);
      ConditionalOver(log2, g, contexts[..|contexts| - 1], total) + Weighted(contextCount as real / total as real, hContext)
  }

  /** `p_context * h_context`. */
  function Weighted(pContext: real, hContext: real): real
  {
    pContext * hContext
  }

  /** The (context, symbol) pairs `(tuple(s[i - order:i]), s[i])` for
      i = order .. len - 1. */
  function Pairs<K(==)>(s: seq<K>, order: nat): (ps: seq<(seq<K>, K)>)
    requires order < |s|
    ensures |ps| == |s| - order
    ensures forall j :: 0 <= j < |ps| ==> ps[j] == (s[j..j + order], s[j + order])
  {
    seq(|s| - order, j requires 0 <= j < |s| - order => (s[j..j + order], s[j + order]))
  }

  /** The conditional entropy H(X_n | X_{n-1}, ..., X_{n-order}). */
  function Conditional<K(==)>(log2: real -> real, s: seq<K>, order: nat): real
  {
    if |s| <= order then 0.0
    else
      var g := Grouped(Pairs(s, order));
      ConditionalOver(log2, g, g.contexts, |s| - order)
  }

  /** `conditional_entropy(sequence, order)`: 0 when the sequence is no
      longer than the order; otherwise the loop groups every symbol under
      the `order` symbols before it, and the weighted entropies of the groups
      are added up. */
  method ConditionalEntropy<K(==,!new)>(log2: real -> real, s: seq<K>, order: nat) returns (h: real)
    ensures |s| <= order ==> h == 0.0
    ensures h == Conditional(log2, s, order)
  {
    if |s| <= order {
      return 0.0;
    }
    ghost var pairs := Pairs(s, order);
    var contexts := ContextTable(s, order);
    var totalCount := ContextsTotal(contexts, contexts.contexts);
    ContextsTotalIsLength(pairs);
    h := 0.0;
    var k := 0;
    while k < |contexts.contexts|
      invariant 0 <= k <= |contexts.contexts|
      invariant h == ConditionalOver(log2, contexts, contexts.contexts[..k], totalCount)
    {
      var context := contexts.contexts[k];
      var counter := CounterOf(contexts, context);
      var contextCount := Total(counter);
      ListedContextPositive(pairs, context);
      var pContext := contextCount as real / totalCount as real;
      var hContext := HistogramLoop(log2, counter, contextCount);
      ConditionalStep(log2, contexts, contexts.contexts, k, totalCount);
      h := h + Weighted(pContext, hContext);
      k := k + 1;
    }
    assert contexts.contexts[..k] == contexts.contexts;
  }

  /** The loop that builds the conditional frequency table: every symbol
      from position `order` on is counted under the `order` symbols before
      it. */
  method ContextTable<K(==)>(s: seq<K>, order: nat) returns (contexts: Grouping<seq<K>, K>)
    requires order < |s|
    ensures contexts == Grouped(Pairs(s, order))
  {
    ghost var pairs := Pairs(s, order);
    contexts := Grouping([], map[]);
    var i := order;
    while i < |s|
      invariant order <= i <= |s|
      invariant contexts == Grouped(pairs[..i - order])
    {
      var context := s[i - order..i];
      var symbol := s[i];
      GroupStep(s, order, i);
      contexts := Group(contexts, context, symbol);
      i := i + 1;
    }
    assert pairs[..i - order] == pairs;
  }

  /** One more position of the grouping loop adds its pair. */
  lemma GroupStep<K>(s: seq<K>, order: nat, i: nat)
    requires order <= i < |s|
    ensures Grouped(Pairs(s, order)[..i - order + 1])
            == Group(Grouped(Pairs(s, order)[..i - order]), s[i - order..i], s[i])
  {
    var pairs := Pairs(s, order);
    var k := i - order;
    assert pairs[..k + 1][..k] == pairs[..k];
    assert pairs[..k + 1][k] == (s[i - order..i], s[i]);
  }

  /** One more context of the summing loop adds its weighted entropy. */
  lemma ConditionalStep<C, K>(log2: real -> real, g: Grouping<C, K>, contexts: seq<C>, k: nat, total: nat)
    requires k < |contexts| && total > 0
    requires Total(CounterOf(g, contexts[k])) > 0
    ensures var counter := CounterOf(g, contexts[k]);
            var contextCount := Total(counter);
            ConditionalOver(log2, g, contexts[..k + 1], total)
            == ConditionalOver(log2, g, contexts[..k], total)
               + Weighted(contextCount as real / total as real, HistogramEntropy(log2, counter.keys, counter.counts, contextCount))
  {
    assert contexts[..k + 1][..k] == contexts[..k];
  }

  /** Context counts as the source's comments describe them: the total is
      len - order, and each context's counter totals the positions that the
      context precedes. */
  lemma ConditionalCounts<K(!new)>(s: seq<K>, order: nat, c: seq<K>)
    requires order < |s|
    ensures var g := Grouped(Pairs(s, order));
            ContextsTotal(g, g.contexts) == |s| - order
    ensures Total(CounterOf(Grouped(Pairs(s, order)), c)) == Count(Firsts(Pairs(s, order)), c)
  {
    ContextsTotalIsLength(Pairs(s, order));
    ContextCount(Pairs(s, order), c);
  }
}
