/** The block loop that `encrypt` and `decrypt` share: fixed-size blocks
    taken in order, each transformed under a fresh draw from a generator
    state that every block advances, and the bytes after the last whole block
    left unread. The transformation and the key schedule are parameters. */
module BlockLoop {
  import opened Base

  /** What one block call draws: a permutation of the block positions, a
      keystream block, and the generator state after both. */
  datatype BlockKey<S> = BlockKey(perm: seq<int>, keystream: seq<byte>, next: S)

  /** The key schedule of the block loop: what a block call draws from a state. */
  type Schedule<!S> = S -> BlockKey<S>

  /** What the loop does to one block with one draw. */
  type BlockStep<!S(!new)> = f: (seq<byte>, BlockKey<S>) -> seq<byte> | forall b, d {:trigger f(b, d)} :: |f(b, d)| == |b|
    witness KeepBlock

  /** The step that leaves every block alone. */
  function KeepBlock<S>(b: seq<byte>, d: BlockKey<S>): seq<byte>
  {
    b
  }

  /** `g` undoes `f` on every block of `bs` bytes under every draw of `draw`. */
  ghost predicate Undoes<S(!new)>(g: BlockStep<S>, f: BlockStep<S>, draw: Schedule<S>, bs: nat)
  {
    forall b: seq<byte>, t {:trigger f(b, draw(t))} :: |b| == bs ==> g(f(b, draw(t)), draw(t)) == b
  }

  /** The bytes the whole blocks of an n-byte input cover: n rounded down to
      a multiple of `bs`. */
  function WholeLength(n: nat, bs: nat): (w: nat)
    requires bs > 0
    ensures w <= n && n - w < bs
    decreases n
  {
    if n < bs then 0 else bs + WholeLength(n - bs, bs)
  }

  /** Dropping one block leaves the remainder unchanged. */
  lemma WrapDropBlock(n: nat, bs: nat)
    requires 0 < bs <= n
    ensures Wrap(n - bs, bs) == Wrap(n, bs) && (n - bs) / bs == n / bs - 1 && n / bs >= 1
  {
    var q := n / bs;
    DivWrap(n, bs);
    MulNonPositive(q, bs);
    MulSucc(q - 1, bs);
    ModUnique(n - bs, bs, q - 1, Wrap(n, bs));
  }

  /** The whole blocks leave exactly the remainder of the division. */
  lemma {:induction false} WholeLengthWrap(n: nat, bs: nat)
    requires bs > 0
    ensures WholeLength(n, bs) == n - Wrap(n, bs)
    decreases n
  {
    if n < bs {
      ModUnique(n, bs, 0, n);
    } else {
      WholeLengthWrap(n - bs, bs);
      WrapDropBlock(n, bs);
    }
  }

  /** The state after i block calls from `s`. */
  function StateAfterBlocks<S(!new)>(draw: Schedule<S>, s: S, i: nat): S
  {
    if i == 0 then s else draw(StateAfterBlocks(draw, s, i - 1)).next
  }

  /** The block loop of `encrypt` and `decrypt` from state `s`: `f` on every
      whole block of `data` in turn, with a fresh draw per block; the bytes
      after the last whole block are not read. */
  function Blocks<S(!new)>(f: BlockStep<S>, draw: Schedule<S>, s: S, data: seq<byte>, bs: nat): (r: (seq<byte>, S))
    requires bs > 0
    ensures |r.0| == WholeLength(|data|, bs)
    decreases |data|
  {
    if |data| < bs then ([], s)
    else
      var d := draw(s);
      var (rest, s2) := Blocks(f, draw, d.next, data[bs..], bs);
      (f(data[..bs], d) + rest, s2)
  }

  /** Block k = i + 1 from `s` is drawn where block i is drawn from the
      state after one block. */
  lemma {:induction false} StateAfterShift<S(!new)>(draw: Schedule<S>, s: S, i: nat, k: nat)
    requires k == i + 1
    ensures StateAfterBlocks(draw, s, k) == StateAfterBlocks(draw, draw(s).next, i)
  {
    if i > 0 {
      StateAfterShift(draw, s, i - 1, i);
    }
  }

  /** Each block call draws once: after the loop the state has advanced by
      one draw per whole block. */
  lemma {:induction false} BlocksState<S(!new)>(f: BlockStep<S>, draw: Schedule<S>, s: S, data: seq<byte>, bs: nat)
    requires bs > 0
    ensures Blocks(f, draw, s, data, bs).1 == StateAfterBlocks(draw, s, |data| / bs)
    decreases |data|
  {
    if |data| < bs {
      ModUnique(|data|, bs, 0, |data|);
    } else {
      var q := |data| / bs;
      WrapDropBlock(|data|, bs);
      BlocksState(f, draw, draw(s).next, data[bs..], bs);
      StateAfterShift(draw, s, q - 1, q);
    }
  }

  /** Output block i (the bytes from lo = i * bs to hi = lo + bs) is `f` of
      input block i under the i-th draw, and depends on nothing else. */
  lemma {:induction false} BlocksAt<S(!new)>(f: BlockStep<S>, draw: Schedule<S>, s: S, data: seq<byte>, bs: nat, lo: nat, hi: nat, i: nat)
    requires bs > 0 && lo == i * bs && hi == lo + bs && hi <= |data|
    ensures hi <= |Blocks(f, draw, s, data, bs).0|
    ensures Blocks(f, draw, s, data, bs).0[lo .. hi] == f(data[lo .. hi], draw(StateAfterBlocks(draw, s, i)))
    decreases i
  {
    if i == 0 {
      BlocksAtFirst(f, draw, s, data, bs, hi);
    } else {
      MulSucc(i - 1, bs);
      BlocksAt(f, draw, draw(s).next, data[bs..], bs, lo - bs, lo, i - 1);
      BlocksAtLater(f, draw, s, data, bs, lo, hi, i);
    }
  }

  /** Block 0 of the output is `f` of the first input block under the first
      draw. */
  lemma BlocksAtFirst<S(!new)>(f: BlockStep<S>, draw: Schedule<S>, s: S, data: seq<byte>, bs: nat, hi: nat)
    requires 0 < bs == hi <= |data|
    ensures hi <= |Blocks(f, draw, s, data, bs).0|
    ensures Blocks(f, draw, s, data, bs).0[0 .. hi] == f(data[0 .. hi], draw(StateAfterBlocks(draw, s, 0)))
  {
    var d := draw(s);
    BlocksStep(f, draw, s, data, bs);
    SplitConcat(f(data[..bs], d), Blocks(f, draw, d.next, data[bs..], bs).0, bs);
    assert data[0 .. hi] == data[..bs];
  }

  /** The recursive case of `BlocksAt`, given block i - 1 of the loop over
      the remaining bytes from the state after one draw. */
  lemma BlocksAtLater<S(!new)>(f: BlockStep<S>, draw: Schedule<S>, s: S, data: seq<byte>, bs: nat, lo: nat, hi: nat, i: nat)
    requires 0 < bs <= lo && hi == lo + bs && hi <= |data| && i > 0
    requires lo <= |Blocks(f, draw, draw(s).next, data[bs..], bs).0|
    requires Blocks(f, draw, draw(s).next, data[bs..], bs).0[lo - bs .. lo]
             == f(data[bs..][lo - bs .. lo], draw(StateAfterBlocks(draw, draw(s).next, i - 1)))
    ensures hi <= |Blocks(f, draw, s, data, bs).0|
    ensures Blocks(f, draw, s, data, bs).0[lo .. hi] == f(data[lo .. hi], draw(StateAfterBlocks(draw, s, i)))
  {
    var st := StateAfterBlocks(draw, s, i);
    StateAfterShift(draw, s, i - 1, i);
    BlocksLater(f, draw, s, data, bs, lo, hi);
    SliceOfDrop(data, bs, lo, hi, lo - bs, lo);
    StepCongruent(f, data[bs..][lo - bs .. lo], data[lo .. hi], draw(st));
  }

  /** The recursive case of `BlocksAt`: the block at lo of the loop is the
      block at lo - bs of the loop over the remaining bytes from the state
      after one draw. */
  lemma BlocksLater<S(!new)>(f: BlockStep<S>, draw: Schedule<S>, s: S, data: seq<byte>, bs: nat, lo: nat, hi: nat)
    requires 0 < bs <= lo && bs <= |data| && hi == lo + bs
    requires lo <= |Blocks(f, draw, draw(s).next, data[bs..], bs).0|
    ensures hi <= |Blocks(f, draw, s, data, bs).0|
    ensures Blocks(f, draw, s, data, bs).0[lo .. hi] == Blocks(f, draw, draw(s).next, data[bs..], bs).0[lo - bs .. lo]
  {
    BlocksStep(f, draw, s, data, bs);
    SliceAfter(f(data[..bs], draw(s)), Blocks(f, draw, draw(s).next, data[bs..], bs).0, lo, hi, lo - bs, lo);
  }

  /** A block step gives equal blocks equal results. */
  lemma StepCongruent<S(!new)>(f: BlockStep<S>, a: seq<byte>, b: seq<byte>, d: BlockKey<S>)
    requires a == b
    ensures f(a, d) == f(b, d)
  {
  }

  /** A slice of `a + b` that lies inside `b`; lo2 and hi2 name its bounds
      in `b`. */
  lemma SliceAfter<T>(a: seq<T>, b: seq<T>, lo: nat, hi: nat, lo2: nat, hi2: nat)
    requires |a| <= lo <= hi <= |a| + |b| && lo2 == lo - |a| && hi2 == hi - |a|
    ensures (a + b)[lo .. hi] == b[lo2 .. hi2]
  {
  }

  /** If `g` undoes `f` block by block, the loop of `g` from the same state
      undoes the loop of `f` on every whole block and ends in the same state. */
  lemma {:induction false} BlocksUndo<S(!new)>(g: BlockStep<S>, f: BlockStep<S>, draw: Schedule<S>, s: S, data: seq<byte>, bs: nat)
    requires bs > 0 && Undoes(g, f, draw, bs)
    ensures Blocks(g, draw, s, Blocks(f, draw, s, data, bs).0, bs).0 == data[..WholeLength(|data|, bs)]
    ensures Blocks(g, draw, s, Blocks(f, draw, s, data, bs).0, bs).1 == Blocks(f, draw, s, data, bs).1
    decreases |data|
  {
    if |data| >= bs {
      UndoFirstBlock(g, f, draw, s, data, bs);
      BlocksUndo(g, f, draw, draw(s).next, data[bs..], bs);
      WholePrefix(data, bs);
    }
  }

  /** The first turn of `BlocksUndo`: `g` gives the first block back, and both
      loops go on from the state after one draw. */
  lemma UndoFirstBlock<S(!new)>(g: BlockStep<S>, f: BlockStep<S>, draw: Schedule<S>, s: S, data: seq<byte>, bs: nat)
    requires 0 < bs <= |data| && Undoes(g, f, draw, bs)
    ensures Blocks(g, draw, s, Blocks(f, draw, s, data, bs).0, bs).0
            == data[..bs] + Blocks(g, draw, draw(s).next, Blocks(f, draw, draw(s).next, data[bs..], bs).0, bs).0
    ensures Blocks(g, draw, s, Blocks(f, draw, s, data, bs).0, bs).1
            == Blocks(g, draw, draw(s).next, Blocks(f, draw, draw(s).next, data[bs..], bs).0, bs).1
    ensures Blocks(f, draw, s, data, bs).1 == Blocks(f, draw, draw(s).next, data[bs..], bs).1
  {
    var d := draw(s);
    var c := Blocks(f, draw, s, data, bs).0;
    var rest := Blocks(f, draw, d.next, data[bs..], bs).0;
    BlocksStep(f, draw, s, data, bs);
    SplitConcat(f(data[..bs], d), rest, bs);
    assert c[..bs] == f(data[..bs], d) && c[bs..] == rest;
    BlocksStep(g, draw, s, c, bs);
    UndoesAt(g, f, draw, bs, data[..bs], s);
  }

  /** One turn of the block loop. */
  lemma BlocksStep<S(!new)>(f: BlockStep<S>, draw: Schedule<S>, s: S, data: seq<byte>, bs: nat)
    requires 0 < bs <= |data|
    ensures Blocks(f, draw, s, data, bs).0 == f(data[..bs], draw(s)) + Blocks(f, draw, draw(s).next, data[bs..], bs).0
    ensures Blocks(f, draw, s, data, bs).1 == Blocks(f, draw, draw(s).next, data[bs..], bs).1
    ensures WholeLength(|data|, bs) == bs + WholeLength(|data| - bs, bs)
  {
  }

  /** One turn of a loop that walks `data` block by block from state `s0`:
      when what is still to come from `offset` on is the block loop over the
      unread bytes from state `s`, the block at `offset` (giving `out` and
      state `t`) moves that one block on. */
  lemma BlocksAdvance<S(!new)>(f: BlockStep<S>, draw: Schedule<S>, s0: S, data: seq<byte>, bs: nat,
                               acc: seq<byte>, offset: nat, next: nat, s: S, out: seq<byte>, t: S)
    requires bs > 0 && next == offset + bs && next <= |data|
    requires Blocks(f, draw, s0, data, bs).0 == acc + Blocks(f, draw, s, data[offset..], bs).0
    requires Blocks(f, draw, s0, data, bs).1 == Blocks(f, draw, s, data[offset..], bs).1
    requires out == f(data[offset..offset + bs], draw(s)) && t == draw(s).next
    ensures Blocks(f, draw, s0, data, bs).0 == (acc + out) + Blocks(f, draw, t, data[next..], bs).0
    ensures Blocks(f, draw, s0, data, bs).1 == Blocks(f, draw, t, data[next..], bs).1
  {
    DropSplit(data, offset, next, bs);
    BlocksStep(f, draw, s, data[offset..], bs);
    ConcatAssoc(acc, out, Blocks(f, draw, t, data[next..], bs).0);
  }

  /** Fewer bytes than one block: nothing is produced and the state stays. */
  lemma BlocksShort<S(!new)>(f: BlockStep<S>, draw: Schedule<S>, s: S, data: seq<byte>, bs: nat)
    requires 0 < bs && |data| < bs
    ensures Blocks(f, draw, s, data, bs).0 == [] && Blocks(f, draw, s, data, bs).1 == s
  {
  }

  /** Trailing bytes are ignored: the loop over `data` is the loop over its
      whole blocks. */
  lemma {:induction false} BlocksIgnoreTrailing<S(!new)>(f: BlockStep<S>, draw: Schedule<S>, s: S, data: seq<byte>, bs: nat)
    requires bs > 0
    ensures Blocks(f, draw, s, data, bs).0 == Blocks(f, draw, s, data[..WholeLength(|data|, bs)], bs).0
    ensures Blocks(f, draw, s, data, bs).1 == Blocks(f, draw, s, data[..WholeLength(|data|, bs)], bs).1
    decreases |data|
  {
    if |data| >= bs {
      var whole := data[..WholeLength(|data|, bs)];
      var tail := data[bs..];
      var w := WholeLength(|tail|, bs);
      assert whole[..bs] == data[..bs] && whole[bs..] == tail[..w] && |whole| >= bs by {
        WholePrefix(data, bs);
        SplitConcat(data[..bs], tail[..w], bs);
      }
      BlocksIgnoreTrailing(f, draw, draw(s).next, tail, bs);
      BlocksStep(f, draw, s, data, bs);
      BlocksStep(f, draw, s, whole, bs);
    }
  }

  /** Both halves of a concatenation. */
  lemma SplitConcat<T>(a: seq<T>, b: seq<T>, n: nat)
    requires n == |a|
    ensures (a + b)[..n] == a && (a + b)[n..] == b
  {
  }

  /** One instance of `Undoes`. */
  lemma UndoesAt<S(!new)>(g: BlockStep<S>, f: BlockStep<S>, draw: Schedule<S>, bs: nat, b: seq<byte>, s: S)
    requires Undoes(g, f, draw, bs) && |b| == bs
    ensures g(f(b, draw(s)), draw(s)) == b
  {
  }

  /** The whole blocks are the first block followed by the whole blocks of
      the rest. */
  lemma WholePrefix(data: seq<byte>, bs: nat)
    requires 0 < bs <= |data|
    ensures data[..WholeLength(|data|, bs)] == data[..bs] + data[bs..][..WholeLength(|data| - bs, bs)]
  {
    var w := WholeLength(|data| - bs, bs);
    assert WholeLength(|data|, bs) == bs + w;
    assert data[..bs + w] == data[..bs] + data[bs..][..w];
  }
}
