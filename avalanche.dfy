/** Avalanche measurement: bytes unpacked into bits least significant bit
    first, single-bit flips, Hamming distance, and the two sampling loops that
    count how many ciphertext bits change when one plaintext bit, or the last
    character of the seed, changes. The random draws of `flip_random_bit` are
    parameters. */
module Avalanche {
  import opened Base

  // ---------------------------------------------------------------------
  // Bits of bytes

  /** `(x >> i) & 1`: bit i of x, counting from the least significant. */
  function BitOf(x: byte, i: nat): (b: Bit)
    requires i < 8
  {
    ((x >> i) & 1) as int
  }

  /** The eight bits of one byte, least significant first. */
  function ByteBits(x: byte): (r: seq<Bit>)
    ensures |r| == 8
    ensures forall i {:trigger r[i]} :: 0 <= i < 8 ==> r[i] == BitOf(x, i)
  {
    seq(8, i requires 0 <= i < 8 => BitOf(x, i))
  }

  /** The bits of a byte string, byte after byte, each byte least
      significant bit first. */
  function LsbBits(data: seq<byte>): seq<Bit>
  {
    if data == [] then [] else LsbBits(data[..|data| - 1]) + ByteBits(data[|data| - 1])
  }

  /** `bytes_to_bits(d)` has 8 |d| entries, and entry 8k + i is bit i of
      byte k. */
  lemma {:induction false} LsbBitsAt(data: seq<byte>, k: nat, i: nat)
    requires k < |data| && i < 8
    ensures |LsbBits(data)| == 8 * |data|
    ensures LsbBits(data)[8 * k + i] == BitOf(data[k], i)
  {
    var front := data[..|data| - 1];
    LsbBitsLength(front);
    if k < |data| - 1 {
      LsbBitsAt(front, k, i);
    }
  }

  lemma {:induction false} LsbBitsLength(data: seq<byte>)
    ensures |LsbBits(data)| == 8 * |data|
  {
    if data != [] {
      LsbBitsLength(data[..|data| - 1]);
    }
  }

  /** `bytes_to_bits(byte_data)`: the nested loops append bit i of every
      byte for i = 0 .. 7. */
  method BytesToBits(data: seq<byte>) returns (bits: seq<Bit>)
    ensures bits == LsbBits(data)
  {
    bits := [];
    var k := 0;
    while k < |data|
      invariant 0 <= k <= |data|
      invariant bits == LsbBits(data[..k])
    {
      var i := 0;
      while i < 8
        invariant 0 <= i <= 8
        invariant bits == LsbBits(data[..k]) + ByteBits(data[k])[..i]
      {
        bits := bits + [BitOf(data[k], i)];
        i := i + 1;
      }
      assert data[..k + 1][..k] == data[..k];
      k := k + 1;
    }
    assert data[..k] == data;
  }

  // ---------------------------------------------------------------------
  // Counting bits

  /** The number of ones, `bin(x).count('1')` when s holds the bits of x. */
  function CountOnes(s: seq<Bit>): (r: nat)
    ensures r <= |s|
  {
    if s == [] then 0 else CountOnes(s[..|s| - 1]) + s[|s| - 1]
  }

  /** `bin(x).count('1')`. */
  function Popcount(x: byte): (r: nat)
    ensures r <= 8
  {
    CountOnes(ByteBits(x))
  }

  /** The number of positions at which two equally long bit lists differ. */
  function Mismatches(s: seq<Bit>, t: seq<Bit>): (r: nat)
    requires |s| == |t|
    ensures r <= |s|
  {
    if s == [] then 0
    else Mismatches(s[..|s| - 1], t[..|t| - 1]) + (if s[|s| - 1] != t[|t| - 1] then 1 else 0)
  }

  /** `sum(b1 != b2 for b1, b2 in zip(s, t))`: zip stops at the shorter list. */
  function ZipMismatches(s: seq<Bit>, t: seq<Bit>): (r: nat)
    ensures r <= |s| && r <= |t|
  {
    var m := if |s| < |t| then |s| else |t|;
    Mismatches(s[..m], t[..m])
  }

  /** A list counts as many ones as the positions where two lists differ,
      when it has a one exactly where they differ. */
  lemma {:induction false} MismatchesAsOnes(s: seq<Bit>, t: seq<Bit>, u: seq<Bit>)
    requires |s| == |t| == |u|
    requires forall j :: 0 <= j < |u| ==> (u[j] == 1 <==> s[j] != t[j])
    ensures Mismatches(s, t) == CountOnes(u)
  {
    if s != [] {
      MismatchesAsOnes(s[..|s| - 1], t[..|t| - 1], u[..|u| - 1]);
    }
  }

  /** Mismatches add up over concatenated lists. */
  lemma {:induction false} MismatchesAppend(s: seq<Bit>, t: seq<Bit>, u: seq<Bit>, v: seq<Bit>)
    requires |s| == |t| && |u| == |v|
    ensures Mismatches(s + u, t + v) == Mismatches(s, t) + Mismatches(u, v)
    decreases |u|
  {
    if u != [] {
      var u1, v1 := u[..|u| - 1], v[..|v| - 1];
      assert (s + u)[..|s + u| - 1] == s + u1;
      assert (t + v)[..|t + v| - 1] == t + v1;
      MismatchesAppend(s, t, u1, v1);
    } else {
      assert s + u == s && t + v == t;
    }
  }

  /** Bit i of x ^ y is set exactly where bit i of x and of y differ. */
  lemma XorBit(x: byte, y: byte, i: nat)
    requires i < 8
    ensures BitOf(x ^ y, i) == 1 <==> BitOf(x, i) != BitOf(y, i)
  {
  }

  /** The bits of two bytes differ in as many places as x ^ y has ones. */
  lemma ByteMismatches(x: byte, y: byte)
    ensures Mismatches(ByteBits(x), ByteBits(y)) == Popcount(x ^ y)
  {
    forall j | 0 <= j < 8 ensures ByteBits(x ^ y)[j] == 1 <==> ByteBits(x)[j] != ByteBits(y)[j] {
      XorBit(x, y, j);
    }
    MismatchesAsOnes(ByteBits(x), ByteBits(y), ByteBits(x ^ y));
  }

  /** A list with no ones counts zero, and only such a list does. */
  lemma {:induction false} CountOnesZero(s: seq<Bit>)
    ensures CountOnes(s) == 0 <==> forall j :: 0 <= j < |s| ==> s[j] == 0
  {
    if s != [] {
      CountOnesZero(s[..|s| - 1]);
    }
  }

  /** A list with a single one counts one. */
  lemma {:induction false} CountOnesSingle(s: seq<Bit>, p: nat)
    requires p < |s|
    requires forall j :: 0 <= j < |s| ==> (s[j] == 1 <==> j == p)
    ensures CountOnes(s) == 1
  {
    var front := s[..|s| - 1];
    if p == |s| - 1 {
      CountOnesZero(front);
    } else {
      CountOnesSingle(front, p);
    }
  }

  /** Only the zero byte has no bit set. */
  lemma PopcountZero(x: byte)
    ensures Popcount(x) == 0 <==> x == 0
  {
    CountOnesZero(ByteBits(x));
    var bits := ByteBits(x);
    if Popcount(x) == 0 {
      assert bits[0] == 0 && bits[1] == 0 && bits[2] == 0 && bits[3] == 0;
      assert bits[4] == 0 && bits[5] == 0 && bits[6] == 0 && bits[7] == 0;
    }
  }

  /** The mask `1 << b` has exactly one bit set. */
  lemma PopcountMask(b: nat)
    requires b < 8
    ensures Popcount(1 << b) == 1
  {
    var m: byte := 1 << b;
    forall j | 0 <= j < 8 ensures ByteBits(m)[j] == 1 <==> j == b {
    }
    CountOnesSingle(ByteBits(m), b);
  }

  // ---------------------------------------------------------------------
  // Flipping one bit

  /** NumPy's messages: `randint(0, 0)` and `np.min` of an empty list. */
  const EmptyRange := "high <= low"
  const EmptyMinimum := "zero-size array to reduction operation minimum which has no identity"

  /** `data` with bit b of byte p flipped. */
  function Flipped(data: seq<byte>, p: nat, b: nat): (r: seq<byte>)
    requires p < |data| && b < 8
  {
    data[p := data[p] ^ (1 << b)]
  }

  /** `flip_random_bit(data)` with the two draws `np.random.randint(0,
      len(data))` and `np.random.randint(0, 8)` given as `bytePos` and
      `bitPos`. Empty data makes the first draw raise. */
  method FlipRandomBit(data: seq<byte>, bytePos: nat, bitPos: nat) returns (r: Result<seq<byte>>)
    requires bitPos < 8 && (|data| > 0 ==> bytePos < |data|)
    ensures r.Err? <==> |data| == 0
    ensures r.Err? ==> r.error == ValueError(EmptyRange)
    ensures r.Ok? ==> |r.value| == |data|
    ensures r.Ok? ==> r.value[bytePos] == data[bytePos] ^ (1 << bitPos) && r.value[bytePos] != data[bytePos]
    ensures r.Ok? ==> forall j :: 0 <= j < |data| && j != bytePos ==> r.value[j] == data[j]
    ensures r.Ok? ==> r.value == Flipped(data, bytePos, bitPos)
  {
    if |data| == 0 {
      return Err(ValueError(EmptyRange));
    }
    var dataArray := new byte[|data|](j requires 0 <= j < |data| => data[j]);
    dataArray[bytePos] := dataArray[bytePos] ^ (1 << bitPos);
    r := Ok(dataArray[..]);
  }

  /** Flipping the same bit twice gives the data back. */
  lemma FlipTwice(data: seq<byte>, p: nat, b: nat)
    requires p < |data| && b < 8
    ensures Flipped(Flipped(data, p, b), p, b) == data
  {
    var m: byte := 1 << b;
    assert (data[p] ^ m) ^ m == data[p];
  }

  // ---------------------------------------------------------------------
  // Hamming distance

  /** The Hamming distance of two equally long byte strings: the ones of
      `b1 ^ b2`, byte by byte. */
  function Hamming(a: seq<byte>, b: seq<byte>): nat
    requires |a| == |b|
  {
    if a == [] then 0
    else Hamming(a[..|a| - 1], b[..|b| - 1]) + Popcount(a[|a| - 1] ^ b[|b| - 1])
  }

  /** `hamming_distance(bytes1, bytes2)`: unequal lengths raise; otherwise
      the loop adds the ones of each XOR. */
  method HammingDistance(bytes1: seq<byte>, bytes2: seq<byte>) returns (r: Result<nat>)
    ensures r.Err? <==> |bytes1| != |bytes2|
    ensures r.Err? ==> r.error == ValueError("Sequences must have equal length")
    ensures r.Ok? ==> r.value == Hamming(bytes1, bytes2)
  {
    if |bytes1| != |bytes2| {
      return Err(ValueError("Sequences must have equal length"));
    }
    var distance := 0;
    var k := 0;
    while k < |bytes1|
      invariant 0 <= k <= |bytes1|
      invariant distance == Hamming(bytes1[..k], bytes2[..k])
    {
      var xor := bytes1[k] ^ bytes2[k];
      distance := distance + Popcount(xor);
      assert bytes1[..k + 1][..k] == bytes1[..k] && bytes2[..k + 1][..k] == bytes2[..k];
      k := k + 1;
    }
    assert bytes1[..k] == bytes1 && bytes2[..k] == bytes2;
    r := Ok(distance);
  }

  /** The Hamming distance is the number of positions at which the two
      `bytes_to_bits` lists differ. */
  lemma {:induction false} HammingCountsBits(a: seq<byte>, b: seq<byte>)
    requires |a| == |b|
    ensures |LsbBits(a)| == |LsbBits(b)|
    ensures Hamming(a, b) == Mismatches(LsbBits(a), LsbBits(b))
  {
    LsbBitsLength(a);
    LsbBitsLength(b);
    if a != [] {
      var a1, b1 := a[..|a| - 1], b[..|b| - 1];
      HammingCountsBits(a1, b1);
      ByteMismatches(a[|a| - 1], b[|b| - 1]);
      MismatchesAppend(LsbBits(a1), LsbBits(b1), ByteBits(a[|a| - 1]), ByteBits(b[|b| - 1]));
    }
  }

  /** The distance is symmetric. */
  lemma {:induction false} HammingSymmetric(a: seq<byte>, b: seq<byte>)
    requires |a| == |b|
    ensures Hamming(a, b) == Hamming(b, a)
  {
    if a != [] {
      HammingSymmetric(a[..|a| - 1], b[..|b| - 1]);
      assert a[|a| - 1] ^ b[|b| - 1] == b[|b| - 1] ^ a[|a| - 1];
    }
  }

  /** The distance is zero exactly when the two strings are equal. */
  lemma {:induction false} HammingZero(a: seq<byte>, b: seq<byte>)
    requires |a| == |b|
    ensures Hamming(a, b) == 0 <==> a == b
  {
    if a != [] {
      var a1, b1 := a[..|a| - 1], b[..|b| - 1];
      HammingZero(a1, b1);
      PopcountZero(a[|a| - 1] ^ b[|b| - 1]);
      assert a[|a| - 1] ^ b[|b| - 1] == 0 <==> a[|a| - 1] == b[|b| - 1];
      assert a == a1 + [a[|a| - 1]] && b == b1 + [b[|b| - 1]];
      if a == b {
        assert a1 == b1;
      }
    }
  }

  /** The distance is at most the number of bits, 8 |a|. */
  lemma {:induction false} HammingBound(a: seq<byte>, b: seq<byte>)
    requires |a| == |b|
    ensures Hamming(a, b) <= 8 * |a|
  {
    if a != [] {
      HammingBound(a[..|a| - 1], b[..|b| - 1]);
    }
  }

  /** Two strings that differ at byte p only are as far apart as the ones
      of the XOR of that byte. */
  lemma {:induction false} HammingOneByte(a: seq<byte>, b: seq<byte>, p: nat)
    requires |a| == |b| && p < |a|
    requires forall j :: 0 <= j < |a| && j != p ==> a[j] == b[j]
    ensures Hamming(a, b) == Popcount(a[p] ^ b[p])
  {
    var a1, b1 := a[..|a| - 1], b[..|b| - 1];
    if p == |a| - 1 {
      HammingZero(a1, b1);
      assert a1 == b1;
    } else {
      HammingOneByte(a1, b1, p);
      assert a[|a| - 1] ^ b[|b| - 1] == 0;
      PopcountZero(0);
    }
  }

  /** Flipping one bit puts the data at distance one from where it was. */
  lemma FlipDistance(data: seq<byte>, p: nat, b: nat)
    requires p < |data| && b < 8
    ensures Hamming(data, Flipped(data, p, b)) == 1
  {
    var m: byte := 1 << b;
    HammingOneByte(data, Flipped(data, p, b), p);
    assert data[p] ^ (data[p] ^ m) == m;
    PopcountMask(b);
  }

  // ---------------------------------------------------------------------
  // The sampling loops

  /** `np.min` of a non-empty list. */
  function Min(xs: seq<nat>): (m: nat)
    requires |xs| > 0
    ensures m in xs
    ensures forall j :: 0 <= j < |xs| ==> m <= xs[j]
  {
    if |xs| == 1 then xs[0]
    else
      var rest := Min(xs[..|xs| - 1]);
      if xs[|xs| - 1] < rest then xs[|xs| - 1] else rest
  }

  /** `np.max` of a non-empty list. */
  function Max(xs: seq<nat>): (m: nat)
    requires |xs| > 0
    ensures m in xs
    ensures forall j :: 0 <= j < |xs| ==> xs[j] <= m
  {
    if |xs| == 1 then xs[0]
    else
      var rest := Max(xs[..|xs| - 1]);
      if xs[|xs| - 1] > rest then xs[|xs| - 1] else rest
  }

  function SumReals(xs: seq<real>): real
  {
    if xs == [] then 0.0 else SumReals(xs[..|xs| - 1]) + xs[|xs| - 1]
  }

  /** `np.mean` of a non-empty list. */
  function Mean(xs: seq<real>): real
    requires |xs| > 0
  {
    SumReals(xs) / |xs| as real
  }

  /** The mean of values in [lo, hi] lies in [lo, hi]. */
  lemma MeanBounds(xs: seq<real>, lo: real, hi: real)
    requires |xs| > 0
    requires forall j :: 0 <= j < |xs| ==> lo <= xs[j] <= hi
    ensures lo <= Mean(xs) <= hi
  {
    SumBounds(xs, lo, hi);
    var n := |xs| as real;
    assert lo * n <= SumReals(xs) <= hi * n;
    DivBounds(SumReals(xs), n, lo, hi);
  }

  lemma {:induction false} SumBounds(xs: seq<real>, lo: real, hi: real)
    requires forall j :: 0 <= j < |xs| ==> lo <= xs[j] <= hi
    ensures lo * |xs| as real <= SumReals(xs) <= hi * |xs| as real
  {
    if xs != [] {
      SumBounds(xs[..|xs| - 1], lo, hi);
      assert (|xs| - 1) as real + 1.0 == |xs| as real;
    }
  }

  lemma DivBounds(s: real, n: real, lo: real, hi: real)
    requires n > 0.0 && lo * n <= s <= hi * n
    ensures lo <= s / n <= hi
  {
  }

  /** `(flipped / total) * 100` for 0 <= flipped <= total: a percentage. */
  function Percentage(flipped: nat, total: nat): (p: real)
    requires 0 < total && flipped <= total
    ensures 0.0 <= p <= 100.0
  {
    (flipped as real / total as real) * 100.0
  }

  /** The ciphertext bits a flip changes: `bytes_to_bits` of both ciphertexts,
      compared position by position over `zip`. */
  function FlipCount(encrypt: seq<byte> -> seq<byte>, plaintext: seq<byte>, p: nat, b: nat): (c: nat)
    requires p < |plaintext| && b < 8
    ensures c <= 8 * |encrypt(plaintext)|
  {
    LsbBitsLength(encrypt(plaintext));
    ZipMismatches(LsbBits(encrypt(plaintext)), LsbBits(encrypt(Flipped(plaintext, p, b))))
  }

  /** `(flipped / total_bits) * 100` for every trial. */
  function Percentages(flips: seq<nat>, total: nat): (ps: seq<real>)
    requires 0 < total && forall t :: 0 <= t < |flips| ==> flips[t] <= total
    ensures |ps| == |flips|
  {
    seq(|flips|, t requires 0 <= t < |flips| => Percentage(flips[t], total))
  }

  datatype AvalancheReport = AvalancheReport(
    meanFlipPercentage: real,
    minFlip: nat,
    maxFlip: nat,
    totalBits: nat,
    allFlips: seq<nat>)

  /** `avalanche_test(encrypt_func, plaintext, n_trials)`, one trial per entry
      of `picks`: trial t flips bit `picks[t].1` of byte `picks[t].0`. The
      first flip of an empty plaintext raises; an empty ciphertext makes the
      percentage divide by zero; with no trials `np.min` raises. */
  method AvalancheTest(encrypt: seq<byte> -> seq<byte>, plaintext: seq<byte>, picks: seq<(nat, nat)>)
    returns (r: Result<AvalancheReport>)
    requires forall t :: 0 <= t < |picks| ==> picks[t].1 < 8 && (|plaintext| > 0 ==> picks[t].0 < |plaintext|)
    ensures |picks| == 0 ==> r == Err(ValueError(EmptyMinimum))
    ensures |picks| > 0 && |plaintext| == 0 ==> r == Err(ValueError(EmptyRange))
    ensures |picks| > 0 && |plaintext| > 0 && |encrypt(plaintext)| == 0 ==> r == Err(ZeroDivisionError)
    ensures r.Ok? <==> |picks| > 0 && |plaintext| > 0 && |encrypt(plaintext)| > 0
    ensures r.Ok? ==>
              var rep := r.value;
              && rep.totalBits == 8 * |encrypt(plaintext)|
              && |rep.allFlips| == |picks|
              && (forall t :: 0 <= t < |picks| ==>
                    rep.allFlips[t] == FlipCount(encrypt, plaintext, picks[t].0, picks[t].1))
              && (forall t :: 0 <= t < |picks| ==> rep.minFlip <= rep.allFlips[t] <= rep.maxFlip)
              && rep.minFlip in rep.allFlips && rep.maxFlip in rep.allFlips
              && rep.maxFlip <= rep.totalBits
              && rep.totalBits > 0
              && rep.meanFlipPercentage == Mean(Percentages(rep.allFlips, rep.totalBits))
              && 0.0 <= rep.meanFlipPercentage <= 100.0
  {
    var originalCt := encrypt(plaintext);
    var originalBits := BytesToBits(originalCt);
    LsbBitsLength(originalCt);
    var flipPercentages: seq<real> := [];
    var flipCounts: seq<nat> := [];
    var t := 0;
    while t < |picks|
      invariant 0 <= t <= |picks|
      invariant t > 0 ==> |plaintext| > 0 && |originalBits| > 0
      invariant |flipCounts| == t && |flipPercentages| == t
      invariant forall u :: 0 <= u < t ==> flipCounts[u] == FlipCount(encrypt, plaintext, picks[u].0, picks[u].1)
      invariant forall u :: 0 <= u < t ==> flipCounts[u] <= |originalBits|
      invariant forall u :: 0 <= u < t ==> 0.0 <= flipPercentages[u] <= 100.0
      invariant t > 0 ==> flipPercentages == Percentages(flipCounts, |originalBits|)
    {
      var modifiedPt := FlipRandomBit(plaintext, picks[t].0, picks[t].1);
      if modifiedPt.Err? {
        return Err(modifiedPt.error);
      }
      var modifiedCt := encrypt(modifiedPt.value);
      var modifiedBits := BytesToBits(modifiedCt);
      assert modifiedPt.value == Flipped(plaintext, picks[t].0, picks[t].1);
      var flippedBits := ZipMismatches(originalBits, modifiedBits);
      var totalBits := |originalBits|;
      if totalBits == 0 {
        return Err(ZeroDivisionError);
      }
      flipCounts := flipCounts + [flippedBits];
      flipPercentages := flipPercentages + [Percentage(flippedBits, totalBits)];
      t := t + 1;
    }
    if t == 0 {
      return Err(ValueError(EmptyMinimum));
    }
    MeanBounds(flipPercentages, 0.0, 100.0);
    r := Ok(AvalancheReport(Mean(flipPercentages), Min(flipCounts), Max(flipCounts), |originalBits|, flipCounts));
  }

  // ---------------------------------------------------------------------
  // Seed sensitivity

  /** `seed[:-1] + chr((ord(seed[-1]) + i + 1) % 128)`; an empty seed raises
      on `seed[-1]`. */
  function TweakSeed(seed: string, i: nat): (r: Result<string>)
    ensures r.Err? <==> |seed| == 0
    ensures r.Err? ==> r.error == IndexError
    ensures r.Ok? ==> |r.value| == |seed| && r.value[..|seed| - 1] == seed[..|seed| - 1]
    ensures r.Ok? ==> r.value[|seed| - 1] as int == (seed[|seed| - 1] as int + i + 1) % 128
  {
    if |seed| == 0 then Err(IndexError)
    else
      var code := (seed[|seed| - 1] as int + i + 1) % 128;
      Ok(seed[..|seed| - 1] + [code as char])
  }

  /** Trial i changes the seed unless i + 1 is a multiple of 128 and the last
      character is ASCII; then the "modified" seed is the seed itself. */
  lemma TweakChanges(seed: string, i: nat)
    requires |seed| > 0
    ensures TweakSeed(seed, i).value == seed <==> (i + 1) % 128 == 0 && seed[|seed| - 1] as int < 128
  {
    var n := |seed|;
    var last := seed[n - 1] as int;
    var r := TweakSeed(seed, i).value;
    assert seed == seed[..n - 1] + [seed[n - 1]];
    assert r == r[..n - 1] + [r[n - 1]];
    if last < 128 {
      ModUnique(last + i + 1, 128, (last + i + 1) / 128, (last + i + 1) % 128);
      WrapIsMod(last + i + 1, 128);
      WrapIsMod(i + 1, 128);
      ModAddTo(last, i + 1, 128);
    }
  }

  /** (a + m) mod n is a exactly when m mod n is 0, for 0 <= a < n. */
  lemma ModAddTo(a: int, m: int, n: int)
    requires n > 0 && 0 <= a < n
    ensures (a + m) % n == a <==> m % n == 0
  {
    if m % n == 0 {
      assert m == (m / n) * n;
      DivModUnique(a + m, n, m / n, a);
    }
    if (a + m) % n == a {
      assert a + m == ((a + m) / n) * n + a;
      DivModUnique(m, n, (a + m) / n, 0);
    }
  }

  /** Fewer than 128 trials apart, two trials use different seeds. */
  lemma TweaksDistinct(seed: string, i: nat, j: nat)
    requires |seed| > 0 && i < j < i + 128
    ensures TweakSeed(seed, i).value != TweakSeed(seed, j).value
  {
    var n := |seed|;
    var x := seed[n - 1] as int + i + 1;
    var d := j - i;
    WrapShift(x, -d, 128);
    WrapIsMod(x, 128);
    WrapIsMod(x % 128 + d, 128);
    WrapIsMod(x + d, 128);
    ModAddTo(x % 128, d, 128);
    DivModUnique(d, 128, 0, d);
    assert (x + d) % 128 != x % 128;
    assert TweakSeed(seed, i).value[n - 1] as int == x % 128;
    assert TweakSeed(seed, j).value[n - 1] as int == (x + d) % 128;
  }

  /** The percentage of ciphertext bits that changed: the `bytes_to_bits`
      lists of both ciphertexts compared over `zip`, out of the bits of the
      first. */
  function FlipPercentage(original: seq<byte>, modified: seq<byte>): (p: real)
    requires |original| > 0
    ensures 0.0 <= p <= 100.0
  {
    LsbBitsLength(original);
    Percentage(ZipMismatches(LsbBits(original), LsbBits(modified)), |LsbBits(original)|)
  }

  /** `avalanche_test_seed_sensitivity` for a text seed: the flip percentage
      of every trial, trial i encrypting under `TweakSeed(seed, i)`.
      `encryptUnder(s)` is `cipher_class(s).encrypt(plaintext)`. */
  method SeedSensitivity(encryptUnder: string -> seq<byte>, seed: string, nTrials: nat)
    returns (r: Result<seq<real>>)
    ensures nTrials > 0 && |seed| == 0 ==> r == Err(IndexError)
    ensures nTrials > 0 && |seed| > 0 && |encryptUnder(seed)| == 0 ==> r == Err(ZeroDivisionError)
    ensures r.Ok? <==> nTrials == 0 || (|seed| > 0 && |encryptUnder(seed)| > 0)
    ensures r.Ok? ==> |r.value| == nTrials
    ensures r.Ok? ==> forall i :: 0 <= i < nTrials ==>
              && |seed| > 0 && |encryptUnder(seed)| > 0
              && r.value[i] == FlipPercentage(encryptUnder(seed), encryptUnder(TweakSeed(seed, i).value))
  {
    var ctOrig := encryptUnder(seed);
    var bitsOrig := BytesToBits(ctOrig);
    LsbBitsLength(ctOrig);
    var flipPercentages: seq<real> := [];
    var i := 0;
    while i < nTrials
      invariant 0 <= i <= nTrials && |flipPercentages| == i
      invariant i > 0 ==> |seed| > 0 && |ctOrig| > 0
      invariant forall u :: 0 <= u < i ==>
                  flipPercentages[u] == FlipPercentage(ctOrig, encryptUnder(TweakSeed(seed, u).value))
    {
      var modifiedSeed := TweakSeed(seed, i);
      if modifiedSeed.Err? {
        return Err(modifiedSeed.error);
      }
      var ctMod := encryptUnder(modifiedSeed.value);
      var bitsMod := BytesToBits(ctMod);
      var flipped := ZipMismatches(bitsOrig, bitsMod);
      var total := |bitsOrig|;
      if total == 0 {
        return Err(ZeroDivisionError);
      }
      flipPercentages := flipPercentages + [Percentage(flipped, total)];
      i := i + 1;
    }
    r := Ok(flipPercentages);
  }
}
