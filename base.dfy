/** Byte values, the failure type every operation of the model shares, Python's
    optional arguments, and the element-wise and remainder helpers the cipher
    and the mixer use. */
module Base {

  /** One unsigned byte (`np.uint8`, an element of `bytes`). */
  type byte = bv8

  /** One bit as the metrics hold it: a Python int that is 0 or 1. */
  type Bit = b: int | 0 <= b <= 1

  /** The Python exception an operation raises; the message is kept where the
      source writes one. */
  datatype Error =
    | ValueError(message: string)
    | IndexError
    | ZeroDivisionError

  /** What an operation returns: its value, or the exception it raises. */
  datatype Result<T> = Ok(value: T) | Err(error: Error)

  /** An optional argument whose Python default is `None`. */
  datatype Option<T> = None | Some(value: T)

  /** `a ^ b` on two equally long `uint8` arrays. */
  function Xor(a: seq<byte>, b: seq<byte>): (r: seq<byte>)
    requires |a| == |b|
    ensures |r| == |a|
    ensures forall i {:trigger r[i]} :: 0 <= i < |a| ==> r[i] == a[i] ^ b[i]
  {
    seq(|a|, i requires 0 <= i < |a| => a[i] ^ b[i])
  }

  /** A value below 256 converts to the byte of that value. */
  lemma ByteRoundTrip(v: nat)
    requires v < 256
    ensures (v as byte) as int == v
  {
    var x := ByteWithValue(v);
    ByteIntByte(x);
  }

  lemma ByteIntByte(x: byte)
    ensures (x as int) as byte == x
  {
  }

  /** Counting up from the zero byte reaches every value below 256. */
  lemma {:induction false} ByteWithValue(v: nat) returns (x: byte)
    requires v < 256
    ensures x as int == v
  {
    if v == 0 {
      x := 0;
    } else {
      var y := ByteWithValue(v - 1);
      x := ByteSuccessor(y);
    }
  }

  lemma ByteSuccessor(y: byte) returns (x: byte)
    requires y as int < 255
    ensures x as int == y as int + 1
  {
    x := y + 1;
  }

  /** XOR-ing the same keystream twice gives the data back. */
  lemma XorTwice(a: seq<byte>, b: seq<byte>)
    requires |a| == |b|
    ensures Xor(Xor(a, b), b) == a
  {
  }

  /** Python's `z % n` for a positive modulus: z moved into [0, n) by adding
      or subtracting n. */
  function Wrap(z: int, n: int): (r: int)
    requires n > 0
    ensures 0 <= r < n
    decreases if z < 0 then n - z else z
  {
    if z < 0 then Wrap(z + n, n)
    else if z < n then z
    else Wrap(z - n, n)
  }

  /** `Wrap` is Dafny's `%`, which agrees with Python's for a positive modulus. */
  lemma {:induction false} WrapIsMod(z: int, n: int)
    requires n > 0
    ensures Wrap(z, n) == z % n
    decreases if z < 0 then n - z else z
  {
    if z < 0 {
      WrapIsMod(z + n, n);
      ModAddModulus(z, n);
    } else if z >= n {
      WrapIsMod(z - n, n);
      ModAddModulus(z - n, n);
    }
  }

  /** Adding the modulus leaves the remainder alone. */
  lemma ModAddModulus(z: int, n: int)
    requires n > 0
    ensures (z + n) % n == z % n
  {
    var q := z / n;
    MulSucc(q, n);
    DivModUnique(z + n, n, q + 1, z % n);
  }

  /** Dafny's quotient and remainder are the unique q and r in [0, n) with
      a = q n + r. */
  lemma DivModUnique(a: int, n: int, q: int, r: int)
    requires n > 0 && 0 <= r < n && a == q * n + r
    ensures a % n == r && a / n == q
  {
    var q0, r0 := a / n, a % n;
    assert a == q0 * n + r0;
    var d := q - q0;
    MulSub(q, q0, n);
    if d >= 1 {
      MulAtLeast(d, n);
    } else if d <= -1 {
      MulAtLeast(-d, n);
    }
  }

  /** Euclid's division: a = (a / n) n + a mod n. */
  lemma DivWrap(a: int, n: int)
    requires n > 0
    ensures a == (a / n) * n + Wrap(a, n)
  {
    WrapIsMod(a, n);
  }

  /** (q + 1) n = q n + n. */
  lemma MulSucc(q: int, n: int)
    ensures (q + 1) * n == q * n + n
  {
  }

  /** A slice of `s[d..]` is the slice of `s` shifted by d; lo2 and hi2
      name the shifted bounds. */
  lemma SliceOfDrop<T>(s: seq<T>, d: nat, lo: nat, hi: nat, lo2: nat, hi2: nat)
    requires d <= lo <= hi <= |s| && lo2 == lo - d && hi2 == hi - d
    ensures s[d..][lo2..hi2] == s[lo..hi]
  {
  }

  /** Cutting `s[d..]` after n elements, where d + n = e. */
  lemma DropSplit<T>(s: seq<T>, d: nat, e: nat, n: nat)
    requires d <= e <= |s| && n == e - d
    ensures s[d..][..n] == s[d..e] && s[d..][n..] == s[e..]
  {
  }

  /** Concatenation is associative. */
  lemma ConcatAssoc<T>(a: seq<T>, b: seq<T>, c: seq<T>)
    ensures (a + b) + c == a + (b + c)
  {
  }

  /** (a - b) n = a n - b n. */
  lemma MulSub(a: int, b: int, n: int)
    ensures (a - b) * n == a * n - b * n
  {
  }

  /** A non-positive multiple of a positive n is not positive. */
  lemma MulNonPositive(d: int, n: int)
    requires n > 0
    ensures d <= 0 ==> d * n <= 0
  {
  }

  /** A positive multiple of n is at least n. */
  lemma {:induction false} MulAtLeast(d: int, n: int)
    requires d >= 1 && n > 0
    ensures d * n >= n
    decreases d
  {
    if d > 1 {
      MulAtLeast(d - 1, n);
      assert d * n == (d - 1) * n + n;
    }
  }

  /** Quotient and remainder are the unique q and r in [0, n) with a = q n + r. */
  lemma ModUnique(a: int, n: int, q: int, r: int)
    requires n > 0 && 0 <= r < n && a == q * n + r
    ensures Wrap(a, n) == r && a / n == q
  {
    WrapIsMod(a, n);
    DivModUnique(a, n, q, r);
  }

  /** ((z mod n) - j) mod n == (z - j) mod n. */
  lemma WrapShift(z: int, j: int, n: int)
    requires n > 0
    ensures Wrap(Wrap(z, n) - j, n) == Wrap(z - j, n)
  {
    var q, q1 := z / n, (z - j) / n;
    DivWrap(z, n);
    DivWrap(z - j, n);
    MulSub(q1, q, n);
    ModUnique(Wrap(z, n) - j, n, q1 - q, Wrap(z - j, n));
  }

  // Real products and quotients as named operations: facts about a product
  // carry from one lemma to another only as a term, so the sign lemmas
  // below are stated about these.

  function Product(a: real, b: real): real
  {
    a * b
  }

  function Quotient(a: real, b: real): real
    requires b != 0.0
  {
    a / b
  }

  lemma ProductPositive(a: real, b: real)
    requires a > 0.0 && b > 0.0
    ensures Product(a, b) > 0.0
  {
  }

  lemma QuotientPositive(a: real, b: real)
    requires a > 0.0 && b > 0.0
    ensures Quotient(a, b) > 0.0
  {
  }

  lemma QuotientOne(a: real, b: real)
    requires b > 0.0
    ensures Quotient(a, b) == 1.0 <==> a == b
  {
    assert Quotient(a, b) * b == a;
  }

  lemma QuotientZero(a: real, b: real)
    requires b > 0.0
    ensures Quotient(a, b) == 0.0 <==> a == 0.0
  {
    assert Quotient(a, b) * b == a;
  }

  lemma ProductNonPositive(a: real, b: real)
    requires a > 0.0 && b <= 0.0
    ensures Product(a, b) <= 0.0
  {
  }

  lemma ProductNonNegative(a: real, b: real)
    requires a >= 0.0 && b >= 0.0
    ensures Product(a, b) >= 0.0
  {
  }

  lemma QuotientUnit(a: real, b: real)
    requires 0.0 <= a <= b && b > 0.0
    ensures 0.0 <= Quotient(a, b) <= 1.0
  {
    assert Quotient(a, b) * b == a;
  }

  lemma QuotientHalf(a: real, b: real)
    requires b > 0.0 && 2.0 * a == b
    ensures Quotient(a, b) == 0.5
  {
    assert Quotient(a, b) * b == a;
  }
}
