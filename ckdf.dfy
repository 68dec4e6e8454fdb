/** The chaotic key derivation function: HMAC-SHA512 of the seed under the salt
    picks the initial conditions of a hybrid chaotic map, whose keystream is
    whitened by HKDF-SHA256 (RFC 5869), in chunks of at most 255 * 32 bytes
    when the request is longer than one HKDF output may be. */
module Ckdf {
  import opened Base
  import opened Hybrid

  /** `hmac.new(key, msg, hashlib.sha512).digest()`: 64 bytes. */
  type HmacSha512 = f: (seq<byte>, seq<byte>) -> seq<byte> | forall key, msg {:trigger f(key, msg)} :: |f(key, msg)| == 64
    witness ZeroMac

  function ZeroMac(key: seq<byte>, msg: seq<byte>): seq<byte>
  {
    seq(64, _ => 0 as byte)
  }

  /** `hashlib.sha256(msg).digest()`: 32 bytes. */
  type Sha256 = f: seq<byte> -> seq<byte> | forall msg {:trigger f(msg)} :: |f(msg)| == 32
    witness ZeroHash

  function ZeroHash(msg: seq<byte>): seq<byte>
  {
    seq(32, _ => 0 as byte)
  }

  /** `HKDF(SHA256(), length, salt, info).derive(ikm)` for a length the library
      accepts: exactly `length` bytes. */
  type HkdfSha256 = f: (nat, seq<byte>, seq<byte>, seq<byte>) -> seq<byte> |
    forall length, salt, info, ikm {:trigger f(length, salt, info, ikm)} :: |f(length, salt, info, ikm)| == length
    witness ZeroKdf

  function ZeroKdf(length: nat, salt: seq<byte>, info: seq<byte>, ikm: seq<byte>): seq<byte>
  {
    seq(length, _ => 0 as byte)
  }

  /** The foreign cryptographic primitives. */
  datatype Primitives = Primitives(hmacSha512: HmacSha512, sha256: Sha256, hkdf: HkdfSha256)

  /** `MAX_HKDF_LENGTH`: HKDF-SHA256 yields at most 255 blocks of 32 bytes. */
  const MaxHkdfLength: nat := 255 * 32

  const MinSaltLength: nat := 16
  const DefaultBurnIn: nat := 4096

  /** `b"Butterfly-crypto-key"`, the default `info` of `derive_key`. */
  const KeyInfo: seq<byte> := [0x42, 0x75, 0x74, 0x74, 0x65, 0x72, 0x66, 0x6c, 0x79, 0x2d, 0x63, 0x72, 0x79, 0x70, 0x74, 0x6f, 0x2d, 0x6b, 0x65, 0x79]

  /** `b"keystream"`, the `info` of `derive_keystream`. */
  const KeystreamInfo: seq<byte> := [0x6b, 0x65, 0x79, 0x73, 0x74, 0x72, 0x65, 0x61, 0x6d]

  /** One HKDF derivation; the library refuses a length above 8160 bytes. */
  function HkdfDerive(p: Primitives, length: nat, salt: seq<byte>, info: seq<byte>, ikm: seq<byte>): (r: Result<seq<byte>>)
    ensures r.Err? <==> length > MaxHkdfLength
    ensures r.Ok? ==> |r.value| == length
  {
    if length > MaxHkdfLength then Err(ValueError("HKDF length above 255 * 32 bytes"))
    else Ok(p.hkdf(length, salt, info, ikm))
  }

  // ---------------------------------------------------------------------
  // From the HMAC digest to initial conditions

  /** 256 to the power n: one more than the largest n-byte big-endian value. */
  function Pow256(n: nat): (r: nat)
    ensures r >= 1
  {
    if n == 0 then 1 else 256 * Pow256(n - 1)
  }

  const TwoTo64: nat := 0x1_0000_0000_0000_0000

  /** `int.from_bytes(s, 'big')`. */
  function BigEndian(s: seq<byte>): nat
  {
    if |s| == 0 then 0 else BigEndian(s[..|s| - 1]) * 256 + s[|s| - 1] as nat
  }

  /** An n-byte big-endian number is below 256^n. */
  lemma {:induction false} BigEndianBound(s: seq<byte>)
    ensures BigEndian(s) < Pow256(|s|)
  {
    if |s| > 0 {
      BigEndianBound(s[..|s| - 1]);
    }
  }

  lemma {:induction false} Pow256Monotone(m: nat, n: nat)
    requires m <= n
    ensures Pow256(m) <= Pow256(n)
    decreases n
  {
    if m < n {
      Pow256Monotone(m, n - 1);
    }
  }

  /** Python's `s[lo:hi]` for 0 <= lo <= hi: clipped to the sequence. */
  function Slice(s: seq<byte>, lo: nat, hi: nat): (r: seq<byte>)
    requires lo <= hi
    ensures |r| <= hi - lo
  {
    var a := if lo < |s| then lo else |s|;
    var b := if hi < |s| then hi else |s|;
    s[a..b]
  }

  /** The k-th 64-bit word, `int.from_bytes(preseed[8k:8k+8], 'big')`. */
  function Word(preseed: seq<byte>, k: nat): (r: nat)
    ensures r < TwoTo64
  {
    var w := Slice(preseed, 8 * k, 8 * k + 8);
    BigEndianBound(w);
    Pow256Monotone(|w|, 8);
    BigEndian(w)
  }

  /** `(word / 2**64) * width + offset`, in real arithmetic. */
  function Scale(word: nat, width: real, offset: real): (r: real)
    requires word < TwoTo64 && width > 0.0
    ensures offset <= r < offset + width
  {
    var u := word as real / TwoTo64 as real;
    assert 0.0 <= u < 1.0;
    assert 0.0 <= u * width < width by { UnitTimes(u, width); }
    u * width + offset
  }

  lemma UnitTimes(u: real, w: real)
    requires 0.0 <= u < 1.0 && w > 0.0
    ensures 0.0 <= u * w < w
  {
  }

  /** `_preseed_to_initial_conditions`: words 0 to 6 of the digest, scaled into
      the ranges each map expects. */
  function InitialConditionsOf(preseed: seq<byte>): (ic: InitialConditions)
    ensures 0.1 <= ic.logisticX0 < 0.9 && 0.1 <= ic.sineX0 < 0.9
    ensures -0.2 <= ic.henonX0 < 0.2 && -0.2 <= ic.henonY0 < 0.2
    ensures -10.0 <= ic.lorenzX0 < 10.0 && -10.0 <= ic.lorenzY0 < 10.0
    ensures 5.0 <= ic.lorenzZ0 < 45.0
  {
    InitialConditions(
      Scale(Word(preseed, 0), 0.8, 0.1),
      Scale(Word(preseed, 1), 0.4, -0.2), Scale(Word(preseed, 2), 0.4, -0.2),
      Scale(Word(preseed, 3), 20.0, -10.0), Scale(Word(preseed, 4), 20.0, -10.0),
      Scale(Word(preseed, 5), 40.0, 5.0),
      Scale(Word(preseed, 6), 0.8, 0.1))
  }

  /** Of a 64-byte digest, word k is read from bytes 8k .. 8k+7 exactly. */
  lemma WordWindow(preseed: seq<byte>, k: nat)
    requires |preseed| == 64 && k < 7
    ensures Word(preseed, k) == BigEndian(preseed[8 * k .. 8 * k + 8])
  {
  }

  /** The seven windows do not overlap: distinct words read disjoint bytes. */
  lemma WindowsDisjoint(j: nat, k: nat)
    requires j < k < 7
    ensures 8 * j + 8 <= 8 * k
  {
  }

  /** Bytes 56 to 63 of the digest are never read. */
  lemma TailUnused(p: seq<byte>, q: seq<byte>)
    requires |p| == 64 && |q| == 64 && p[..56] == q[..56]
    ensures InitialConditionsOf(p) == InitialConditionsOf(q)
  {
    WordAgrees(p, q, 0);
    WordAgrees(p, q, 1);
    WordAgrees(p, q, 2);
    WordAgrees(p, q, 3);
    WordAgrees(p, q, 4);
    WordAgrees(p, q, 5);
    WordAgrees(p, q, 6);
  }

  /** Two digests that agree on bytes 0 to 55 agree on words 0 to 6. */
  lemma WordAgrees(p: seq<byte>, q: seq<byte>, k: nat)
    requires |p| == 64 && |q| == 64 && p[..56] == q[..56] && k < 7
    ensures Word(p, k) == Word(q, k)
  {
    WordWindow(p, k);
    WordWindow(q, k);
    assert p[8 * k .. 8 * k + 8] == q[8 * k .. 8 * k + 8] by {
      forall m | 8 * k <= m < 8 * k + 8 ensures p[m] == q[m] {
        assert p[m] == p[..56][m] && q[m] == q[..56][m];
      }
    }
  }

  /** Every digest gives starts the map constructors accept. */
  lemma DerivedStartAccepted(preseed: seq<byte>)
    ensures AcceptedStart(InitialConditionsOf(preseed))
  {
  }

  // ---------------------------------------------------------------------
  // The HKDF chunk schedule

  /** `chunks = ceil(length / 8160)`. */
  function ChunkCount(length: nat): nat
  {
    (length + MaxHkdfLength - 1) / MaxHkdfLength
  }

  function ChunkStart(i: nat): nat
  {
    i * MaxHkdfLength
  }

  /** `end = min(start + 8160, length)`. */
  function ChunkEnd(i: nat, length: nat): nat
  {
    if ChunkStart(i) + MaxHkdfLength < length then ChunkStart(i) + MaxHkdfLength else length
  }

  /** Chunk i of a schedule of `length` bytes: it holds between 1 and 8160
      bytes, the next chunk starts where it ends, and the last one ends at
      `length`. */
  lemma ChunkBounds(length: nat, i: nat)
    requires i < ChunkCount(length)
    ensures ChunkStart(i) < ChunkEnd(i, length) <= length
    ensures ChunkEnd(i, length) - ChunkStart(i) <= MaxHkdfLength
    ensures i + 1 < ChunkCount(length) ==> ChunkEnd(i, length) == ChunkStart(i + 1)
    ensures i + 1 == ChunkCount(length) ==> ChunkEnd(i, length) == length
  {
    var c := ChunkCount(length);
    assert c * MaxHkdfLength >= length;
    assert (c - 1) * MaxHkdfLength < length;
    assert i * MaxHkdfLength <= (c - 1) * MaxHkdfLength;
    if i + 1 < c {
      assert (i + 1) * MaxHkdfLength <= (c - 1) * MaxHkdfLength;
    }
  }

  /** The schedule tiles [0, length): chunk 0 starts at 0, each chunk ends
      where the next starts, the last ends at `length`, and every chunk holds
      between 1 and 8160 bytes. */
  lemma ChunksTile(length: nat)
    ensures ChunkStart(0) == 0
    ensures length > 0 <==> ChunkCount(length) >= 1
    ensures length > 0 ==> ChunkEnd(ChunkCount(length) - 1, length) == length
    ensures forall i :: 0 <= i < ChunkCount(length) ==>
              ChunkStart(i) < ChunkEnd(i, length) && ChunkEnd(i, length) - ChunkStart(i) <= MaxHkdfLength
    ensures forall i :: 0 <= i < ChunkCount(length) - 1 ==> ChunkEnd(i, length) == ChunkStart(i + 1)
  {
    forall i | 0 <= i < ChunkCount(length)
      ensures ChunkStart(i) < ChunkEnd(i, length) && ChunkEnd(i, length) - ChunkStart(i) <= MaxHkdfLength
      ensures i < ChunkCount(length) - 1 ==> ChunkEnd(i, length) == ChunkStart(i + 1)
    {
      ChunkBounds(length, i);
    }
    if length > 0 {
      ChunkBounds(length, ChunkCount(length) - 1);
    }
  }

  /** Every byte position of the output falls in exactly one chunk: chunk
      `pos / 8160`. */
  lemma ChunkCovers(length: nat, pos: nat)
    requires pos < length
    ensures var i := pos / MaxHkdfLength;
            i < ChunkCount(length) && ChunkStart(i) <= pos < ChunkEnd(i, length)
    ensures forall j :: 0 <= j < ChunkCount(length) && ChunkStart(j) <= pos < ChunkEnd(j, length)
              ==> j == pos / MaxHkdfLength
  {
  }

  /** Chunk i starts where the chunks before it end. */
  lemma PreviousChunkEnd(length: nat, i: nat)
    requires i < ChunkCount(length)
    ensures ChunkStart(i) == if i == 0 then 0 else ChunkEnd(i - 1, length)
  {
    if i > 0 {
      ChunkBounds(length, i - 1);
    }
  }

  /** HKDF of input chunk i: as many bytes as the chunk holds. */
  function WhitenedChunk(hkdf: HkdfSha256, salt: seq<byte>, ks: seq<byte>, i: nat): (r: seq<byte>)
    requires i < ChunkCount(|ks|)
    ensures ChunkStart(i) < ChunkEnd(i, |ks|) <= |ks|
    ensures |r| == ChunkEnd(i, |ks|) - ChunkStart(i)
  {
    ChunkBounds(|ks|, i);
    var lo, hi := ChunkStart(i), ChunkEnd(i, |ks|);
    hkdf(hi - lo, salt, KeystreamInfo, ks[lo..hi])
  }

  /** `derive_keystream`'s whitening of the raw bytes `ks`: one HKDF call when
      they fit in 8160 bytes, otherwise HKDF of the first 8160 bytes followed
      by the whitening of the rest. */
  function Whiten(hkdf: HkdfSha256, salt: seq<byte>, ks: seq<byte>): (r: seq<byte>)
    ensures |r| == |ks|
    decreases |ks|
  {
    if |ks| <= MaxHkdfLength then hkdf(|ks|, salt, KeystreamInfo, ks)
    else hkdf(MaxHkdfLength, salt, KeystreamInfo, ks[..MaxHkdfLength]) + Whiten(hkdf, salt, ks[MaxHkdfLength..])
  }

  /** Chunk j of `ks` is chunk j - 1 of `ks` without its first 8160 bytes. */
  lemma ChunkShift(length: nat, j: nat)
    requires length > MaxHkdfLength && 0 < j < ChunkCount(length)
    ensures j - 1 < ChunkCount(length - MaxHkdfLength)
    ensures ChunkStart(j - 1) == ChunkStart(j) - MaxHkdfLength
    ensures ChunkEnd(j - 1, length - MaxHkdfLength) == ChunkEnd(j, length) - MaxHkdfLength
  {
  }

  /** Past the first 8160 bytes the whitened output is the whitening of
      the rest. */
  lemma WhitenTail(hkdf: HkdfSha256, salt: seq<byte>, ks: seq<byte>, lo: nat, hi: nat)
    requires MaxHkdfLength < |ks| && MaxHkdfLength <= lo <= hi <= |ks|
    ensures Whiten(hkdf, salt, ks)[lo..hi]
            == Whiten(hkdf, salt, ks[MaxHkdfLength..])[lo - MaxHkdfLength..hi - MaxHkdfLength]
  {
    var head := hkdf(MaxHkdfLength, salt, KeystreamInfo, ks[..MaxHkdfLength]);
    assert Whiten(hkdf, salt, ks) == head + Whiten(hkdf, salt, ks[MaxHkdfLength..]);
  }

  /** The whitened output follows the chunk schedule: output chunk j is HKDF
      of input chunk j. */
  lemma {:induction false} WhitenChunks(hkdf: HkdfSha256, salt: seq<byte>, ks: seq<byte>, j: nat)
    requires j < ChunkCount(|ks|)
    ensures ChunkStart(j) < ChunkEnd(j, |ks|) <= |ks|
    ensures Whiten(hkdf, salt, ks)[ChunkStart(j)..ChunkEnd(j, |ks|)] == WhitenedChunk(hkdf, salt, ks, j)
    decreases j
  {
    ChunkBounds(|ks|, j);
    var lo, hi := ChunkStart(j), ChunkEnd(j, |ks|);
    var out := Whiten(hkdf, salt, ks);
    var chunk := hkdf(hi - lo, salt, KeystreamInfo, ks[lo..hi]);
    assert WhitenedChunk(hkdf, salt, ks, j) == chunk;
    if |ks| <= MaxHkdfLength {
      assert out[lo..hi] == chunk by {
        assert j == 0 && lo == 0 && hi == |ks|;
        assert ks[lo..hi] == ks;
      }
    } else if j == 0 {
      assert out[lo..hi] == chunk by {
        assert lo == 0 && hi == MaxHkdfLength;
        assert out == chunk + Whiten(hkdf, salt, ks[MaxHkdfLength..]);
      }
    } else {
      ChunkShift(|ks|, j);
      WhitenChunks(hkdf, salt, ks[MaxHkdfLength..], j - 1);
      WhitenLaterChunk(hkdf, salt, ks, j);
    }
  }

  /** The step of `WhitenChunks` past the first chunk: chunk j of `ks` is
      chunk j - 1 of the rest. */
  lemma WhitenLaterChunk(hkdf: HkdfSha256, salt: seq<byte>, ks: seq<byte>, j: nat)
    requires |ks| > MaxHkdfLength && 0 < j < ChunkCount(|ks|)
    requires j - 1 < ChunkCount(|ks| - MaxHkdfLength)
    requires var tail := ks[MaxHkdfLength..];
             ChunkStart(j - 1) < ChunkEnd(j - 1, |tail|) <= |tail| &&
             Whiten(hkdf, salt, tail)[ChunkStart(j - 1)..ChunkEnd(j - 1, |tail|)] == WhitenedChunk(hkdf, salt, tail, j - 1)
    ensures ChunkStart(j) < ChunkEnd(j, |ks|) <= |ks|
    ensures Whiten(hkdf, salt, ks)[ChunkStart(j)..ChunkEnd(j, |ks|)] == WhitenedChunk(hkdf, salt, ks, j)
  {
    var tail := ks[MaxHkdfLength..];
    ChunkShift(|ks|, j);
    ChunkBounds(|ks|, j);
    var lo, hi := ChunkStart(j), ChunkEnd(j, |ks|);
    WhitenTail(hkdf, salt, ks, lo, hi);
    SliceOfDrop(ks, MaxHkdfLength, lo, hi, lo - MaxHkdfLength, hi - MaxHkdfLength);
    assert WhitenedChunk(hkdf, salt, tail, j - 1)
           == hkdf(hi - lo, salt, KeystreamInfo, tail[lo - MaxHkdfLength..hi - MaxHkdfLength]);
  }

  /** The whitening of `ks` from byte `start` on: the chunk starting there,
      then the rest. */
  lemma WhitenFrom(hkdf: HkdfSha256, salt: seq<byte>, ks: seq<byte>, start: nat)
    requires start < |ks|
    ensures start + MaxHkdfLength < |ks| ==>
              Whiten(hkdf, salt, ks[start..])
              == hkdf(MaxHkdfLength, salt, KeystreamInfo, ks[start..start + MaxHkdfLength])
                 + Whiten(hkdf, salt, ks[start + MaxHkdfLength..])
    ensures start + MaxHkdfLength >= |ks| ==>
              Whiten(hkdf, salt, ks[start..]) == hkdf(|ks| - start, salt, KeystreamInfo, ks[start..|ks|])
  {
    var rest := ks[start..];
    assert rest == ks[start..|ks|];
    if start + MaxHkdfLength < |ks| {
      assert rest[..MaxHkdfLength] == ks[start..start + MaxHkdfLength];
      assert rest[MaxHkdfLength..] == ks[start + MaxHkdfLength..];
    }
  }

  /** One turn of the chunked loop: appending HKDF of chunk i to the output
      of the chunks before it leaves the whitening of the bytes after it. */
  lemma WhitenNextChunk(hkdf: HkdfSha256, salt: seq<byte>, ks: seq<byte>, i: nat, result: seq<byte>)
    requires i < ChunkCount(|ks|) && i * MaxHkdfLength < |ks|
    requires result + Whiten(hkdf, salt, ks[i * MaxHkdfLength..]) == Whiten(hkdf, salt, ks)
    ensures ChunkStart(i) < ChunkEnd(i, |ks|) <= |ks|
    ensures var expanded := hkdf(ChunkEnd(i, |ks|) - ChunkStart(i), salt, KeystreamInfo, ks[ChunkStart(i)..ChunkEnd(i, |ks|)]);
            && (i + 1 < ChunkCount(|ks|) ==>
                  (i + 1) * MaxHkdfLength < |ks|
                  && (result + expanded) + Whiten(hkdf, salt, ks[(i + 1) * MaxHkdfLength..]) == Whiten(hkdf, salt, ks))
            && (i + 1 == ChunkCount(|ks|) ==> result + expanded == Whiten(hkdf, salt, ks))
  {
    ChunkBounds(|ks|, i);
    var start := i * MaxHkdfLength;
    WhitenFrom(hkdf, salt, ks, start);
    if i + 1 < ChunkCount(|ks|) {
      assert (i + 1) * MaxHkdfLength == start + MaxHkdfLength;
    }
  }

  /** The chunked branch of `derive_keystream`: the result grows by one
      whitened chunk per iteration. */
  method WhitenChunked(hkdf: HkdfSha256, salt: seq<byte>, ks: seq<byte>) returns (result: seq<byte>)
    requires |ks| > MaxHkdfLength
    ensures result == Whiten(hkdf, salt, ks)
  {
    var length := |ks|;
    result := [];
    var chunks := (length + MaxHkdfLength - 1) / MaxHkdfLength;
    var i := 0;
    while i < chunks
      invariant 0 <= i <= chunks
      invariant i < chunks ==> (i * MaxHkdfLength < length
                                && result + Whiten(hkdf, salt, ks[i * MaxHkdfLength..]) == Whiten(hkdf, salt, ks))
      invariant i == chunks ==> result == Whiten(hkdf, salt, ks)
    {
      var start := i * MaxHkdfLength;
      var end := if start + MaxHkdfLength < length then start + MaxHkdfLength else length;
      var chunkLen := end - start;
      var expanded := hkdf(chunkLen, salt, KeystreamInfo, ks[start..end]);
      WhitenNextChunk(hkdf, salt, ks, i, result);
      result := result + expanded;
      i := i + 1;
    }
  }

  // ---------------------------------------------------------------------
  // The derivation state machine

  /** What a CKDF instance is built from and never changes. */
  datatype KdfConfig = KdfConfig(prims: Primitives, salt: seq<byte>, burnIn: nat, hybrid: HybridConfig)

  /** `derive_keystream(length, raw)` on map state `s`. A zero length raises
      in the map; otherwise the result has exactly `length` bytes. */
  function DeriveKeystreamOn(k: KdfConfig, s: HybridState, length: nat, raw: bool): (r: (Result<seq<byte>>, HybridState))
    ensures r.0.Ok? <==> length > 0
    ensures r.0.Ok? ==> |r.0.value| == length
    ensures r.1 == Keystream(k.hybrid, s, length, k.burnIn).1
    ensures raw ==> r.0 == Keystream(k.hybrid, s, length, k.burnIn).0
  {
    var (ks, s1) := Keystream(k.hybrid, s, length, k.burnIn);
    if ks.Err? || raw then (ks, s1)
    else (Ok(Whiten(k.prims.hkdf, k.salt, ks.value)), s1)
  }

  /** `derive_key(key_length, info)` on map state `s`: 2k raw bytes, whitened to
      k bytes. k = 0 raises in the map; k above 8160 raises in HKDF after the
      keystream has been drawn. */
  function DeriveKeyOn(k: KdfConfig, s: HybridState, keyLength: nat, info: seq<byte>): (r: (Result<seq<byte>>, HybridState))
    ensures r.0.Ok? <==> 0 < keyLength <= MaxHkdfLength
    ensures keyLength == 0 ==> r.0 == Err(IndexError)
    ensures r.0.Ok? ==> |r.0.value| == keyLength
    ensures r.1 == Keystream(k.hybrid, s, 2 * keyLength, k.burnIn).1
  {
    var drawn := Keystream(k.hybrid, s, 2 * keyLength, k.burnIn);
    if drawn.0.Err? then (Err(drawn.0.error), drawn.1)
    else (HkdfDerive(k.prims, keyLength, k.salt, info, drawn.0.value), drawn.1)
  }

  class ChaoticKDF {
    const seed: seq<byte>
    const salt: seq<byte>
    const burnIn: nat
    const prims: Primitives
    const hcm: HybridChaoticMap

    ghost predicate Valid()
    {
      hcm.Valid()
    }

    ghost function Config(): KdfConfig
    {
      KdfConfig(prims, salt, burnIn, hcm.Config())
    }

    function State(): HybridState
      reads hcm.logistic, hcm.henon, hcm.lorenz, hcm.sine
    {
      hcm.State()
    }

    constructor (seed: seq<byte>, salt: seq<byte>, burnIn: nat, prims: Primitives, hcm: HybridChaoticMap)
      ensures this.seed == seed && this.salt == salt && this.burnIn == burnIn
      ensures this.prims == prims && this.hcm == hcm
    {
      this.seed := seed;
      this.salt := salt;
      this.burnIn := burnIn;
      this.prims := prims;
      this.hcm := hcm;
    }

    /** `ChaoticKDF(seed, salt, params, mixing, burn_in)`: a salt shorter than
        16 bytes raises before any map is built; the map starts at the initial
        conditions read from HMAC-SHA512(salt, seed). */
    static method New(seed: seq<byte>, salt: seq<byte>, params: Option<MapParams>, mixing: Option<Mixing>,
                      burnIn: nat, prims: Primitives, kernels: Kernels)
      returns (r: Result<ChaoticKDF>)
      ensures |salt| < MinSaltLength ==> r == Err(ValueError("Salt must be at least 16 bytes"))
      ensures |salt| >= MinSaltLength ==> (r.Err? <==> Normalise(MixingOr(mixing)).Err?)
      ensures |salt| >= MinSaltLength && r.Err? ==> r.error == ZeroDivisionError
      ensures r.Ok? ==>
                var ic := InitialConditionsOf(prims.hmacSha512(salt, seed));
                && fresh(r.value) && fresh(r.value.hcm) && fresh(r.value.hcm.Components()) && r.value.Valid()
                && r.value.seed == seed && r.value.salt == salt && r.value.burnIn == burnIn
                && r.value.Config()
                   == KdfConfig(prims, salt, burnIn,
                                BuildConfig(ParamsOr(params), Normalise(MixingOr(mixing)).value, ic, kernels))
                && r.value.State() == StartState(ic)
    {
      if |salt| < MinSaltLength {
        return Err(ValueError("Salt must be at least 16 bytes"));
      }
      var preseed := prims.hmacSha512(salt, seed);
      var ic := InitialConditionsOf(preseed);
      DerivedStartAccepted(preseed);
      var hcm := HybridChaoticMap.New(params, mixing, Some(ic), kernels);
      if hcm.Err? {
        return Err(hcm.error);
      }
      var kdf := new ChaoticKDF(seed, salt, burnIn, prims, hcm.value);
      r := Ok(kdf);
    }

    /** `derive_key(key_length, info)`. */
    method DeriveKey(keyLength: nat, info: seq<byte>) returns (r: Result<seq<byte>>)
      requires Valid()
      modifies hcm.Components()
      ensures (r, State()) == DeriveKeyOn(Config(), old(State()), keyLength, info)
    {
      var raw := hcm.GenerateKeystream(2 * keyLength, burnIn);
      if raw.Err? {
        return Err(raw.error);
      }
      r := HkdfDerive(prims, keyLength, salt, info, raw.value);
    }

    /** `derive_keystream(length, raw)`; the chunked path extends the result
        one HKDF chunk at a time. */
    method DeriveKeystream(length: nat, raw: bool) returns (r: Result<seq<byte>>)
      requires Valid()
      modifies hcm.Components()
      ensures (r, State()) == DeriveKeystreamOn(Config(), old(State()), length, raw)
    {
      var keystream := hcm.GenerateKeystream(length, burnIn);
      if keystream.Err? || raw {
        return keystream;
      }
      var ks := keystream.value;
      if length <= MaxHkdfLength {
        return Ok(prims.hkdf(length, salt, KeystreamInfo, ks));
      }
      var whitened := WhitenChunked(prims.hkdf, salt, ks);
      r := Ok(whitened);
    }

    /** `reset()`: the map back at the initial conditions derived at
        construction. */
    method Reset()
      requires Valid()
      modifies hcm.Components()
      ensures State() == Config().hybrid.initial
    {
      hcm.Reset();
    }
  }

  /** Two instances built from the same seed and salt derive the same key. */
  method DeterministicKeys(seed: seq<byte>, salt: seq<byte>, prims: Primitives, kernels: Kernels, keyLength: nat)
    returns (key1: Result<seq<byte>>, key2: Result<seq<byte>>)
    requires |salt| >= MinSaltLength
    ensures key1 == key2
    ensures key1.Ok? <==> 0 < keyLength <= MaxHkdfLength
  {
    var kdf1 := ChaoticKDF.New(seed, salt, None, None, DefaultBurnIn, prims, kernels);
    var kdf2 := ChaoticKDF.New(seed, salt, None, None, DefaultBurnIn, prims, kernels);
    assert Normalise(DefaultMixing).Ok?;
    var a, b := kdf1.value, kdf2.value;
    ghost var c, s0 := a.Config(), a.State();
    assert b.Config() == c && b.State() == s0;
    assert a.hcm.Components() !! b.hcm.Components();
    key1 := a.DeriveKey(keyLength, KeyInfo);
    assert b.State() == s0;
    key2 := b.DeriveKey(keyLength, KeyInfo);
    assert key1 == DeriveKeyOn(c, s0, keyLength, KeyInfo).0;
  }
}
