/** The chaos cipher: PKCS#7 padding (section 6.3 of RFC 5652), then per
    block a Henon permutation of the bytes and an XOR with a whitened
    keystream block, both drawn from one CKDF whose state every block
    advances. Decryption resets the CKDF first and undoes each block. */
module Cipher {
  import opened Base
  import opened Permutations
  import opened Hybrid
  import opened Ckdf
  import opened BlockLoop

  const DefaultBlockSize: nat := 16

  // ---------------------------------------------------------------------
  // Padding

  /** The padding length `block_size - len(data) % block_size`. */
  function PadLength(n: nat, bs: nat): (k: nat)
    requires bs > 0
    ensures 1 <= k <= bs
  {
    bs - Wrap(n, bs)
  }

  /** `bytes([k] * k)` for a k that fits in a byte. */
  function PadBytes(k: nat): (r: seq<byte>)
    requires k <= 255
    ensures |r| == k
    ensures forall i {:trigger r[i]} :: 0 <= i < k ==> r[i] == k as byte
  {
    seq(k, _ => k as byte)
  }

  /** `_pad(data)`: k bytes of value k. A zero block size divides by zero, and
      `bytes([k] * k)` refuses a k above 255. */
  function Pad(data: seq<byte>, bs: nat): (r: Result<seq<byte>>)
    ensures r.Err? <==> bs == 0 || PadLength(|data|, bs) > 255
    ensures bs == 0 ==> r == Err(ZeroDivisionError)
    ensures bs > 0 && r.Err? ==> r.error.ValueError?
    ensures 1 <= bs <= 255 ==> r.Ok?
    ensures r.Ok? ==> var k := PadLength(|data|, bs);
                      && |r.value| == |data| + k
                      && r.value[..|data|] == data
                      && r.value[|data|..] == PadBytes(k)
  {
    if bs == 0 then Err(ZeroDivisionError)
    else
      var k := PadLength(|data|, bs);
      if k > 255 then Err(ValueError("bytes must be in range(0, 256)"))
      else Ok(data + PadBytes(k))
  }

  /** The padded length is the next multiple of the block size strictly above
      the input length. */
  lemma PadAligns(data: seq<byte>, bs: nat)
    requires Pad(data, bs).Ok?
    ensures var m := |Pad(data, bs).value|;
            m > |data| && m - |data| <= bs && Wrap(m, bs) == 0 && m / bs == |data| / bs + 1
  {
    var n := |data|;
    var q := n / bs;
    var m := |Pad(data, bs).value|;
    assert m == n + PadLength(n, bs);
    DivWrap(n, bs);
    MulSucc(q, bs);
    ModUnique(m, bs, q + 1, 0);
  }

  /** `_unpad(data)`: drops as many bytes as the last byte says, without
      checking them. Empty data raises on `data[-1]`; a last byte of 0 gives
      `data[:-0]`, which is empty; a count above the length also leaves nothing. */
  function Unpad(data: seq<byte>): (r: Result<seq<byte>>)
    ensures r.Err? <==> |data| == 0
    ensures r.Err? ==> r.error == IndexError
    ensures r.Ok? ==> var k := data[|data| - 1] as int;
                      && (k == 0 ==> r.value == [])
                      && (0 < k <= |data| ==> r.value == data[..|data| - k])
                      && (k > |data| ==> r.value == [])
  {
    if |data| == 0 then Err(IndexError)
    else
      var k := data[|data| - 1] as int;
      if k == 0 || k > |data| then Ok([]) else Ok(data[..|data| - k])
  }

  /** Unpadding undoes padding whenever padding succeeds. */
  lemma UnpadPad(data: seq<byte>, bs: nat)
    requires Pad(data, bs).Ok?
    ensures Unpad(Pad(data, bs).value) == Ok(data)
  {
    var p := Pad(data, bs).value;
    var k := PadLength(|data|, bs);
    assert p[|p| - 1] == PadBytes(k)[k - 1];
    ByteRoundTrip(k);
  }

  // ---------------------------------------------------------------------
  // One block

  /** `_encrypt_block` given its permutation and keystream:
      `block[perm] ^ keystream`. */
  function EncryptBlock(block: seq<byte>, perm: seq<int>, ks: seq<byte>): (r: seq<byte>)
    requires |perm| == |block| && |ks| == |block| && InRange(perm, |block|)
    ensures |r| == |block|
    ensures forall j :: 0 <= j < |block| ==> r[j] == block[perm[j]] ^ ks[j]
  {
    Xor(Gather(block, perm), ks)
  }

  /** `_decrypt_block` given the same permutation and keystream:
      `(block ^ keystream)[argsort(perm)]`. */
  function DecryptBlock(block: seq<byte>, perm: seq<int>, ks: seq<byte>): (r: seq<byte>)
    requires |perm| == |block| && |ks| == |block|
    ensures |r| == |block|
  {
    var inverse := Argsort(AsKeys(perm));
    Gather(Xor(block, ks), inverse)
  }

  /** With the same permutation and keystream, decrypting a block undoes
      encrypting it: XOR is self-inverse and argsort inverts the permutation. */
  lemma DecryptBlockInverts(block: seq<byte>, perm: seq<int>, ks: seq<byte>)
    requires |perm| == |block| && |ks| == |block| && IsPermutation(perm)
    ensures InRange(perm, |block|)
    ensures DecryptBlock(EncryptBlock(block, perm, ks), perm, ks) == block
  {
    PermutationInRange(perm);
    XorTwice(Gather(block, perm), ks);
    GatherByArgsortUndoes(block, perm);
  }

  // ---------------------------------------------------------------------
  // The block steps

  /** What one block call draws from a generator state. */
  type Key = BlockKey<HybridState>

  /** `_encrypt_block` as a block step; a draw whose shape does not fit the
      block leaves it alone (the cipher never makes one). */
  function EncryptStep(block: seq<byte>, d: Key): (r: seq<byte>)
    ensures |r| == |block|
  {
    if |d.perm| == |block| && |d.keystream| == |block| && InRange(d.perm, |block|)
    then EncryptBlock(block, d.perm, d.keystream)
    else block
  }

  /** `_decrypt_block` as a block step. */
  function DecryptStep(block: seq<byte>, d: Key): (r: seq<byte>)
    ensures |r| == |block|
  {
    if |d.perm| == |block| && |d.keystream| == |block|
    then DecryptBlock(block, d.perm, d.keystream)
    else block
  }

  /** The two steps as values of the loop's step type. */
  const Encrypting: BlockStep<HybridState> := EncryptStep
  const Decrypting: BlockStep<HybridState> := DecryptStep

  // ---------------------------------------------------------------------
  // The cipher's schedule and the whole messages

  /** The cipher's draw from state `s`: `generate_permutation(block_size)`,
      then `derive_keystream(block_size, raw=False)`. */
  function DrawBlockKey(k: KdfConfig, s: HybridState, bs: nat): (r: Key)
    requires bs > 0
    ensures |r.perm| == bs && IsPermutation(r.perm) && InRange(r.perm, bs) && |r.keystream| == bs
  {
    var (perm, s1) := Permutation(k.hybrid, s, bs);
    var (ks, s2) := DeriveKeystreamOn(k, s1, bs, false);
    BlockKey(perm.value, ks.value, s2)
  }

  /** The cipher's key schedule for one configuration and block size. */
  function CipherSchedule(k: KdfConfig, bs: nat): (draw: Schedule<HybridState>)
    requires bs > 0
    ensures forall s :: draw(s) == DrawBlockKey(k, s, bs)
  {
    s => DrawBlockKey(k, s, bs)
  }

  /** `draw` draws what the cipher draws, for one configuration and block
      size. The trigger keeps the draw's definition out of sight until a
      particular draw is named. */
  ghost predicate DrawsLike(draw: Schedule<HybridState>, k: KdfConfig, bs: nat)
    requires bs > 0
  {
    forall t {:trigger DrawBlockKey(k, t, bs)} :: draw(t) == DrawBlockKey(k, t, bs)
  }

  /** One block under one draw of the cipher's schedule: `_decrypt_block`
      undoes `_encrypt_block`. */
  lemma DecryptUndoesEncrypt(k: KdfConfig, bs: nat, b: seq<byte>, t: HybridState)
    requires bs > 0 && |b| == bs
    ensures var d := CipherSchedule(k, bs)(t); Decrypting(Encrypting(b, d), d) == b
  {
    var d := DrawBlockKey(k, t, bs);
    assert CipherSchedule(k, bs)(t) == d;
    var e := EncryptBlock(b, d.perm, d.keystream);
    assert Encrypting(b, d) == e;
    assert Decrypting(e, d) == DecryptBlock(e, d.perm, d.keystream);
    DecryptBlockInverts(b, d.perm, d.keystream);
  }

  /** Under the cipher's own schedule, `_decrypt_block` undoes
      `_encrypt_block` on every block. */
  lemma DecryptStepUndoes(k: KdfConfig, bs: nat)
    requires bs > 0
    ensures Undoes(Decrypting, Encrypting, CipherSchedule(k, bs), bs)
  {
    var draw := CipherSchedule(k, bs);
    forall b: seq<byte>, t | |b| == bs
      ensures Decrypting(Encrypting(b, draw(t)), draw(t)) == b
    {
      DecryptUndoesEncrypt(k, bs, b, t);
    }
  }

  /** `encrypt(plaintext)` on state `s`: pad, then the block loop. */
  function EncryptOn(k: KdfConfig, s: HybridState, plaintext: seq<byte>, bs: nat): (r: (Result<seq<byte>>, HybridState))
    ensures r.0.Err? <==> Pad(plaintext, bs).Err?
    ensures r.0.Err? ==> r.0.error == Pad(plaintext, bs).error && r.1 == s
    ensures r.0.Ok? ==> |r.0.value| == |Pad(plaintext, bs).value| && Wrap(|r.0.value|, bs) == 0
  {
    var padded := Pad(plaintext, bs);
    if padded.Err? then (Err(padded.error), s)
    else
      PadAligns(plaintext, bs);
      WholeLengthWrap(|padded.value|, bs);
      var (c, s1) := Blocks(Encrypting, CipherSchedule(k, bs), s, padded.value, bs);
      (Ok(c), s1)
  }

  /** `decrypt(ciphertext)`: the state is reset first, so the result does not
      depend on the state before the call. Fewer bytes than one block leave
      nothing to unpad. */
  function DecryptOn(k: KdfConfig, ciphertext: seq<byte>, bs: nat): (r: (Result<seq<byte>>, HybridState))
    ensures bs == 0 ==> r.0 == Err(ZeroDivisionError) && r.1 == k.hybrid.initial
    ensures bs > 0 ==> (r.0.Err? <==> |ciphertext| < bs)
    ensures bs > 0 && r.0.Err? ==> r.0.error == IndexError
  {
    if bs == 0 then (Err(ZeroDivisionError), k.hybrid.initial)
    else
      var (p, s1) := Blocks(Decrypting, CipherSchedule(k, bs), k.hybrid.initial, ciphertext, bs);
      (Unpad(p), s1)
  }

  /** What the block loop of `encrypt` returns is `EncryptOn`. */
  lemma EncryptOnLoop(k: KdfConfig, s: HybridState, plaintext: seq<byte>, bs: nat, data: seq<byte>,
                      draw: Schedule<HybridState>, c: seq<byte>, t: HybridState)
    requires Pad(plaintext, bs) == Ok(data) && draw == CipherSchedule(k, bs)
    requires Blocks(Encrypting, draw, s, data, bs).0 == c && Blocks(Encrypting, draw, s, data, bs).1 == t
    ensures EncryptOn(k, s, plaintext, bs).0 == Ok(c) && EncryptOn(k, s, plaintext, bs).1 == t
  {
  }

  /** What the block loop of `decrypt` returns, unpadded, is `DecryptOn`. */
  lemma DecryptOnLoop(k: KdfConfig, ciphertext: seq<byte>, bs: nat, draw: Schedule<HybridState>,
                      p: seq<byte>, t: HybridState)
    requires bs > 0 && draw == CipherSchedule(k, bs)
    requires Blocks(Decrypting, draw, k.hybrid.initial, ciphertext, bs).0 == p
    requires Blocks(Decrypting, draw, k.hybrid.initial, ciphertext, bs).1 == t
    ensures DecryptOn(k, ciphertext, bs).0 == Unpad(p) && DecryptOn(k, ciphertext, bs).1 == t
  {
  }

  /** Padding, the block loop of `f`, the block loop of `g` and unpadding
      give the plaintext back whenever `g` undoes `f` block by block. */
  lemma PaddedRoundTrip(draw: Schedule<HybridState>, s: HybridState, plaintext: seq<byte>, bs: nat)
    requires Pad(plaintext, bs).Ok? && Undoes(Decrypting, Encrypting, draw, bs)
    ensures bs > 0
    ensures var padded := Pad(plaintext, bs).value;
            Unpad(Blocks(Decrypting, draw, s, Blocks(Encrypting, draw, s, padded, bs).0, bs).0) == Ok(plaintext)
  {
    var padded := Pad(plaintext, bs).value;
    assert Blocks(Decrypting, draw, s, Blocks(Encrypting, draw, s, padded, bs).0, bs).0 == padded by {
      PadAligns(plaintext, bs);
      WholeLengthWrap(|padded|, bs);
      BlocksUndo(Decrypting, Encrypting, draw, s, padded, bs);
      assert padded[..WholeLength(|padded|, bs)] == padded;
    }
    UnpadPad(plaintext, bs);
  }

  /** Round trip: a ciphertext produced from the initial state (a fresh or
      reset instance) decrypts to the plaintext, for any block size that
      padding accepts. */
  lemma RoundTrip(k: KdfConfig, plaintext: seq<byte>, bs: nat)
    requires Pad(plaintext, bs).Ok?
    ensures EncryptOn(k, k.hybrid.initial, plaintext, bs).0.Ok?
    ensures DecryptOn(k, EncryptOn(k, k.hybrid.initial, plaintext, bs).0.value, bs).0 == Ok(plaintext)
  {
    DecryptStepUndoes(k, bs);
    PaddedRoundTrip(CipherSchedule(k, bs), k.hybrid.initial, plaintext, bs);
  }

  /** The first 16 bytes of SHA-256 of the seed: the salt when none is given. */
  function DefaultSalt(p: Primitives, seed: seq<byte>): (r: seq<byte>)
    ensures |r| == MinSaltLength
  {
    p.sha256(seed)[..16]
  }

  class ChaosCipher {
    const seed: seq<byte>
    const salt: seq<byte>
    const blockSize: nat
    const ckdf: ChaoticKDF

    ghost predicate Valid()
    {
      ckdf.Valid()
    }

    ghost function Config(): KdfConfig
    {
      ckdf.Config()
    }

    ghost function Components(): set<object>
    {
      ckdf.hcm.Components()
    }

    function State(): HybridState
      reads ckdf.hcm.logistic, ckdf.hcm.henon, ckdf.hcm.lorenz, ckdf.hcm.sine
    {
      ckdf.State()
    }

    constructor (seed: seq<byte>, salt: seq<byte>, blockSize: nat, ckdf: ChaoticKDF)
      ensures this.seed == seed && this.salt == salt && this.blockSize == blockSize && this.ckdf == ckdf
    {
      this.seed := seed;
      this.salt := salt;
      this.blockSize := blockSize;
      this.ckdf := ckdf;
    }

    /** `ChaosCipher(seed, salt, block_size, params, mixing)`. Without a salt
        the default one is 16 bytes long, so the salt check cannot fail. */
    static method New(seed: seq<byte>, salt: Option<seq<byte>>, blockSize: nat,
                      params: Option<MapParams>, mixing: Option<Mixing>,
                      prims: Primitives, kernels: Kernels)
      returns (r: Result<ChaosCipher>)
      ensures var sl := if salt.Some? then salt.value else DefaultSalt(prims, seed);
              && (|sl| < MinSaltLength ==> r == Err(ValueError("Salt must be at least 16 bytes")))
              && (|sl| >= MinSaltLength ==> (r.Err? <==> Normalise(MixingOr(mixing)).Err?))
              && (r.Ok? ==> fresh(r.value) && fresh(r.value.Components()) && r.value.Valid()
                            && r.value.salt == sl && r.value.blockSize == blockSize
                            && r.value.Config().salt == sl && r.value.Config().burnIn == DefaultBurnIn
                            && r.value.State() == r.value.Config().hybrid.initial)
      ensures salt.None? ==> (r.Err? <==> Normalise(MixingOr(mixing)).Err?)
    {
      var sl := if salt.Some? then salt.value else DefaultSalt(prims, seed);
      var kdf := ChaoticKDF.New(seed, sl, params, mixing, DefaultBurnIn, prims, kernels);
      if kdf.Err? {
        return Err(kdf.error);
      }
      var c := new ChaosCipher(seed, sl, blockSize, kdf.value);
      r := Ok(c);
    }

    /** `_encrypt_block(block, i)`: a permutation, then a keystream block. */
    method EncryptOneBlock(block: seq<byte>) returns (out: seq<byte>)
      requires Valid() && blockSize > 0 && |block| == blockSize
      modifies Components()
      ensures var d := DrawBlockKey(Config(), old(State()), blockSize);
              out == EncryptBlock(block, d.perm, d.keystream) && State() == d.next
    {
      var perm := ckdf.hcm.GeneratePermutation(blockSize);
      var permuted := Gather(block, perm.value);
      var keystream := ckdf.DeriveKeystream(blockSize, false);
      out := Xor(permuted, keystream.value);
    }

    /** `_decrypt_block(block, i)`: the same draws, undone in reverse order. */
    method DecryptOneBlock(block: seq<byte>) returns (out: seq<byte>)
      requires Valid() && blockSize > 0 && |block| == blockSize
      modifies Components()
      ensures var d := DrawBlockKey(Config(), old(State()), blockSize);
              out == DecryptBlock(block, d.perm, d.keystream) && State() == d.next
    {
      var perm := ckdf.hcm.GeneratePermutation(blockSize);
      var keystream := ckdf.DeriveKeystream(blockSize, false);
      var afterXor := Xor(block, keystream.value);
      var inversePerm := Argsort(AsKeys(perm.value));
      out := Gather(afterXor, inversePerm);
    }

    /** `encrypt(plaintext)`: it does not reset, so it continues from the
        current state. */
    method Encrypt(plaintext: seq<byte>) returns (r: Result<seq<byte>>)
      requires Valid()
      modifies Components()
      ensures r == EncryptOn(Config(), old(State()), plaintext, blockSize).0
      ensures State() == EncryptOn(Config(), old(State()), plaintext, blockSize).1
    {
      var padded := Pad(plaintext, blockSize);
      if padded.Err? {
        return Err(padded.error);
      }
      ghost var s0 := State();
      var ciphertext := EncryptBlocks(padded.value, CipherSchedule(Config(), blockSize));
      EncryptOnLoop(Config(), s0, plaintext, blockSize, padded.value, CipherSchedule(Config(), blockSize), ciphertext, State());
      r := Ok(ciphertext);
    }

    /** The block loop of `encrypt`: `_encrypt_block` on every whole block,
        one draw per block. */
    method EncryptBlocks(data: seq<byte>, ghost draw: Schedule<HybridState>) returns (ciphertext: seq<byte>)
      requires Valid() && blockSize > 0 && DrawsLike(draw, Config(), blockSize)
      modifies Components()
      ensures ciphertext == Blocks(Encrypting, draw, old(State()), data, blockSize).0
      ensures State() == Blocks(Encrypting, draw, old(State()), data, blockSize).1
    {
      var bs := blockSize;
      ghost var s0 := State();
      ciphertext := [];
      var offset := 0;
      // one turn per whole block: len // block_size turns
      while offset + bs <= |data|
        invariant 0 <= offset <= |data|
        invariant Valid()
        invariant Blocks(Encrypting, draw, s0, data, bs).0
                  == ciphertext + Blocks(Encrypting, draw, State(), data[offset..], bs).0
        invariant Blocks(Encrypting, draw, s0, data, bs).1
                  == Blocks(Encrypting, draw, State(), data[offset..], bs).1
      {
        var block := data[offset..offset + bs];
        ghost var before := State();
        var next := offset + bs;
        var encrypted := EncryptOneBlock(block);
        BlocksAdvance(Encrypting, draw, s0, data, bs, ciphertext, offset, next, before, encrypted, State());
        ciphertext := ciphertext + encrypted;
        offset := next;
      }
      BlocksShort(Encrypting, draw, State(), data[offset..], bs);
    }

    /** `decrypt(ciphertext)`: reset, the whole blocks, then unpad. */
    method Decrypt(ciphertext: seq<byte>) returns (r: Result<seq<byte>>)
      requires Valid()
      modifies Components()
      ensures r == DecryptOn(Config(), ciphertext, blockSize).0
      ensures State() == DecryptOn(Config(), ciphertext, blockSize).1
    {
      ckdf.Reset();
      if blockSize == 0 {
        return Err(ZeroDivisionError);
      }
      var plaintext := DecryptBlocks(ciphertext, CipherSchedule(Config(), blockSize));
      DecryptOnLoop(Config(), ciphertext, blockSize, CipherSchedule(Config(), blockSize), plaintext, State());
      r := Unpad(plaintext);
    }

    /** The block loop of `decrypt`: `_decrypt_block` on every whole block,
        one draw per block. */
    method DecryptBlocks(ciphertext: seq<byte>, ghost draw: Schedule<HybridState>) returns (plaintext: seq<byte>)
      requires Valid() && blockSize > 0 && DrawsLike(draw, Config(), blockSize)
      modifies Components()
      ensures plaintext == Blocks(Decrypting, draw, old(State()), ciphertext, blockSize).0
      ensures State() == Blocks(Decrypting, draw, old(State()), ciphertext, blockSize).1
    {
      var bs := blockSize;
      ghost var s0 := State();
      plaintext := [];
      var offset := 0;
      // one turn per whole block: len // block_size turns
      while offset + bs <= |ciphertext|
        invariant 0 <= offset <= |ciphertext|
        invariant Valid()
        invariant Blocks(Decrypting, draw, s0, ciphertext, bs).0
                  == plaintext + Blocks(Decrypting, draw, State(), ciphertext[offset..], bs).0
        invariant Blocks(Decrypting, draw, s0, ciphertext, bs).1
                  == Blocks(Decrypting, draw, State(), ciphertext[offset..], bs).1
      {
        var block := ciphertext[offset..offset + bs];
        ghost var before := State();
        var next := offset + bs;
        var decrypted := DecryptOneBlock(block);
        BlocksAdvance(Decrypting, draw, s0, ciphertext, bs, plaintext, offset, next, before, decrypted, State());
        plaintext := plaintext + decrypted;
        offset := next;
      }
      BlocksShort(Decrypting, draw, State(), ciphertext[offset..], bs);
    }
  }

  /** The round trip of the source's own test: a freshly built cipher decrypts
      what it has just encrypted, whenever it can be built and pads with a
      block size from 1 to 255. */
  method FreshRoundTrip(seed: seq<byte>, salt: Option<seq<byte>>, blockSize: nat,
                        params: Option<MapParams>, mixing: Option<Mixing>,
                        prims: Primitives, kernels: Kernels, plaintext: seq<byte>)
    returns (built: bool, ciphertext: Result<seq<byte>>, decrypted: Result<seq<byte>>)
    ensures salt.None? ==> (built <==> Normalise(MixingOr(mixing)).Ok?)
    ensures built && 1 <= blockSize <= 255 ==> ciphertext.Ok? && decrypted == Ok(plaintext)
  {
    var c := ChaosCipher.New(seed, salt, blockSize, params, mixing, prims, kernels);
    if c.Err? {
      return false, Err(c.error), Err(c.error);
    }
    var cipher := c.value;
    built := true;
    ghost var k := cipher.Config();
    ciphertext := cipher.Encrypt(plaintext);
    if ciphertext.Err? {
      return built, ciphertext, ciphertext;
    }
    decrypted := cipher.Decrypt(ciphertext.value);
    RoundTrip(k, plaintext, blockSize);
  }
}
