# Butterfly chaos cipher — a Dafny model

This project models the core of Butterfly, a chaos-based cipher. It covers:

- the four chaotic maps (Logistic, Hénon, Lorenz, Sine);
- the hybrid generator that mixes their byte streams;
- the chaotic key derivation function (CKDF), which seeds the maps from HMAC-SHA512 and whitens their output with HKDF-SHA256;
- the block cipher, which pads with PKCS#7 (section 6.3 of RFC 5652) and then, block by block, permutes the bytes with a Hénon permutation and XORs a keystream block;
- the quality metrics: the avalanche test, the randomness test battery and the entropy measures.

The modules follow the source files:

| module | file(s) | form |
|---|---|---|
| `Base` | — | bytes (`bv8`), Python's `%` and `//`, `Result`/`Option`, small arithmetic facts |
| `ChaosSources` | `chaos/logistic_map.py`, `chaos/sine_map.py`, `chaos/lorenz_system.py` | a class per map instance; its float step and quantiser are parameters |
| `Henon` | `chaos/henon_map.py` | the recurrence over `real`, a class with the updated fields `x`, `y`, arrays for the trajectory |
| `Permutations` | `np.argsort` and fancy indexing as the Hénon map and cipher use them | functions and lemmas |
| `Hybrid` | `chaos/hybrid_map.py` | a class owning the four map objects, proved against value-level functions over `HybridState` |
| `Ckdf` | `crypto/ckdf.py` | a class over the hybrid map; HMAC, SHA-256 and HKDF are parameters |
| `BlockLoop`, `Cipher` | `crypto/cipher.py` | the block loop as a function generic in the step and the key schedule; the class's loops proved against it |
| `Tally` | `collections.Counter` and counting dicts | a key list in insertion order plus a map of counts |
| `Avalanche` | `metrics/avalanche.py` | functions, and methods for the trial loops |
| `StatisticalTests` | `metrics/statistical_tests.py` | functions, and methods for the loops |
| `Entropy` | `metrics/entropy.py` | functions, and methods for the loops |

Every stateful object is a Dafny `class`. Each of its methods is specified by a function of the configuration and the state before the call. Examples:

- `Hybrid.Keystream` specifies `generate_keystream`.
- `Ckdf.DeriveKeystreamOn` specifies `derive_keystream`.
- `Cipher.EncryptOn` and `Cipher.DecryptOn` specify `encrypt` and `decrypt`.

The end-to-end properties are proved about those functions. The main ones are:

- the cipher round trip, `Cipher.RoundTrip`;
- CKDF determinism, `Ckdf.DeterministicKeys`;
- the reset behaviour, `Hybrid.ResetRepeatsFreshOutput`.

Behaviours of the code that the model follows, with the places where the repository's own docstrings and comments say otherwise:

- **Mixer weights.** `HybridChaoticMap.__init__` divides the four mixing coefficients by their sum (`chaos/hybrid_map.py:56-58`). A zero sum raises `ZeroDivisionError`.
- **Mixer output.** `_mix_bytes` combines four byte streams in four layers (`chaos/hybrid_map.py:158-185`): scaled bytes added modulo 256, XORs of the streams and of their shifted copies, the sum of those two modulo 256, and a final XOR with two shifted streams. The module docstring's formula `X_{n+1} = (α·f(X_n) + β·g(Y_n) + γ·h(Z_n)) mod 1` (`chaos/hybrid_map.py:5`) is not what the code computes.
- **Shifts, not bit rotations.** The docstring at `chaos/hybrid_map.py:161` speaks of "bit rotation" and the comment at `chaos/hybrid_map.py:175` of "Rotate bits", but `np.roll` moves array positions. The model rolls positions (`Hybrid.Roll`).
- **Draw order.** `_encrypt_block` draws the Hénon permutation before the keystream block (`crypto/cipher.py:123-130`). The class docstring lists the keystream first (`crypto/cipher.py:26-27`). The order matters because both draws advance the same generator.
- **Per-block draws.** Each block permutes its own bytes and then XORs a keystream block (`crypto/cipher.py:76-83`, `119-135`). Every block draws a fresh permutation and keystream block from the one advancing generator.
- **Ties in the sort.** The Hénon permutation is `np.argsort(traj_x)` with NumPy's default sort, which is not stable (`chaos/henon_map.py:64`). The model promises only some permutation that sorts the x-values.
- **Stateful CKDF.** `derive_keystream` runs the burn-in on every call and leaves the maps advanced (`crypto/ckdf.py:150`). `decrypt` resets the CKDF first (`crypto/cipher.py:100-101`); `encrypt` does not.
- **Unpadding.** `_unpad` is documented as removing PKCS7 padding (`crypto/cipher.py:165`), but it drops `data[-1]` bytes without checking them (`crypto/cipher.py:166-167`).
- **Lorenz integrator.** Lorenz steps with fourth-order Runge-Kutta (`chaos/lorenz_system.py:51-57`, `125-132`). The model keeps the step as a parameter.
- **Seed tweak.** The seed-sensitivity test replaces the last character of a string seed by `chr((ord(c) + i + 1) % 128)` (`metrics/avalanche.py:103`).

## Model

| member | source | states |
|---|---|---|
| `Base.XorTwice` | backend/crypto/cipher.py:149-150 | XOR with the same keystream twice gives the block back |
| `ChaosSources.IteratedAdditive` | backend/chaos/logistic_map.py:35-39 | m steps followed by n steps are m + n steps |
| `ChaosSources.Trajectory` | backend/chaos/logistic_map.py:64-72 | the generated sequence has one entry per step; entry i is the state after i + 1 steps from the current one |
| `ChaosSources.EmitBytes` | backend/chaos/logistic_map.py:49-55 | `to_bytes(n)`: the map's empty-draw exception exactly when n = 0, with the state unchanged; else n bytes, and the state becomes the last trajectory point |
| `ChaosSources.EmptyTrajectoryError` | backend/chaos/lorenz_system.py:78-100 | `to_bytes(0)` raises `IndexError` for Logistic and Sine (`sequence[-1]`, `logistic_map.py:53`, `sine_map.py:52`) and NumPy's `ValueError` from `arr.min()` of the empty x column for Lorenz |
| `ChaosSources.ChaosSource.constructor` | backend/chaos/logistic_map.py:25-33 | the state and the saved initial state are both the given start |
| `ChaosSources.ChaosSource.Iterate` | backend/chaos/logistic_map.py:35-39 | the new state is n steps on from the old one and is returned |
| `ChaosSources.ChaosSource.ToBytes` | backend/chaos/logistic_map.py:49-55 | result and new state are those of `EmitBytes` from the old state, raising the map's own empty-draw exception (likewise `sine_map.py:49-55`, `lorenz_system.py:78-95`) |
| `ChaosSources.ChaosSource.GenerateTrajectory` | backend/chaos/lorenz_system.py:59-76 | returns the n-point trajectory and leaves the state at its end |
| `ChaosSources.ChaosSource.Reset` | backend/chaos/lorenz_system.py:103-106 | `reset()` with no argument restores the initial state |
| `Henon.OrbitAdditive` | backend/chaos/henon_map.py:37-43 | iterating m times then n times is iterating m + n times |
| `Henon.TrajectoryConcatenates` | backend/chaos/henon_map.py:94-108 | a trajectory of m + n points is the first m points followed by the n points from where they end |
| `Henon.TrajectoryX` | backend/chaos/henon_map.py:94-108 | x-trajectory: `length` entries, entry i the x of the point i + 1 steps on (`TrajectoryY` likewise for y) |
| `Henon.TrajectoryArrays` | backend/chaos/henon_map.py:94-108 | the loop fills two fresh arrays with exactly the x- and y-trajectories |
| `Henon.PermutationIndices` | backend/chaos/henon_map.py:49-69 | error exactly when n = 0; otherwise a permutation of 0..n-1 that sorts the trajectory's x-values ascending, and the state becomes the last trajectory point |
| `Henon.EmitBytes` | backend/chaos/henon_map.py:71-83 | error exactly when n = 0, otherwise n bytes; the state advances n steps |
| `Henon.HenonMap.constructor` | backend/chaos/henon_map.py:30-35 | parameters stored; current and initial state are (x0, y0) |
| `Henon.HenonMap.Iterate` | backend/chaos/henon_map.py:37-43 | `(x, y)` becomes the n-th orbit point and is returned |
| `Henon.HenonMap.GenerateTrajectory` | backend/chaos/henon_map.py:45-47 | the arrays hold the x- and y-trajectories from the current state |
| `Henon.HenonMap.GeneratePermutationIndices` | backend/chaos/henon_map.py:49-69 | result and new state are `PermutationIndices` of the old state |
| `Henon.HenonMap.ToBytes` | backend/chaos/henon_map.py:71-83 | result and new state are `EmitBytes` of the old state |
| `Henon.HenonMap.Reset` | backend/chaos/henon_map.py:85-91 | no argument restores the initial point; otherwise only the given coordinates change |
| `Permutations.Gather` | backend/crypto/cipher.py:127 | `s[p]`: entry j is `s[p[j]]` |
| `Permutations.SortIndices` | backend/chaos/henon_map.py:64 | the result is a rearrangement of the given indices that sorts them by key |
| `Permutations.Argsort` | backend/chaos/henon_map.py:64 | `np.argsort(keys)`: a permutation of 0..n-1 listing positions in ascending key order |
| `Permutations.ArgsortIsBijection` | backend/chaos/henon_map.py:56-57 | argsort is injective and covers every position: a permutation of `range(n)` |
| `Permutations.ArgsortInverts` | backend/crypto/cipher.py:153 | `argsort(perm)` is the inverse of a permutation: `perm[argsort(perm)[k]] == k` |
| `Permutations.GatherByArgsortUndoes` | backend/crypto/cipher.py:153-154 | `x[perm][argsort(perm)] == x` for every permutation |
| `Hybrid.Normalise` | backend/chaos/hybrid_map.py:56-58 | `ZeroDivisionError` exactly when the weights sum to 0; otherwise the weights sum to 1 and are proportional to the given ones |
| `Hybrid.NormaliseIdempotent` | backend/chaos/hybrid_map.py:56-58 | weights that already sum to 1 are left unchanged |
| `Hybrid.Roll` | backend/chaos/hybrid_map.py:175-176 | `np.roll(x, k)`: entry i is `x[(i - k) mod n]` |
| `Hybrid.RollRoll` | backend/chaos/hybrid_map.py:175-183 | rolling by j then k is rolling by j + k |
| `Hybrid.RollZero` | backend/chaos/hybrid_map.py:175-183 | rolling by 0 changes nothing |
| `Hybrid.RollInverse` | backend/chaos/hybrid_map.py:175-183 | rolling by -k undoes rolling by k |
| `Hybrid.MixedXorAt` | backend/chaos/hybrid_map.py:172-177 | layer 2, byte i: the XOR of the four streams at i, of streams 1-2 at i - 3 and of streams 3-4 at i - 5, indices mod n |
| `Hybrid.AddBytes` | backend/chaos/hybrid_map.py:180 | the int16 sum taken mod 256 is the wrapping byte addition, position by position |
| `Hybrid.MixBytesAt` | backend/chaos/hybrid_map.py:179-183 | output byte i is `(add[i] + layer2[i]) mod 256` XOR `b1[i-1]` XOR `b2[i-2]` |
| `Hybrid.Keystream` | backend/chaos/hybrid_map.py:128-156 | after the burn-in: `IndexError` exactly when n = 0, else exactly n bytes |
| `Hybrid.KeystreamAdvances` | backend/chaos/hybrid_map.py:144-151 | a keystream of n bytes leaves every map burn-in + n steps on |
| `Hybrid.Permutation` | backend/chaos/hybrid_map.py:187-189 | a permutation of 0..n-1 (error when n = 0); only the Hénon map moves |
| `Hybrid.BuildConfig` | backend/chaos/hybrid_map.py:72-100 | the configuration starts from the given initial conditions with the given weights; its Logistic and Sine maps raise `IndexError` and its Lorenz map `ValueError` on an empty draw |
| `Hybrid.HybridChaoticMap.constructor` | backend/chaos/hybrid_map.py:72-100 | four fresh maps at the start state built from the initial conditions |
| `Hybrid.HybridChaoticMap.New` | backend/chaos/hybrid_map.py:39-100 | defaults for missing arguments; `ZeroDivisionError` on a zero weight sum; `ValueError` when a Logistic or Sine start is outside (0, 1) (`logistic_map.py:28-29`, `sine_map.py:28-29`); otherwise a valid map at the start state |
| `Hybrid.HybridChaoticMap.Iterate` | backend/chaos/hybrid_map.py:102-117 | all four maps advance n steps together; the new state is returned |
| `Hybrid.HybridChaoticMap.GenerateKeystream` | backend/chaos/hybrid_map.py:128-156 | result and new state are `Keystream` of the old state |
| `Hybrid.HybridChaoticMap.GeneratePermutation` | backend/chaos/hybrid_map.py:187-189 | result and new state are `Permutation` of the old state |
| `Hybrid.HybridChaoticMap.Reset` | backend/chaos/hybrid_map.py:191-196 | every map is back at its initial condition |
| `Hybrid.HybridChaoticMap.GetAttractorData` | backend/chaos/hybrid_map.py:198-216 | the Lorenz trajectory from the current Lorenz state; the Lorenz state is restored, so no map moves |
| `Hybrid.ResetRepeatsFreshOutput` | backend/chaos/hybrid_map.py:191-196 | after any use and a reset, the next keystream equals a fresh instance's first keystream |
| `Ckdf.HkdfDerive` | backend/crypto/ckdf.py:125-131 | HKDF refuses exactly the lengths above 255 * 32; otherwise the key has the requested length |
| `Ckdf.BigEndianBound` | backend/crypto/ckdf.py:81-87 | `int.from_bytes(b, 'big')` is below 256^len(b) |
| `Ckdf.Word` | backend/crypto/ckdf.py:81-87 | each 8-byte word is below 2^64 |
| `Ckdf.Scale` | backend/crypto/ckdf.py:90-100 | `word / 2**64 * width + offset` lies in `[offset, offset + width)` |
| `Ckdf.InitialConditionsOf` | backend/crypto/ckdf.py:89-100 | the documented ranges: Logistic and Sine in [0.1, 0.9), Hénon in [-0.2, 0.2), Lorenz x, y in [-10, 10), z in [5, 45) |
| `Ckdf.WordWindow` | backend/crypto/ckdf.py:81-87 | word k is read from bytes 8k .. 8k + 8 of the digest |
| `Ckdf.TailUnused` | backend/crypto/ckdf.py:80-87 | digests that agree on their first 56 bytes give the same initial conditions |
| `Ckdf.DerivedStartAccepted` | backend/crypto/ckdf.py:93-99 | derived Logistic and Sine starts always pass the maps' (0, 1) check |
| `Ckdf.ChunkBounds` | backend/crypto/ckdf.py:172-177 | each chunk is non-empty, within the keystream, at most 8160 bytes, and ends where the next begins |
| `Ckdf.ChunksTile` | backend/crypto/ckdf.py:172-177 | the chunks start at 0, end at `length`, and tile it without gaps |
| `Ckdf.ChunkCovers` | backend/crypto/ckdf.py:172-177 | every byte position lies in exactly one chunk, chunk `pos // 8160` |
| `Ckdf.WhitenedChunk` | backend/crypto/ckdf.py:177-187 | the HKDF output for one chunk has the chunk's length |
| `Ckdf.Whiten` | backend/crypto/ckdf.py:159-190 | the whitened keystream has the raw keystream's length |
| `Ckdf.WhitenChunks` | backend/crypto/ckdf.py:172-188 | the slice of the whitened keystream over chunk j is HKDF applied to chunk j of the raw keystream |
| `Ckdf.WhitenChunked` | backend/crypto/ckdf.py:168-190 | the chunk loop builds exactly the whitened keystream |
| `Ckdf.DeriveKeystreamOn` | backend/crypto/ckdf.py:135-190 | ok exactly when length > 0, with exactly `length` bytes; the maps move as for a raw keystream; `raw` returns the raw bytes |
| `Ckdf.DeriveKeyOn` | backend/crypto/ckdf.py:102-133 | ok exactly when 0 < k ≤ 8160 (`IndexError` for k = 0); the key has k bytes; the maps move as for 2k raw bytes |
| `Ckdf.ChaoticKDF.constructor` | backend/crypto/ckdf.py:53-55 | seed, salt, burn-in and map stored |
| `Ckdf.ChaoticKDF.New` | backend/crypto/ckdf.py:46-71 | `ValueError` for a salt under 16 bytes; `ZeroDivisionError` exactly when the weights sum to 0; otherwise the map starts at the initial conditions read from HMAC-SHA512(salt, seed) |
| `Ckdf.ChaoticKDF.DeriveKey` | backend/crypto/ckdf.py:102-133 | result and new state are `DeriveKeyOn` of the old state |
| `Ckdf.ChaoticKDF.DeriveKeystream` | backend/crypto/ckdf.py:135-190 | result and new state are `DeriveKeystreamOn` of the old state |
| `Ckdf.ChaoticKDF.Reset` | backend/crypto/ckdf.py:192-194 | the maps return to the derived initial conditions |
| `Ckdf.DeterministicKeys` | backend/crypto/ckdf.py:204-211 | two instances from the same seed and salt derive the same key, which exists exactly when 0 < k ≤ 8160 |
| `BlockLoop.WholeLength` | backend/crypto/cipher.py:73 | the whole blocks cover less than one block short of the input |
| `BlockLoop.WholeLengthWrap` | backend/crypto/cipher.py:73 | they cover exactly `n - n % bs` bytes, i.e. `n // bs` blocks |
| `BlockLoop.Blocks` | backend/crypto/cipher.py:73-85 | the output has one block per whole input block |
| `BlockLoop.BlocksState` | backend/crypto/cipher.py:76-83 | the loop leaves the generator `n // bs` draws on |
| `BlockLoop.BlocksAt` | backend/crypto/cipher.py:76-83 | output block i is the step applied to input block i under draw i |
| `BlockLoop.BlocksIgnoreTrailing` | backend/crypto/cipher.py:104-110 | bytes after the last whole block change neither output nor state |
| `BlockLoop.BlocksUndo` | backend/crypto/cipher.py:100-114 | if g undoes f block by block, g's loop over f's output from the same state gives back the whole-block prefix and ends in the same state |
| `Cipher.PadLength` | backend/crypto/cipher.py:160 | the padding length is between 1 and the block size |
| `Cipher.Pad` | backend/crypto/cipher.py:158-162 | `ZeroDivisionError` for block size 0; `ValueError` when the count exceeds 255; otherwise the data followed by k bytes of value k |
| `Cipher.PadAligns` | backend/crypto/cipher.py:158-162 | the padded length is the next multiple of the block size strictly above the input length |
| `Cipher.Unpad` | backend/crypto/cipher.py:164-167 | `IndexError` on empty data; otherwise drops as many bytes as the last byte says (nothing is left for 0 or a count above the length) |
| `Cipher.UnpadPad` | backend/crypto/cipher.py:158-167 | unpadding undoes every successful padding |
| `Cipher.EncryptBlock` | backend/crypto/cipher.py:119-136 | ciphertext byte j is `block[perm[j]] ^ keystream[j]` |
| `Cipher.DecryptBlockInverts` | backend/crypto/cipher.py:138-156 | with the same permutation and keystream, `_decrypt_block` undoes `_encrypt_block` |
| `Cipher.DrawBlockKey` | backend/crypto/cipher.py:123-130 | each block draws a permutation of the block's positions and a keystream block of its length |
| `Cipher.DecryptUndoesEncrypt` | backend/crypto/cipher.py:119-156 | under any one draw of the cipher's schedule, decrypting a block undoes encrypting it |
| `Cipher.DecryptStepUndoes` | backend/crypto/cipher.py:119-156 | this holds for every block and every state |
| `Cipher.EncryptOn` | backend/crypto/cipher.py:53-85 | fails exactly when padding fails, then leaving the state alone; otherwise the ciphertext has the padded length, a multiple of the block size |
| `Cipher.DecryptOn` | backend/crypto/cipher.py:87-117 | starts from the reset state; `IndexError` exactly when fewer bytes than one block remain to unpad; `ZeroDivisionError` for block size 0 |
| `Cipher.PaddedRoundTrip` | backend/crypto/cipher.py:69-117 | pad, the encrypt loop, the decrypt loop from the same state, and unpad give the plaintext back |
| `Cipher.RoundTrip` | backend/crypto/cipher.py:178-182 | what is encrypted from the initial state decrypts to the plaintext |
| `Cipher.DefaultSalt` | backend/crypto/cipher.py:42-44 | the default salt is 16 bytes, enough for the CKDF's check |
| `Cipher.ChaosCipher.constructor` | backend/crypto/cipher.py:46-51 | seed, salt, block size and CKDF stored |
| `Cipher.ChaosCipher.New` | backend/crypto/cipher.py:41-51 | the default salt when none is given; the CKDF's errors; otherwise a valid cipher at the CKDF's initial state |
| `Cipher.ChaosCipher.EncryptOneBlock` | backend/crypto/cipher.py:119-136 | `EncryptBlock` under the draw from the old state; the state becomes the draw's next state |
| `Cipher.ChaosCipher.DecryptOneBlock` | backend/crypto/cipher.py:138-156 | `DecryptBlock` under the same draw; the state advances the same way |
| `Cipher.ChaosCipher.Encrypt` | backend/crypto/cipher.py:53-85 | result and new state are `EncryptOn` of the old state (no reset) |
| `Cipher.ChaosCipher.EncryptBlocks` | backend/crypto/cipher.py:73-83 | the loop computes `Blocks` with the encrypting step |
| `Cipher.ChaosCipher.Decrypt` | backend/crypto/cipher.py:87-117 | result and new state are `DecryptOn`, which does not depend on the old state |
| `Cipher.ChaosCipher.DecryptBlocks` | backend/crypto/cipher.py:104-114 | the loop computes `Blocks` with the decrypting step |
| `Cipher.FreshRoundTrip` | backend/crypto/cipher.py:174-182 | a freshly built cipher decrypts what it has just encrypted, for block sizes 1 to 255 |
| `Tally.AddCounts` | backend/metrics/statistical_tests.py:240 | one `d[k] = d.get(k, 0) + 1` adds one to k's count and to the total, changes no other count, and appends k to the keys if it is new |
| `Tally.TalliedCounts` | backend/metrics/entropy.py:33 | `Counter(s)`: one key per distinct element, its count the number of occurrences, counts summing to `len(s)` |
| `Tally.TalliedPositive` | backend/metrics/entropy.py:38-41 | every counted key has a positive count, so `p > 0` always holds |
| `Tally.TalliedKeysWithin` | backend/metrics/statistical_tests.py:133 | a counter of values from an m-element set has at most m keys |
| `Avalanche.ByteBits` | backend/metrics/avalanche.py:131-133 | the eight bits of a byte, least significant first |
| `Avalanche.LsbBitsAt` | backend/metrics/avalanche.py:125-134 | `bytes_to_bits` has 8 entries per byte; entry 8k + i is bit i of byte k |
| `Avalanche.BytesToBits` | backend/metrics/avalanche.py:125-134 | the nested loop builds exactly that bit list |
| `Avalanche.ByteMismatches` | backend/metrics/avalanche.py:160-163 | the set bits of `b1 ^ b2` are the positions where the two bytes' bits differ |
| `Avalanche.PopcountZero` | backend/metrics/avalanche.py:162-163 | a byte has no set bits exactly when it is 0 |
| `Avalanche.PopcountMask` | backend/metrics/avalanche.py:149 | the mask `1 << bit_pos` has exactly one set bit |
| `Avalanche.FlipRandomBit` | backend/metrics/avalanche.py:137-151 | `randint(0, 0)` raises "high <= low" on empty data; otherwise exactly the chosen bit of the chosen byte flips and no other byte changes |
| `Avalanche.FlipTwice` | backend/metrics/avalanche.py:149 | flipping the same bit twice restores the data |
| `Avalanche.HammingDistance` | backend/metrics/avalanche.py:154-165 | `ValueError` exactly when the lengths differ; otherwise the sum of the per-byte popcounts of the XOR |
| `Avalanche.HammingCountsBits` | backend/metrics/avalanche.py:154-165 | the Hamming distance equals the number of differing entries of the two `bytes_to_bits` lists |
| `Avalanche.HammingSymmetric` | backend/metrics/avalanche.py:154-165 | the distance is symmetric |
| `Avalanche.HammingZero` | backend/metrics/avalanche.py:154-165 | the distance is 0 exactly when the sequences are equal |
| `Avalanche.HammingBound` | backend/metrics/avalanche.py:154-165 | the distance is at most 8 bits per byte |
| `Avalanche.HammingOneByte` | backend/metrics/avalanche.py:154-165 | sequences differing in one byte are the popcount of that byte's XOR apart |
| `Avalanche.FlipDistance` | backend/metrics/avalanche.py:137-151 | a flipped copy is at Hamming distance exactly 1 from the original |
| `Avalanche.ZipMismatches` | backend/metrics/avalanche.py:56 | the `zip` comparison counts at most the shorter list's length |
| `Avalanche.Min` | backend/metrics/avalanche.py:65 | `np.min`: an element of the list, no larger than any |
| `Avalanche.Max` | backend/metrics/avalanche.py:66 | `np.max`: an element of the list, no smaller than any |
| `Avalanche.MeanBounds` | backend/metrics/avalanche.py:63 | the mean of values within [lo, hi] is within [lo, hi] |
| `Avalanche.Percentage` | backend/metrics/avalanche.py:60 | a flip percentage lies in [0, 100] |
| `Avalanche.FlipCount` | backend/metrics/avalanche.py:49-56 | a trial's flip count is at most the original ciphertext's bit count |
| `Avalanche.AvalancheTest` | backend/metrics/avalanche.py:14-70 | the errors for no trials, an empty plaintext and an empty ciphertext; otherwise one count per trial, each the bits its flip changed, min and max among them and within [0, total bits], and the mean of the per-trial percentages `flipped / total * 100`, which lies in [0, 100] |
| `Avalanche.TweakSeed` | backend/metrics/avalanche.py:103 | `IndexError` for an empty seed; otherwise only the last character changes, to `(ord(c) + i + 1) % 128` |
| `Avalanche.TweakChanges` | backend/metrics/avalanche.py:103 | the tweaked seed equals the seed exactly when i + 1 ≡ 0 (mod 128) and the last character is ASCII |
| `Avalanche.TweaksDistinct` | backend/metrics/avalanche.py:99-103 | any 128 consecutive trials use pairwise different seeds |
| `Avalanche.FlipPercentage` | backend/metrics/avalanche.py:113-116 | a trial's percentage lies in [0, 100] |
| `Avalanche.SeedSensitivity` | backend/metrics/avalanche.py:73-122 | `IndexError` for an empty seed and `ZeroDivisionError` for an empty ciphertext (when a trial runs); otherwise one percentage per trial, trial i encrypting under the i-th tweaked seed |
| `StatisticalTests.OnesAndZeros` | backend/metrics/statistical_tests.py:44-47 | ones plus zeros is the length, so `2 * ones - n` is ones minus zeros |
| `StatisticalTests.FrequencyTest` | backend/metrics/statistical_tests.py:17-61 | `ZeroDivisionError` exactly for no bits; otherwise `s_obs * sqrt(n) = |2 ones - n|`, `p = erfc(s_obs / sqrt 2)`, passed exactly when p ≥ alpha |
| `StatisticalTests.RunsBounds` | backend/metrics/statistical_tests.py:88-92 | a non-empty list has between 1 and n runs |
| `StatisticalTests.OneRun` | backend/metrics/statistical_tests.py:88-92 | exactly one run means a constant list |
| `StatisticalTests.AllRuns` | backend/metrics/statistical_tests.py:88-92 | n runs means every bit differs from its predecessor |
| `StatisticalTests.RunsTest` | backend/metrics/statistical_tests.py:64-112 | `ZeroDivisionError` exactly for no bits; a failed pre-test gives the fixed failing verdict; otherwise the statistic from the counted runs, `p = erfc(V / sqrt 2)`, passed exactly when p ≥ alpha |
| `StatisticalTests.ByteValues` | backend/metrics/statistical_tests.py:140 | `range(256)` in order |
| `StatisticalTests.ObservedIsOccurrences` | backend/metrics/statistical_tests.py:140-141 | `counts.get(i, 0)` summed over 0 .. m-1 is the number of elements below m |
| `StatisticalTests.ObservedSumsToLength` | backend/metrics/statistical_tests.py:133-142 | the observed counts over 0 .. 255 add up to the number of bytes |
| `StatisticalTests.ChiTermSign` | backend/metrics/statistical_tests.py:142 | each chi-square term is non-negative, and 0 exactly when observed equals expected |
| `StatisticalTests.ChiSquareTest` | backend/metrics/statistical_tests.py:115-156 | `ZeroDivisionError` exactly for no bytes; otherwise the statistic over the 256 values against `n / 256`, `p = 1 - chi2.cdf(x, 255)`, passed exactly when p ≥ alpha |
| `StatisticalTests.LagCount` | backend/metrics/statistical_tests.py:184 | the number of lags is 0 exactly when `max_lag < 1` or `n // 2 ≤ 1`, and at most both bounds |
| `StatisticalTests.PyMax` | backend/metrics/statistical_tests.py:191 | built-in `max` over floats that may be nan: the result is one of the elements |
| `StatisticalTests.PyMaxFirst` | backend/metrics/statistical_tests.py:191 | `max` is nan exactly when the first element is, since nothing compares greater than nan; otherwise it is no smaller than any number listed |
| `StatisticalTests.AbsCorrelations` | backend/metrics/statistical_tests.py:186-188 | one entry per lag, entry j being `abs(corr)` at lag j + 1 |
| `StatisticalTests.MaxAutocorrelationSpec` | backend/metrics/statistical_tests.py:184-191 | the statistic is 0 with no lags; nan exactly when the lag-1 correlation is nan; otherwise non-negative, no smaller than any numeric absolute correlation, and equal to one of them |
| `StatisticalTests.AutocorrelationVerdict` | backend/metrics/statistical_tests.py:191-205 | passed exactly when the statistic is a number below `2 / sqrt(n)`; `p = 1 - statistic` below 1, else 0, and 0 for nan |
| `StatisticalTests.ConstantSequenceFails` | backend/metrics/statistical_tests.py:180-202 | a constant sequence of at least 4 bytes with `max_lag ≥ 1` gets a nan statistic, fails, and has p-value 0 |
| `StatisticalTests.AutocorrelationTest` | backend/metrics/statistical_tests.py:159-205 | `ZeroDivisionError` exactly for an empty sequence; otherwise the lag loop and `max` give exactly `AutocorrelationVerdict` |
| `StatisticalTests.Windows` | backend/metrics/statistical_tests.py:238-239 | the `n - m + 1` windows, window i being `bits[i:i+m]` |
| `StatisticalTests.PatternsCard` | backend/metrics/statistical_tests.py:236-240 | there are at most 2^m bit patterns of length m |
| `StatisticalTests.PatternListed` | backend/metrics/statistical_tests.py:239 | every window is one of those patterns |
| `StatisticalTests.PatternCounts` | backend/metrics/statistical_tests.py:237-243 | the pattern counts add up to `n - m + 1`, there are at most 2^m patterns, and each count is the number of windows equal to it |
| `StatisticalTests.PatternTable` | backend/metrics/statistical_tests.py:237-240 | the counting loop builds exactly the counter of the windows |
| `StatisticalTests.ChiSum` | backend/metrics/statistical_tests.py:246-248 | the loop over the counts computes the chi-square sum |
| `StatisticalTests.ChiOverZero` | backend/metrics/statistical_tests.py:245-248 | the chi-square sum is non-negative, and 0 exactly when every count equals the expected one |
| `StatisticalTests.Decimal` | backend/metrics/statistical_tests.py:229 | `str(m)` has at least one digit |
| `StatisticalTests.SerialTest` | backend/metrics/statistical_tests.py:208-262 | fewer than m bits give the "Sequence too short" verdict; otherwise a non-negative statistic over the window counts against `(n - m + 1) / 2**m`, `p = 1 - chi2.cdf(x, 2**m - 1)`, passed exactly when p ≥ alpha |
| `StatisticalTests.ByteBitsMsb` | backend/metrics/statistical_tests.py:287 | `np.unpackbits` of one byte: its bits, most significant first |
| `StatisticalTests.MsbBitsAt` | backend/metrics/statistical_tests.py:287 | the suite's bit list has 8 entries per byte, each byte's bits in the reverse order of `bytes_to_bits` |
| `StatisticalTests.PassedCount` | backend/metrics/statistical_tests.py:300 | at most the number of verdicts pass |
| `StatisticalTests.Summarise` | backend/metrics/statistical_tests.py:300-309 | passed plus failed is the total; the pass rate lies in [0, 100] |
| `StatisticalTests.PassRateExtremes` | backend/metrics/statistical_tests.py:300-302 | the pass rate is 100 exactly when every test passed, 0 exactly when none did |
| `StatisticalTests.StatisticalTestSuite` | backend/metrics/statistical_tests.py:265-330 | `ZeroDivisionError` exactly for no bytes; otherwise six verdicts: the frequency verdict on the MSB-first bits, the byte chi-square statistic with its p-value and pass rule, the whole autocorrelation verdict at `max_lag = 100`, and their summary |
| `Entropy.HistogramLoop` | backend/metrics/entropy.py:37-43 | the loop over the counter subtracts `p log2 p` for each key in order |
| `Entropy.ShannonEntropy` | backend/metrics/entropy.py:13-43 | 0 for the empty sequence; otherwise the entropy of its counter (`shannon_entropy_bytes` on bytes) |
| `Entropy.EntropyNonNegative` | backend/metrics/entropy.py:13-43 | the entropy is never negative when `log2` is at most 0 on (0, 1] |
| `Entropy.ConstantEntropy` | backend/metrics/entropy.py:146-150 | a constant sequence has entropy 0 |
| `Entropy.TwoSymbolEntropy` | backend/metrics/entropy.py:140-144 | two symbols occurring equally often give entropy 1 |
| `Entropy.Block` | backend/metrics/entropy.py:84 | block i has `block_size` bytes, those from `i * block_size` on |
| `Entropy.EntropyPerBlock` | backend/metrics/entropy.py:69-87 | `ZeroDivisionError` for block size 0; `[]` for a negative size; otherwise `len // size` entries, the i-th the entropy of block i, the trailing partial block unmeasured |
| `Entropy.GroupedCounters` | backend/metrics/entropy.py:100-108 | the contexts appear in first-seen order, and each context's counter counts the symbols that follow it |
| `Entropy.ContextCount` | backend/metrics/entropy.py:115 | a context's total is the number of times it occurs |
| `Entropy.ContextsTotalIsLength` | backend/metrics/entropy.py:111 | `total_count` is the number of (context, symbol) pairs, `len - order` |
| `Entropy.ListedContextPositive` | backend/metrics/entropy.py:115-121 | every listed context has a positive total, so `p_symbol_given_context` never divides by zero |
| `Entropy.Pairs` | backend/metrics/entropy.py:102-104 | pair j is `(sequence[j:j+order], sequence[j+order])` |
| `Entropy.ContextTable` | backend/metrics/entropy.py:100-108 | the loop builds exactly the grouped counters of the pairs |
| `Entropy.ConditionalEntropy` | backend/metrics/entropy.py:90-127 | 0 when `len ≤ order`; otherwise the context-weighted sum of the per-context entropies |
| `Entropy.ConditionalCounts` | backend/metrics/entropy.py:114-117 | a context's weight `context_count` is the number of times it occurs |

## Left out

- Float arithmetic: `real` stands for `float64`, without rounding. nan is modelled only in the autocorrelation test, where a constant sequence produces it. The Hénon recurrence is modelled exactly.
- Float code as parameters: the Logistic, Sine and Lorenz steps (RK4), the quantisers (`floor(255 * x)`, the Hénon and Lorenz min-max normalisation with its `1e-10`) and layer 1 of the mixer (`w_i = weight * b_i % 256`) are parameters. Only their output lengths are constrained.
- Library numerics as parameters: `math.sqrt`, `math.erfc`, `math.log2`, `stats.chi2.cdf`, and `np.corrcoef` of the normalised sequence. Facts the proofs need about them are preconditions of the lemmas.
- Cryptographic primitives as parameters: HMAC-SHA512, SHA-256 and HKDF-SHA256, each with its output length. HKDF errors other than the length limit are not modelled.
- Randomness: `np.random.randint` positions in `avalanche_test` and `flip_random_bit` are inputs.
- Strings at the boundary: seeds and plaintexts are bytes. UTF-8 encoding of `str` inputs is not modelled, nor is `str(seed).encode()` in the default salt.
- The byte-seed branch of `avalanche_test_seed_sensitivity` is not modelled.
- SeedSensitivity: returns the per-trial percentages, not their `np.mean`/`np.std`. With no trials it returns the empty list where Python yields `nan` and a warning.
- AvalancheTest: the `std_flip_percentage` entry is not modelled.
- Formatted `description` strings, `print` output and the warnings for parameters outside the chaotic ranges are not modelled.
- ChaosSources.ChaosSource.Reset: models only `reset()` without arguments, the only form the hybrid map uses. `reset(x0, ...)` of the Logistic, Sine and Lorenz maps is not modelled.
- `LogisticMap.generate_sequence` and the numba-parallel keystream helpers, which the core never calls, are not modelled.
- Entropy.ConditionalEntropy: `order` is a natural number. A negative `order` is not modelled.
- StatisticalTests.StatisticalTestSuite: its contract states the frequency and autocorrelation verdicts, the chi-square statistic, p-value and pass rule, and the summary. It does not restate the runs and serial verdicts, which `RunsTest` and `SerialTest` state.
- Cipher.Pad, Cipher.EncryptOn, Cipher.DecryptOn: the block size is a natural number. A negative `block_size`, for which Python pads nothing and `encrypt` returns `b''` (`crypto/cipher.py:73-75`, `160-161`), is not modelled; the default block size is 16.
- The Lyapunov estimator (`metrics/lyapunov.py`), the HTTP server (`api/server.py`) and the package `__init__` files are not part of this model.
