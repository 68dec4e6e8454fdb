/** The hybrid chaotic map: four component maps (Logistic, Henon, Lorenz, Sine)
    advanced together, whose byte outputs are mixed into one keystream, plus
    the Henon permutation source, reset, and the Lorenz attractor snapshot. */
module Hybrid {
  import opened Base
  import opened Permutations
  import opened ChaosSources
  import Henon

  /** The mixing coefficients (alpha, beta, gamma, delta). */
  datatype Mixing = Mixing(alpha: real, beta: real, gamma: real, delta: real)

  function Total(m: Mixing): real
  {
    m.alpha + m.beta + m.gamma + m.delta
  }

  const DefaultMixing := Mixing(0.25, 0.25, 0.25, 0.25)

  /** The constructor divides each coefficient by their sum; a zero sum raises
      ZeroDivisionError. */
  function Normalise(m: Mixing): (r: Result<Mixing>)
    ensures r.Err? <==> Total(m) == 0.0
    ensures r.Err? ==> r.error == ZeroDivisionError
    ensures r.Ok? ==> Total(r.value) == 1.0
    ensures r.Ok? ==> (r.value.alpha * Total(m) == m.alpha && r.value.beta * Total(m) == m.beta
                       && r.value.gamma * Total(m) == m.gamma && r.value.delta * Total(m) == m.delta)
  {
    var total := Total(m);
    if total == 0.0 then Err(ZeroDivisionError)
    else
      var w := Mixing(m.alpha / total, m.beta / total, m.gamma / total, m.delta / total);
      DivSum(m.alpha, m.beta, m.gamma, m.delta, total);
      DivSelf(total);
      Ok(w)
  }

  lemma DivSum(a: real, b: real, c: real, d: real, t: real)
    requires t != 0.0
    ensures a / t + b / t + c / t + d / t == (a + b + c + d) / t
  {
  }

  lemma DivSelf(t: real)
    requires t != 0.0
    ensures t / t == 1.0
  {
  }

  /** Normalising weights that already sum to one changes nothing. */
  lemma NormaliseIdempotent(m: Mixing)
    requires Total(m) == 1.0
    ensures Normalise(m) == Ok(m)
  {
  }

  /** `np.roll(x, k)`: a cyclic shift of POSITIONS by k (the bits of each byte
      are untouched); entry i of the result is `x[(i - k) mod n]`. */
  function Roll(x: seq<byte>, k: int): (r: seq<byte>)
    ensures |r| == |x|
    ensures forall i {:trigger r[i]} :: 0 <= i < |x| ==> r[i] == x[Wrap(i - k, |x|)]
  {
    if |x| == 0 then []
    else seq(|x|, i requires 0 <= i < |x| => x[Wrap(i - k, |x|)])
  }

  /** Rolling by j and then by k is rolling by j + k. */
  lemma RollRoll(x: seq<byte>, j: int, k: int)
    ensures Roll(Roll(x, j), k) == Roll(x, j + k)
  {
    var once, twice, direct := Roll(x, j), Roll(Roll(x, j), k), Roll(x, j + k);
    forall i | 0 <= i < |x| ensures twice[i] == direct[i] {
      WrapShift(i - k, j, |x|);
      assert i - k - j == i - (j + k);
    }
    assert twice == direct;
  }

  /** Rolling by zero changes nothing. */
  lemma RollZero(x: seq<byte>)
    ensures Roll(x, 0) == x
  {
    forall i | 0 <= i < |x| ensures Roll(x, 0)[i] == x[i] {
      ModUnique(i, |x|, 0, i);
    }
  }

  /** Rolling back undoes a roll. */
  lemma RollInverse(x: seq<byte>, k: int)
    ensures Roll(Roll(x, k), -k) == x
  {
    forall i | 0 <= i < |x| ensures Roll(Roll(x, k), -k)[i] == x[i] {
      WrapShift(i + k, k, |x|);
      ModUnique(i, |x|, 0, i);
      assert i + k - k == i;
    }
  }

  /** Layer 1 of `_mix_bytes`: the float-weighted sum `mixed_add` of the four
      byte streams under the mixing coefficients; n bytes in, n bytes out. */
  type LayerOne = f: (Mixing, seq<byte>, seq<byte>, seq<byte>, seq<byte>) -> seq<byte> |
    forall w, b1, b2, b3, b4 {:trigger f(w, b1, b2, b3, b4)} :: |b2| == |b1| && |b3| == |b1| && |b4| == |b1| ==> |f(w, b1, b2, b3, b4)| == |b1|
    witness FirstStream

  function FirstStream(w: Mixing, b1: seq<byte>, b2: seq<byte>, b3: seq<byte>, b4: seq<byte>): seq<byte>
  {
    b1
  }

  /** Layer 2 of `_mix_bytes`: `xor1 ^ xor2 ^ roll(xor1, 3) ^ roll(xor2, 5)`
      with `xor1 = b1 ^ b2` and `xor2 = b3 ^ b4`. */
  function MixedXor(b1: seq<byte>, b2: seq<byte>, b3: seq<byte>, b4: seq<byte>): (r: seq<byte>)
    requires |b2| == |b1| && |b3| == |b1| && |b4| == |b1|
    ensures |r| == |b1|
  {
    var xor1 := Xor(b1, b2);
    var xor2 := Xor(b3, b4);
    Xor(Xor(Xor(xor1, xor2), Roll(xor1, 3)), Roll(xor2, 5))
  }

  /** Byte i of layer 2 in closed form: it combines positions i, i-3 and i-5
      (mod n) of the four streams. */
  lemma MixedXorAt(b1: seq<byte>, b2: seq<byte>, b3: seq<byte>, b4: seq<byte>, i: int)
    requires |b2| == |b1| && |b3| == |b1| && |b4| == |b1|
    requires 0 <= i < |b1|
    ensures MixedXor(b1, b2, b3, b4)[i]
            == b1[i] ^ b2[i] ^ b3[i] ^ b4[i]
               ^ b1[Wrap(i - 3, |b1|)] ^ b2[Wrap(i - 3, |b1|)]
               ^ b3[Wrap(i - 5, |b1|)] ^ b4[Wrap(i - 5, |b1|)]
  {
    var xor1 := Xor(b1, b2);
    var xor2 := Xor(b3, b4);
    assert Roll(xor1, 3)[i] == b1[Wrap(i - 3, |b1|)] ^ b2[Wrap(i - 3, |b1|)];
    assert Roll(xor2, 5)[i] == b3[Wrap(i - 5, |b1|)] ^ b4[Wrap(i - 5, |b1|)];
  }

  /** Layer 3's sum modulo 256, byte by byte: the addition of `bv8` wraps. */
  function AddBytes(a: seq<byte>, b: seq<byte>): (r: seq<byte>)
    requires |a| == |b|
    ensures |r| == |a|
    ensures forall i {:trigger r[i]} :: 0 <= i < |a| ==> r[i] == a[i] + b[i]
  {
    seq(|a|, i requires 0 <= i < |a| => a[i] + b[i])
  }

  /** Layers 3 and 4 of `_mix_bytes`, given the layer-1 bytes `add`. Layer 3
      widens to `int16`, adds and keeps the sum modulo 256: the wrap-around
      addition of two `bv8` values. Layer 4 XORs in `roll(b1, 1)` and
      `roll(b2, 2)`. */
  function MixBytes(add: seq<byte>, b1: seq<byte>, b2: seq<byte>, b3: seq<byte>, b4: seq<byte>): (r: seq<byte>)
    requires |add| == |b1| && |b2| == |b1| && |b3| == |b1| && |b4| == |b1|
    ensures |r| == |b1|
  {
    var intermediate := AddBytes(add, MixedXor(b1, b2, b3, b4));
    Xor(Xor(intermediate, Roll(b1, 1)), Roll(b2, 2))
  }

  /** Output byte i of the mixer in closed form:
      `(add[i] + mx[i] mod 256) ^ b1[i-1] ^ b2[i-2]`, indices mod n, where
      `mx` is layer 2, itself in closed form in `MixedXorAt`. */
  lemma MixBytesAt(add: seq<byte>, b1: seq<byte>, b2: seq<byte>, b3: seq<byte>, b4: seq<byte>, i: int)
    requires |add| == |b1| && |b2| == |b1| && |b3| == |b1| && |b4| == |b1|
    requires 0 <= i < |b1|
    ensures MixBytes(add, b1, b2, b3, b4)[i]
            == (add[i] + MixedXor(b1, b2, b3, b4)[i]) ^ b1[Wrap(i - 1, |b1|)] ^ b2[Wrap(i - 2, |b1|)]
  {
    var sum := AddBytes(add, MixedXor(b1, b2, b3, b4));
    var first := Xor(sum, Roll(b1, 1));
    assert MixBytes(add, b1, b2, b3, b4) == Xor(first, Roll(b2, 2));
  }

  /** The map parameters of the `params` dictionary. */
  datatype MapParams = MapParams(
    logisticR: real,
    henonA: real, henonB: real,
    lorenzSigma: real, lorenzRho: real, lorenzBeta: real,
    sineMu: real)

  const DefaultParams := MapParams(3.99, 1.4, 0.3, 10.0, 28.0, 8.0 / 3.0, 0.99)

  /** The `initial_conditions` dictionary. */
  datatype InitialConditions = InitialConditions(
    logisticX0: real,
    henonX0: real, henonY0: real,
    lorenzX0: real, lorenzY0: real, lorenzZ0: real,
    sineX0: real)

  const DefaultInitialConditions := InitialConditions(0.5, 0.1, 0.1, 1.0, 1.0, 1.0, 0.5)

  /** The float code the model leaves uninterpreted: the Logistic, Lorenz and
      Sine dynamics for given parameters, the Henon quantiser and layer 1 of the
      mixer. */
  datatype Kernels = Kernels(
    logistic: real -> Dynamics,
    lorenz: (real, real, real) -> Dynamics,
    sine: real -> Dynamics,
    henonQuantise: Henon.Quantiser,
    layerOne: LayerOne)

  /** The LogisticMap and SineMap constructors reject an initial condition
      outside (0, 1). */
  predicate AcceptedStart(ic: InitialConditions)
  {
    0.0 < ic.logisticX0 < 1.0 && 0.0 < ic.sineX0 < 1.0
  }

  /** The states of the four component maps. */
  datatype HybridState = HybridState(logistic: Point, henon: Henon.State, lorenz: Point, sine: Point)

  function StartState(ic: InitialConditions): HybridState
  {
    HybridState([ic.logisticX0], Henon.State(ic.henonX0, ic.henonY0),
                [ic.lorenzX0, ic.lorenzY0, ic.lorenzZ0], [ic.sineX0])
  }

  /** What a hybrid map is built from and never changes. */
  datatype HybridConfig = HybridConfig(
    logistic: Dynamics,
    henonA: real, henonB: real, henonQuantise: Henon.Quantiser,
    lorenz: Dynamics,
    sine: Dynamics,
    weights: Mixing,
    layerOne: LayerOne,
    initial: HybridState)

  /** `iterate(n)` on state `s`: every component map n steps further. */
  function IterateAll(c: HybridConfig, s: HybridState, n: nat): HybridState
  {
    HybridState(Iterated(c.logistic.step, s.logistic, n),
                Henon.Orbit(c.henonA, c.henonB, s.henon, n),
                Iterated(c.lorenz.step, s.lorenz, n),
                Iterated(c.sine.step, s.sine, n))
  }

  /** `generate_keystream(n, burn_in)` on state `s`: burn-in, n bytes from each
      map, mixed. n = 0 raises in the Logistic `to_bytes`, after the burn-in. */
  function Keystream(c: HybridConfig, s: HybridState, n: nat, burnIn: nat): (r: (Result<seq<byte>>, HybridState))
    ensures r.0.Err? <==> n == 0
    ensures r.0.Err? ==> r.0.error == IndexError && r.1 == IterateAll(c, s, burnIn)
    ensures r.0.Ok? ==> |r.0.value| == n
  {
    var s1 := IterateAll(c, s, burnIn);
    if n == 0 then (Err(IndexError), s1)
    else
      var (lb, l2) := EmitBytes(c.logistic, s1.logistic, n);
      var (hb, h2) := Henon.EmitBytes(c.henonQuantise, c.henonA, c.henonB, s1.henon, n);
      var (rb, r2) := EmitBytes(c.lorenz, s1.lorenz, n);
      var (sb, s2) := EmitBytes(c.sine, s1.sine, n);
      var b1, b2, b3, b4 := lb.value, hb.value, rb.value, sb.value;
      (Ok(MixBytes(c.layerOne(c.weights, b1, b2, b3, b4), b1, b2, b3, b4)), HybridState(l2, h2, r2, s2))
  }

  /** A keystream call moves every map burn_in + n steps on: the burn-in, then
      one step per byte drawn. */
  lemma KeystreamAdvances(c: HybridConfig, s: HybridState, n: nat, burnIn: nat)
    requires n > 0
    ensures Keystream(c, s, n, burnIn).1 == IterateAll(c, s, burnIn + n)
  {
    var s1 := IterateAll(c, s, burnIn);
    IteratedAdditive(c.logistic.step, s.logistic, burnIn, n);
    Henon.OrbitAdditive(c.henonA, c.henonB, s.henon, burnIn, n);
    IteratedAdditive(c.lorenz.step, s.lorenz, burnIn, n);
    IteratedAdditive(c.sine.step, s.sine, burnIn, n);
  }

  /** `generate_permutation(n)` on state `s`: exactly the Henon permutation;
      only the Henon map moves. */
  function Permutation(c: HybridConfig, s: HybridState, n: nat): (r: (Result<seq<int>>, HybridState))
    ensures r.0.Err? <==> n == 0
    ensures r.0.Ok? ==> |r.0.value| == n && IsPermutation(r.0.value) && InRange(r.0.value, n)
    ensures r.1.logistic == s.logistic && r.1.lorenz == s.lorenz && r.1.sine == s.sine
  {
    var (p, h) := Henon.PermutationIndices(c.henonA, c.henonB, s.henon, n);
    (p, s.(henon := h))
  }

  /** A kernel's dynamics with the exception its map class raises on `to_bytes(0)`. */
  function OfKind(d: Dynamics, kind: MapKind): Dynamics
  {
    d.(emptyError := EmptyTrajectoryError(kind))
  }

  /** The configuration a map built from these arguments has: Logistic and Sine
      raise `IndexError` on an empty draw, Lorenz a `ValueError`. */
  function BuildConfig(p: MapParams, w: Mixing, ic: InitialConditions, k: Kernels): (c: HybridConfig)
    ensures c.initial == StartState(ic) && c.weights == w
    ensures c.logistic.emptyError == IndexError && c.sine.emptyError == IndexError
    ensures c.lorenz.emptyError == ValueError(EmptyMinimum)
  {
    HybridConfig(OfKind(k.logistic(p.logisticR), Logistic), p.henonA, p.henonB, k.henonQuantise,
                 OfKind(k.lorenz(p.lorenzSigma, p.lorenzRho, p.lorenzBeta), Lorenz),
                 OfKind(k.sine(p.sineMu), Sine),
                 w, k.layerOne, StartState(ic))
  }

  function ParamsOr(params: Option<MapParams>): MapParams
  {
    if params.Some? then params.value else DefaultParams
  }

  function MixingOr(mixing: Option<Mixing>): Mixing
  {
    if mixing.Some? then mixing.value else DefaultMixing
  }

  function InitialConditionsOr(ic: Option<InitialConditions>): InitialConditions
  {
    if ic.Some? then ic.value else DefaultInitialConditions
  }

  class HybridChaoticMap {
    const params: MapParams
    const weights: Mixing
    const initialConditions: InitialConditions
    const layerOne: LayerOne
    const logistic: ChaosSource
    const henon: Henon.HenonMap
    const lorenz: ChaosSource
    const sine: ChaosSource

    /** The component maps are three distinct objects (and the Henon map), each
        built from the stored initial conditions. */
    ghost predicate Valid()
    {
      && logistic != lorenz && logistic != sine && lorenz != sine
      && logistic.dynamics.emptyError == IndexError && sine.dynamics.emptyError == IndexError
      && lorenz.dynamics.emptyError == ValueError(EmptyMinimum)
      && StartState(initialConditions)
         == HybridState(logistic.initialState, henon.initialState, lorenz.initialState, sine.initialState)
    }

    ghost function Config(): HybridConfig
    {
      HybridConfig(logistic.dynamics, henon.a, henon.b, henon.quantise,
                   lorenz.dynamics, sine.dynamics, weights, layerOne,
                   StartState(initialConditions))
    }

    /** The objects whose fields the map's operations change. */
    ghost function Components(): set<object>
    {
      {logistic, henon, lorenz, sine}
    }

    function State(): HybridState
      reads logistic, henon, lorenz, sine
    {
      HybridState(logistic.state, henon.Current(), lorenz.state, sine.state)
    }

    constructor (params: MapParams, weights: Mixing, ic: InitialConditions, k: Kernels)
      ensures Valid()
      ensures this.params == params && this.weights == weights && initialConditions == ic
      ensures Config() == BuildConfig(params, weights, ic, k)
      ensures State() == StartState(ic)
      ensures fresh(Components())
    {
      this.params := params;
      this.weights := weights;
      initialConditions := ic;
      layerOne := k.layerOne;
      logistic := new ChaosSource(OfKind(k.logistic(params.logisticR), Logistic), [ic.logisticX0]);
      henon := new Henon.HenonMap(params.henonA, params.henonB, ic.henonX0, ic.henonY0, k.henonQuantise);
      lorenz := new ChaosSource(OfKind(k.lorenz(params.lorenzSigma, params.lorenzRho, params.lorenzBeta), Lorenz),
                                [ic.lorenzX0, ic.lorenzY0, ic.lorenzZ0]);
      sine := new ChaosSource(OfKind(k.sine(params.sineMu), Sine), [ic.sineX0]);
    }

    /** `HybridChaoticMap(params, mixing, initial_conditions)` with Python's
        defaults for the omitted arguments; it raises when the coefficients sum
        to zero or a Logistic or Sine start lies outside (0, 1). */
    static method New(params: Option<MapParams>, mixing: Option<Mixing>,
                      ic: Option<InitialConditions>, k: Kernels)
      returns (r: Result<HybridChaoticMap>)
      ensures var m := MixingOr(mixing);
              var i := InitialConditionsOr(ic);
              && (r.Err? <==> Normalise(m).Err? || !AcceptedStart(i))
              && (Normalise(m).Err? ==> r == Err(ZeroDivisionError))
              && (Normalise(m).Ok? && !AcceptedStart(i) ==>
                    r == Err(ValueError("Initial condition x0 must be in (0, 1)")))
              && (r.Ok? ==> fresh(r.value) && fresh(r.value.Components()) && r.value.Valid()
                            && r.value.params == ParamsOr(params) && r.value.weights == Normalise(m).value
                            && r.value.initialConditions == i
                            && r.value.Config() == BuildConfig(ParamsOr(params), Normalise(m).value, i, k)
                            && r.value.State() == StartState(i))
    {
      var p := ParamsOr(params);
      var m := MixingOr(mixing);
      var weights := Normalise(m);
      if weights.Err? {
        return Err(weights.error);
      }
      var i := InitialConditionsOr(ic);
      if !AcceptedStart(i) {
        return Err(ValueError("Initial condition x0 must be in (0, 1)"));
      }
      var h := new HybridChaoticMap(p, weights.value, i, k);
      r := Ok(h);
    }

    /** `iterate(n)`: all four maps step together n times; returns the new
        hybrid state (`get_hybrid_state`). */
    method Iterate(n: nat) returns (s: HybridState)
      requires Valid()
      modifies Components()
      ensures State() == IterateAll(Config(), old(State()), n)
      ensures s == State()
    {
      var i := 0;
      while i < n
        invariant 0 <= i <= n
        invariant State() == IterateAll(Config(), old(State()), i)
      {
        var _ := logistic.Iterate(1);
        var _ := henon.Iterate(1);
        var _ := lorenz.Iterate(1);
        var _ := sine.Iterate(1);
        i := i + 1;
      }
      s := State();
    }

    /** `generate_keystream(n_bytes, burn_in)`. */
    method GenerateKeystream(n: nat, burnIn: nat) returns (r: Result<seq<byte>>)
      requires Valid()
      modifies Components()
      ensures (r, State()) == Keystream(Config(), old(State()), n, burnIn)
    {
      var _ := Iterate(burnIn);
      var logBytes := logistic.ToBytes(n);
      if logBytes.Err? {
        return Err(logBytes.error);
      }
      var henBytes := henon.ToBytes(n);
      var lorBytes := lorenz.ToBytes(n);
      var sineBytes := sine.ToBytes(n);
      assert henBytes.Ok? && lorBytes.Ok? && sineBytes.Ok?;
      var b1, b2, b3, b4 := logBytes.value, henBytes.value, lorBytes.value, sineBytes.value;
      r := Ok(MixBytes(layerOne(weights, b1, b2, b3, b4), b1, b2, b3, b4));
    }

    /** `generate_permutation(n)`. */
    method GeneratePermutation(n: nat) returns (r: Result<seq<int>>)
      requires Valid()
      modifies henon
      ensures (r, State()) == Permutation(Config(), old(State()), n)
    {
      r := henon.GeneratePermutationIndices(n);
    }

    /** `reset()`: every component map back at its initial condition. */
    method Reset()
      requires Valid()
      modifies Components()
      ensures State() == Config().initial
    {
      logistic.Reset();
      henon.Reset(None, None);
      lorenz.Reset();
      sine.Reset();
    }

    /** `get_attractor_data(n_points)`: n Lorenz points; the Lorenz state is
        saved and restored, so no map moves. */
    method GetAttractorData(nPoints: nat) returns (t: seq<Point>)
      requires Valid()
      modifies lorenz
      ensures t == Trajectory(lorenz.dynamics.step, old(lorenz.state), nPoints)
      ensures State() == old(State())
    {
      var current := lorenz.state;
      t := lorenz.GenerateTrajectory(nPoints);
      lorenz.state := current;
    }
  }

  /** Resetting a used map makes its next keystream repeat a fresh instance's
      first keystream. */
  method ResetRepeatsFreshOutput(params: MapParams, weights: Mixing, ic: InitialConditions, k: Kernels,
                                 n: nat, burnIn: nat, used: nat)
    returns (first: Result<seq<byte>>, again: Result<seq<byte>>)
    ensures first == again
    ensures first.Ok? <==> n > 0
  {
    var h := new HybridChaoticMap(params, weights, ic, k);
    first := h.GenerateKeystream(n, burnIn);
    var _ := h.GenerateKeystream(used, burnIn);
    var _ := h.GeneratePermutation(used);
    h.Reset();
    again := h.GenerateKeystream(n, burnIn);
  }
}
