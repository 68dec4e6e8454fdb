/** The Henon map x' = 1 - a x^2 + y, y' = b x, as a small state machine
    (iterate, trajectory, reset) and as the source of the cipher's block
    permutations. The arithmetic is exact (`real`) instead of float. */
module Henon {
  import opened Base
  import opened Permutations

  datatype State = State(x: real, y: real)

  /** One application of the recurrence, shared by `iterate` and the
      trajectory loop. */
  function Step(a: real, b: real, s: State): State
  {
    State(1.0 - a * s.x * s.x + s.y, b * s.x)
  }

  /** The state after n applications of the recurrence. */
  function Orbit(a: real, b: real, s: State, n: nat): State
  {
    if n == 0 then s else Step(a, b, Orbit(a, b, s, n - 1))
  }

  /** Applying the recurrence m times and then n times is applying it m + n times. */
  lemma {:induction false} OrbitAdditive(a: real, b: real, s: State, m: nat, n: nat)
    ensures Orbit(a, b, Orbit(a, b, s, m), n) == Orbit(a, b, s, m + n)
  {
    if n > 0 {
      OrbitAdditive(a, b, s, m, n - 1);
    }
  }

  /** Two trajectories drawn one after the other are one longer trajectory:
      what a call of length m + n would have produced. */
  lemma TrajectoryConcatenates(a: real, b: real, s: State, m: nat, n: nat)
    ensures TrajectoryX(a, b, s, m + n) == TrajectoryX(a, b, s, m) + TrajectoryX(a, b, Orbit(a, b, s, m), n)
    ensures TrajectoryY(a, b, s, m + n) == TrajectoryY(a, b, s, m) + TrajectoryY(a, b, Orbit(a, b, s, m), n)
  {
    var head := Orbit(a, b, s, m);
    var xs, ys := TrajectoryX(a, b, s, m + n), TrajectoryY(a, b, s, m + n);
    var xs1, xs2 := TrajectoryX(a, b, s, m), TrajectoryX(a, b, head, n);
    var ys1, ys2 := TrajectoryY(a, b, s, m), TrajectoryY(a, b, head, n);
    forall j | 0 <= j < m + n ensures xs[j] == (xs1 + xs2)[j] && ys[j] == (ys1 + ys2)[j] {
      if j >= m {
        OrbitAdditive(a, b, s, m, j - m + 1);
        assert m + (j - m + 1) == j + 1;
      }
    }
  }

  /** The x-values of the next n points after `s`. */
  function TrajectoryX(a: real, b: real, s: State, n: nat): (r: seq<real>)
    ensures |r| == n
    ensures forall i :: 0 <= i < n ==> r[i] == Orbit(a, b, s, i + 1).x
  {
    seq(n, i requires 0 <= i < n => Orbit(a, b, s, i + 1).x)
  }

  /** The y-values of the next n points after `s`. */
  function TrajectoryY(a: real, b: real, s: State, n: nat): (r: seq<real>)
    ensures |r| == n
    ensures forall i :: 0 <= i < n ==> r[i] == Orbit(a, b, s, i + 1).y
  {
    seq(n, i requires 0 <= i < n => Orbit(a, b, s, i + 1).y)
  }

  /** The float code of `to_bytes` after the trajectory: mixing |x| and |y|,
      min-max normalisation and `floor(255 * v)`; n points give n bytes. */
  type Quantiser = q: (seq<real>, seq<real>) -> seq<byte> | forall xs, ys {:trigger q(xs, ys)} :: |xs| == |ys| ==> |q(xs, ys)| == |xs|
    witness ZeroBytes

  function ZeroBytes(xs: seq<real>, ys: seq<real>): seq<byte>
  {
    seq(|xs|, _ => 0 as byte)
  }

  /** `generate_permutation_indices(n)` on state `s`: the argsort of the next n
      x-values, and the state moved to the last trajectory point. n = 0 raises
      on `traj_x[-1]` before the state changes. */
  function PermutationIndices(a: real, b: real, s: State, n: nat): (r: (Result<seq<int>>, State))
    ensures r.0.Err? <==> n == 0
    ensures r.0.Err? ==> r.0.error == IndexError && r.1 == s
    ensures r.0.Ok? ==> |r.0.value| == n && IsPermutation(r.0.value) && InRange(r.0.value, n)
    ensures r.0.Ok? ==> SortedBy(TrajectoryX(a, b, s, n), r.0.value)
    ensures n > 0 ==> r.1 == State(TrajectoryX(a, b, s, n)[n - 1], TrajectoryY(a, b, s, n)[n - 1])
  {
    if n == 0 then (Err(IndexError), s)
    else (Ok(Argsort(TrajectoryX(a, b, s, n))), Orbit(a, b, s, n))
  }

  /** `to_bytes(n)` on state `s`: n bytes from the next n points, and the state
      moved to the last of them; n = 0 raises on `traj_x[-1]`. */
  function EmitBytes(q: Quantiser, a: real, b: real, s: State, n: nat): (r: (Result<seq<byte>>, State))
    ensures r.0.Err? <==> n == 0
    ensures r.0.Ok? ==> |r.0.value| == n
    ensures n == 0 ==> r.1 == s
    ensures n > 0 ==> r.1 == Orbit(a, b, s, n)
  {
    if n == 0 then (Err(IndexError), s)
    else (Ok(q(TrajectoryX(a, b, s, n), TrajectoryY(a, b, s, n))), Orbit(a, b, s, n))
  }

  /** `_henon_trajectory_jit`: fills two fresh arrays with the next `length`
      points after (x0, y0). */
  method TrajectoryArrays(x0: real, y0: real, a: real, b: real, length: nat)
    returns (xs: array<real>, ys: array<real>)
    ensures fresh(xs) && fresh(ys)
    ensures xs[..] == TrajectoryX(a, b, State(x0, y0), length)
    ensures ys[..] == TrajectoryY(a, b, State(x0, y0), length)
  {
    xs := new real[length];
    ys := new real[length];
    var x, y := x0, y0;
    var i := 0;
    while i < length
      invariant 0 <= i <= length
      invariant State(x, y) == Orbit(a, b, State(x0, y0), i)
      invariant forall j :: 0 <= j < i ==> xs[j] == Orbit(a, b, State(x0, y0), j + 1).x
      invariant forall j :: 0 <= j < i ==> ys[j] == Orbit(a, b, State(x0, y0), j + 1).y
    {
      var p := Step(a, b, State(x, y));
      x, y := p.x, p.y;
      xs[i] := x;
      ys[i] := y;
      i := i + 1;
    }
  }

  class HenonMap {
    const a: real
    const b: real
    const initialState: State
    const quantise: Quantiser
    var x: real
    var y: real

    /** The current point. */
    function Current(): State
      reads this
    {
      State(x, y)
    }

    constructor (a: real, b: real, x0: real, y0: real, quantise: Quantiser)
      ensures this.a == a && this.b == b && this.quantise == quantise
      ensures initialState == State(x0, y0) && Current() == State(x0, y0)
    {
      this.a := a;
      this.b := b;
      this.quantise := quantise;
      x, y := x0, y0;
      initialState := State(x0, y0);
    }

    /** `iterate(n)`: n applications of the recurrence in place; returns the
        new point. */
    method Iterate(n: nat) returns (p: State)
      modifies this
      ensures Current() == Orbit(a, b, old(Current()), n)
      ensures p == Current()
    {
      var i := 0;
      while i < n
        invariant 0 <= i <= n
        invariant Current() == Orbit(a, b, old(Current()), i)
      {
        var p := Step(a, b, Current());
        x, y := p.x, p.y;
        i := i + 1;
      }
      p := Current();
    }

    /** `generate_trajectory(length)`: reads the state, does not change it. */
    method GenerateTrajectory(length: nat) returns (xs: array<real>, ys: array<real>)
      ensures fresh(xs) && fresh(ys)
      ensures xs[..] == TrajectoryX(a, b, Current(), length)
      ensures ys[..] == TrajectoryY(a, b, Current(), length)
    {
      xs, ys := TrajectoryArrays(x, y, a, b, length);
    }

    /** `generate_permutation_indices(n)`. */
    method GeneratePermutationIndices(n: nat) returns (r: Result<seq<int>>)
      modifies this
      ensures (r, Current()) == PermutationIndices(a, b, old(Current()), n)
    {
      var xs, ys := GenerateTrajectory(n);
      var indices := Argsort(xs[..]);
      if n == 0 {
        return Err(IndexError);
      }
      x, y := xs[n - 1], ys[n - 1];
      r := Ok(indices);
    }

    /** `to_bytes(n)`. */
    method ToBytes(n: nat) returns (r: Result<seq<byte>>)
      modifies this
      ensures (r, Current()) == EmitBytes(quantise, a, b, old(Current()), n)
    {
      var xs, ys := GenerateTrajectory(n);
      if n == 0 {
        return Err(IndexError);
      }
      x, y := xs[n - 1], ys[n - 1];
      r := Ok(quantise(xs[..], ys[..]));
    }

    /** `reset(x0, y0)`: with neither argument the initial point comes back;
        otherwise only the given coordinates change. */
    method Reset(x0: Option<real>, y0: Option<real>)
      modifies this
      ensures x0.None? && y0.None? ==> Current() == initialState
      ensures x0.Some? || y0.Some? ==>
                x == (if x0.Some? then x0.value else old(x)) &&
                y == (if y0.Some? then y0.value else old(y))
    {
      if x0.None? && y0.None? {
        x, y := initialState.x, initialState.y;
      } else {
        x := if x0.Some? then x0.value else x;
        y := if y0.Some? then y0.value else y;
      }
    }
  }
}
