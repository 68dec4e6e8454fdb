/** The Logistic map, the Sine map and the Lorenz system as the hybrid
    generator sees them: deterministic sources whose state advances by one
    float step per iteration, that emit bytes by quantising the next points of
    their trajectory, and that `reset` returns to their initial condition.
    The float step and the quantisation are parameters of the model. */
module ChaosSources {
  import opened Base

  /** A state vector: one coordinate for Logistic and Sine, three for Lorenz. */
  type Point = seq<real>

  /** The float code that turns n trajectory points into n bytes
      (`floor(255 * x)`, or Lorenz's per-axis min-max normalisation). */
  type Quantiser = q: seq<Point> -> seq<byte> | forall t {:trigger q(t)} :: |q(t)| == |t|
    witness ZeroPoints

  function ZeroPoints(t: seq<Point>): seq<byte>
  {
    seq(|t|, _ => 0 as byte)
  }

  /** One opaque map: its float step, with its parameters (r, mu, or sigma, rho,
      beta and dt) built in, its quantiser, and the exception `to_bytes(0)`
      raises (`EmptyTrajectoryError` of the map). */
  datatype Dynamics = Dynamics(step: Point -> Point, quantise: Quantiser, emptyError: Error)

  /** The exception NumPy raises for `min()` of an empty array. */
  const EmptyMinimum: string := "zero-size array to reduction operation minimum which has no identity"

  /** What `to_bytes(0)` raises: Logistic and Sine read `sequence[-1]` of an
      empty array (`IndexError`); Lorenz never indexes but normalises the empty
      x column, whose `min()` raises a `ValueError`. */
  datatype MapKind = Logistic | Sine | Lorenz

  function EmptyTrajectoryError(k: MapKind): (e: Error)
    ensures k == Lorenz <==> e.ValueError?
    ensures k != Lorenz ==> e == IndexError
    ensures k == Lorenz ==> e.message == EmptyMinimum
  {
    if k == Lorenz then ValueError(EmptyMinimum) else IndexError
  }

  /** The state after n steps from `s`. */
  function Iterated(step: Point -> Point, s: Point, n: nat): Point
  {
    if n == 0 then s else step(Iterated(step, s, n - 1))
  }

  /** Stepping m times and then n times is stepping m + n times. */
  lemma {:induction false} IteratedAdditive(step: Point -> Point, s: Point, m: nat, n: nat)
    ensures Iterated(step, Iterated(step, s, m), n) == Iterated(step, s, m + n)
  {
    if n > 0 {
      IteratedAdditive(step, s, m, n - 1);
    }
  }

  /** The next n points after `s`: point i is the state after i + 1 steps. */
  function Trajectory(step: Point -> Point, s: Point, n: nat): (r: seq<Point>)
    ensures |r| == n
    ensures forall i :: 0 <= i < n ==> r[i] == Iterated(step, s, i + 1)
  {
    seq(n, i requires 0 <= i < n => Iterated(step, s, i + 1))
  }

  /** `to_bytes(n)` on a state `s`: the quantised next n points, and the state
      moved to the last of them. For n = 0 the map's `emptyError` is raised
      before the state changes. */
  function EmitBytes(d: Dynamics, s: Point, n: nat): (r: (Result<seq<byte>>, Point))
    ensures r.0.Err? <==> n == 0
    ensures r.0.Err? ==> r.0.error == d.emptyError
    ensures r.0.Ok? ==> |r.0.value| == n
    ensures n == 0 ==> r.1 == s
    ensures n > 0 ==> r.1 == Trajectory(d.step, s, n)[n - 1]
  {
    if n == 0 then (Err(d.emptyError), s)
    else (Ok(d.quantise(Trajectory(d.step, s, n))), Iterated(d.step, s, n))
  }

  /** One opaque map object with its current state. */
  class ChaosSource {
    const dynamics: Dynamics
    const initialState: Point
    var state: Point

    constructor (dynamics: Dynamics, x0: Point)
      ensures this.dynamics == dynamics && initialState == x0 && state == x0
    {
      this.dynamics := dynamics;
      initialState := x0;
      state := x0;
    }

    /** `iterate(n)` (`iterate_rk4(n)` for Lorenz): n steps in place. */
    method Iterate(n: nat) returns (s: Point)
      modifies this
      ensures state == Iterated(dynamics.step, old(state), n)
      ensures s == state
    {
      var i := 0;
      while i < n
        invariant 0 <= i <= n
        invariant state == Iterated(dynamics.step, old(state), i)
      {
        state := dynamics.step(state);
        i := i + 1;
      }
      s := state;
    }

    /** `to_bytes(n)`. */
    method ToBytes(n: nat) returns (r: Result<seq<byte>>)
      modifies this
      ensures (r, state) == EmitBytes(dynamics, old(state), n)
    {
      if n == 0 {
        return Err(dynamics.emptyError);
      }
      var t := Trajectory(dynamics.step, state, n);
      state := t[n - 1];
      r := Ok(dynamics.quantise(t));
    }

    /** Lorenz `generate_trajectory(n)`: records the next n points and leaves
        the state at the last of them. */
    method GenerateTrajectory(n: nat) returns (t: seq<Point>)
      modifies this
      ensures t == Trajectory(dynamics.step, old(state), n)
      ensures state == Iterated(dynamics.step, old(state), n)
    {
      t := [];
      var i := 0;
      while i < n
        invariant 0 <= i <= n
        invariant state == Iterated(dynamics.step, old(state), i)
        invariant t == Trajectory(dynamics.step, old(state), i)
      {
        state := dynamics.step(state);
        t := t + [state];
        i := i + 1;
      }
    }

    /** `reset()` without arguments. */
    method Reset()
      modifies this
      ensures state == initialState
    {
      state := initialState;
    }
  }
}
