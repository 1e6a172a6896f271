/** The solver selector (`get_ode_solver`) and the four fixed-step
    integrators. The derivative is any function value `dXdt(x, t_mu, bundle)`
    defined on states of length N that returns a state of length N, so what
    is proved here holds for every right-hand side, not only the kernel's.

    Each solver keeps the trajectory as the kernel does: one flat column that
    starts as `x` and grows by `tf.concat([xs, x], axis = 0)`, that is by the
    new state appended at the end. State i of a run therefore occupies entries
    i·N … i·N + N − 1 (lemma TrajectoryLayout). */
module Solvers {
  import opened Vectors
  import opened Config

  /** The integrators `get_ode_solver` can return. */
  datatype Solver = Heun | Euler | RK4 | Midpoint

  /** The solver names `get_ode_solver` accepts. */
  const SolverNames: set<string> := {"heun", "euler", "rk4", "midpoint"}

  function SolverName(s: Solver): string
  {
    match s
    case Heun => "heun"
    case Euler => "euler"
    case RK4 => "rk4"
    case Midpoint => "midpoint"
  }

  /** Picks the solver whose name is `name`, or fails for any other name. */
  function GetOdeSolver(name: string): (r: Result<Solver>)
    ensures r.Ok? <==> name in SolverNames
    ensures r.Ok? ==> SolverName(r.value) == name
    ensures r.Err? ==> r.error == IllegalSolver(name)
  {
    if name == "heun" then Ok(Heun)
    else if name == "euler" then Ok(Euler)
    else if name == "rk4" then Ok(RK4)
    else if name == "midpoint" then Ok(Midpoint)
    else Err(IllegalSolver(name))
  }

  /** Each solver is selected by exactly its own name. */
  lemma SolverNameRoundTrip(s: Solver)
    ensures GetOdeSolver(SolverName(s)) == Ok(s)
  {
  }

  /** `f` is defined on every state of length `n` under perturbation `tmu`
      and the bundle `bundle`, and returns a state of length `n`. */
  ghost predicate KeepsShape<P>(f: (Vec, Vec, P) --> Vec, tmu: Vec, bundle: P, n: nat)
  {
    forall v: Vec :: |v| == n ==> f.requires(v, tmu, bundle) && |f(v, tmu, bundle)| == n
  }

  /** `x + c·z` is `x` when `z` is the zero vector. */
  lemma AddScaledZero(x: Vec, c: real, z: Vec)
    requires |z| == |x|
    ensures IsZero(z) ==> Add(x, Scale(c, z)) == x
  {
    if IsZero(z) {
      var r := Add(x, Scale(c, z));
      forall i | 0 <= i < |x|
        ensures r[i] == x[i]
      {
        assert z[i] == 0.0;
      }
    }
  }

  /** One step of width `dT` from `x`; `tmu` and `bundle` are the same at every
      stage. Euler evaluates `f` once, Midpoint and Heun twice, RK4 four times. */
  function Step<P>(s: Solver, f: (Vec, Vec, P) --> Vec, tmu: Vec, bundle: P, dT: real, x: Vec): (r: Vec)
    requires KeepsShape(f, tmu, bundle, |x|)
    ensures |r| == |x|
  {
    match s
    case Euler =>
      Add(x, Scale(dT, f(x, tmu, bundle)))
    case Midpoint =>
      var k1 := f(x, tmu, bundle);
      var k2 := f(Add(x, Scale(0.5 * dT, k1)), tmu, bundle);
      Add(x, Scale(dT, k2))
    case Heun =>
      var k1 := f(x, tmu, bundle);
      var k2 := f(Add(x, Scale(dT, k1)), tmu, bundle);
      Add(x, Scale(dT * 0.5, Add(k1, k2)))
    case RK4 =>
      var k1 := f(x, tmu, bundle);
      var k2 := f(Add(x, Scale(0.5 * dT, k1)), tmu, bundle);
      var k3 := f(Add(x, Scale(0.5 * dT, k2)), tmu, bundle);
      var k4 := f(Add(x, Scale(dT, k3)), tmu, bundle);
      Add(x, Scale(dT, RK4Weights(k1, k2, k3, k4)))
  }

  /** Every rule leaves an equilibrium of `f` where it is: each stage is
      evaluated at `x` again and returns the zero slope. */
  lemma StepAtEquilibrium<P>(s: Solver, f: (Vec, Vec, P) --> Vec, tmu: Vec, bundle: P, dT: real, x: Vec)
    requires KeepsShape(f, tmu, bundle, |x|)
    requires IsZero(f(x, tmu, bundle))
    ensures Step(s, f, tmu, bundle, dT, x) == x
  {
    var k := f(x, tmu, bundle);
    AddScaledZero(x, dT, k);
    AddScaledZero(x, 0.5 * dT, k);
    match s
    case Euler =>
    case Midpoint =>
    case Heun =>
      AddScaledZero(x, dT * 0.5, Add(k, k));
    case RK4 =>
      RK4WeightsMean(k, k, k, k);
  }

  /** `k1/6 + k2/3 + k3/3 + k4/6`. The weights sum to one, so four equal
      slopes average to that slope. */
  function RK4Weights(k1: Vec, k2: Vec, k3: Vec, k4: Vec): (r: Vec)
    requires |k1| == |k2| == |k3| == |k4|
    ensures |r| == |k1|
  {
    Add(Add(Add(Scale(1.0 / 6.0, k1), Scale(1.0 / 3.0, k2)), Scale(1.0 / 3.0, k3)), Scale(1.0 / 6.0, k4))
  }

  /** The RK4 weights sum to one: entry i is the weighted mean of the four
      slopes at i, and four equal slopes average to that slope. */
  lemma RK4WeightsMean(k1: Vec, k2: Vec, k3: Vec, k4: Vec)
    requires |k1| == |k2| == |k3| == |k4|
    ensures forall i :: 0 <= i < |k1| ==>
      RK4Weights(k1, k2, k3, k4)[i] == k1[i] / 6.0 + k2[i] / 3.0 + k3[i] / 3.0 + k4[i] / 6.0
    ensures k1 == k2 == k3 == k4 ==> RK4Weights(k1, k2, k3, k4) == k1
  {
    var r := RK4Weights(k1, k2, k3, k4);
    if k1 == k2 == k3 == k4 {
      forall i | 0 <= i < |k1|
        ensures r[i] == k1[i]
      {
      }
    }
  }

  /** The state after `i` steps: `Step` applied `i` times to `x`. */
  function Iterate<P>(s: Solver, f: (Vec, Vec, P) --> Vec, tmu: Vec, bundle: P, dT: real, x: Vec, i: nat): (r: Vec)
    requires KeepsShape(f, tmu, bundle, |x|)
    ensures |r| == |x|
  {
    if i == 0 then x else Step(s, f, tmu, bundle, dT, Iterate(s, f, tmu, bundle, dT, x, i - 1))
  }

  /** An equilibrium of `f` stays put for any number of steps of any rule. */
  lemma {:induction false} IterateAtEquilibrium<P>(s: Solver, f: (Vec, Vec, P) --> Vec, tmu: Vec, bundle: P, dT: real, x: Vec, i: nat)
    requires KeepsShape(f, tmu, bundle, |x|)
    requires IsZero(f(x, tmu, bundle))
    ensures Iterate(s, f, tmu, bundle, dT, x, i) == x
  {
    if i > 0 {
      IterateAtEquilibrium(s, f, tmu, bundle, dT, x, i - 1);
      StepAtEquilibrium(s, f, tmu, bundle, dT, x);
    }
  }

  /** The states of an `n`-step run, in step order: state i is the i-th iterate. */
  function Trajectory<P>(s: Solver, f: (Vec, Vec, P) --> Vec, tmu: Vec, bundle: P, dT: real, x: Vec, n: nat): (t: seq<Vec>)
    requires KeepsShape(f, tmu, bundle, |x|)
    ensures |t| == n + 1
    ensures forall i :: 0 <= i <= n ==> t[i] == Iterate(s, f, tmu, bundle, dT, x, i)
  {
    if n == 0 then [x]
    else Trajectory(s, f, tmu, bundle, dT, x, n - 1) + [Iterate(s, f, tmu, bundle, dT, x, n)]
  }

  /** Stacks the states into one flat column, first state first (lemmas
      FlattenSnoc, FlattenLength and FlattenIndex state the layout). */
  function Flatten(xs: seq<Vec>): Vec
  {
    if xs == [] then [] else Flatten(xs[..|xs| - 1]) + xs[|xs| - 1]
  }

  lemma FlattenSnoc(xs: seq<Vec>, v: Vec)
    ensures Flatten(xs + [v]) == Flatten(xs) + v
  {
    assert (xs + [v])[..|xs|] == xs;
  }

  lemma {:induction false} FlattenLength(xs: seq<Vec>, n: nat)
    requires forall k :: 0 <= k < |xs| ==> |xs[k]| == n
    ensures |Flatten(xs)| == |xs| * n
  {
    if xs != [] {
      FlattenLength(xs[..|xs| - 1], n);
      assert |xs| * n == (|xs| - 1) * n + n;
    }
  }

  /** In the flat column, entry `i·n + j` is entry `j` of state `i`. */
  lemma {:induction false} FlattenIndex(xs: seq<Vec>, n: nat, i: nat, j: nat)
    requires forall k :: 0 <= k < |xs| ==> |xs[k]| == n
    requires i < |xs| && j < n
    ensures |Flatten(xs)| == |xs| * n
    ensures i * n + j < |Flatten(xs)| && Flatten(xs)[i * n + j] == xs[i][j]
  {
    var m := |xs| - 1;
    FlattenLength(xs, n);
    FlattenLength(xs[..m], n);
    if i < m {
      FlattenIndex(xs[..m], n, i, j);
    } else {
      assert i * n + j == m * n + j;
    }
  }

  /** The flat column starts with the first state; a single state is its own
      column. */
  lemma FlattenHead(xs: seq<Vec>, n: nat)
    requires forall k :: 0 <= k < |xs| ==> |xs[k]| == n
    requires |xs| > 0
    ensures |Flatten(xs)| == |xs| * n
    ensures Flatten(xs)[..n] == xs[0]
    ensures |xs| == 1 ==> Flatten(xs) == xs[0]
  {
    FlattenLength(xs, n);
    forall j | 0 <= j < n
      ensures Flatten(xs)[j] == xs[0][j]
    {
      FlattenIndex(xs, n, 0, j);
    }
    if |xs| == 1 {
      assert xs == [] + [xs[0]];
      FlattenSnoc([], xs[0]);
    }
  }

  /** The flat trajectory of an `n`-step run has (n + 1)·N entries, and state
      i occupies entries i·N … i·N + N − 1. */
  lemma TrajectoryLayout<P>(s: Solver, f: (Vec, Vec, P) --> Vec, tmu: Vec, bundle: P, dT: real, x: Vec, n: nat, i: nat, j: nat)
    requires KeepsShape(f, tmu, bundle, |x|)
    requires i <= n && j < |x|
    ensures |Flatten(Trajectory(s, f, tmu, bundle, dT, x, n))| == (n + 1) * |x|
    ensures i * |x| + j < (n + 1) * |x|
    ensures Flatten(Trajectory(s, f, tmu, bundle, dT, x, n))[i * |x| + j] == Iterate(s, f, tmu, bundle, dT, x, i)[j]
  {
    FlattenIndex(Trajectory(s, f, tmu, bundle, dT, x, n), |x|, i, j);
  }

  /** The flat trajectory of an `n`-step run has (n + 1)·N entries and starts
      with the initial state; with no steps it is the initial state alone. */
  lemma TrajectoryShape<P>(s: Solver, f: (Vec, Vec, P) --> Vec, tmu: Vec, bundle: P, dT: real, x: Vec, n: nat)
    requires KeepsShape(f, tmu, bundle, |x|)
    ensures |Flatten(Trajectory(s, f, tmu, bundle, dT, x, n))| == (n + 1) * |x|
    ensures Flatten(Trajectory(s, f, tmu, bundle, dT, x, n))[..|x|] == x
    ensures n == 0 ==> Flatten(Trajectory(s, f, tmu, bundle, dT, x, n)) == x
  {
    var t := Trajectory(s, f, tmu, bundle, dT, x, n);
    assert t[0] == x;
    FlattenHead(t, |x|);
  }

  /** Running one more step appends the next state to the flat trajectory. */
  lemma TrajectoryGrows<P>(s: Solver, f: (Vec, Vec, P) --> Vec, tmu: Vec, bundle: P, dT: real, x: Vec, i: nat)
    requires KeepsShape(f, tmu, bundle, |x|)
    ensures Flatten(Trajectory(s, f, tmu, bundle, dT, x, i + 1))
         == Flatten(Trajectory(s, f, tmu, bundle, dT, x, i))
            + Step(s, f, tmu, bundle, dT, Iterate(s, f, tmu, bundle, dT, x, i))
  {
    FlattenSnoc(Trajectory(s, f, tmu, bundle, dT, x, i), Iterate(s, f, tmu, bundle, dT, x, i + 1));
  }

  /** The number of iterations of `range(n_T)`: `n_T` steps, and none when
      `n_T` is negative. */
  function RangeLength(nT: int): (n: nat)
    ensures nT <= 0 ==> n == 0
    ensures nT >= 0 ==> n == nT
  {
    if nT < 0 then 0 else nT
  }

  /** `heun_solver`: predictor `x + dT·k1`, then the trapezoidal average. */
  method HeunSolver<P>(x0: Vec, tmu: Vec, dT: real, nT: int, bundle: P, dXdt: (Vec, Vec, P) --> Vec) returns (xs: Vec)
    requires KeepsShape(dXdt, tmu, bundle, |x0|)
    ensures xs == Flatten(Trajectory(Heun, dXdt, tmu, bundle, dT, x0, RangeLength(nT)))
    ensures nT <= 0 ==> xs == x0
  {
    var x := x0;
    xs := x;
    for i := 0 to RangeLength(nT)
      invariant x == Iterate(Heun, dXdt, tmu, bundle, dT, x0, i)
      invariant i == 0 ==> xs == x0
      invariant xs == Flatten(Trajectory(Heun, dXdt, tmu, bundle, dT, x0, i))
    {
      TrajectoryGrows(Heun, dXdt, tmu, bundle, dT, x0, i);
      var dXdtCurrent := dXdt(x, tmu, bundle);
      var dXdtNext := dXdt(Add(x, Scale(dT, dXdtCurrent)), tmu, bundle);
      x := Add(x, Scale(dT * 0.5, Add(dXdtCurrent, dXdtNext)));
      xs := xs + x;
    }
  }

  /** `euler_solver`: `x + dT·f(x)`. */
  method EulerSolver<P>(x0: Vec, tmu: Vec, dT: real, nT: int, bundle: P, dXdt: (Vec, Vec, P) --> Vec) returns (xs: Vec)
    requires KeepsShape(dXdt, tmu, bundle, |x0|)
    ensures xs == Flatten(Trajectory(Euler, dXdt, tmu, bundle, dT, x0, RangeLength(nT)))
    ensures nT <= 0 ==> xs == x0
  {
    var x := x0;
    xs := x;
    for i := 0 to RangeLength(nT)
      invariant x == Iterate(Euler, dXdt, tmu, bundle, dT, x0, i)
      invariant i == 0 ==> xs == x0
      invariant xs == Flatten(Trajectory(Euler, dXdt, tmu, bundle, dT, x0, i))
    {
      TrajectoryGrows(Euler, dXdt, tmu, bundle, dT, x0, i);
      var dXdtCurrent := dXdt(x, tmu, bundle);
      x := Add(x, Scale(dT, dXdtCurrent));
      xs := xs + x;
    }
  }

  /** `midpoint_solver`: the slope at `x + dT/2·f(x)`. */
  method MidpointSolver<P>(x0: Vec, tmu: Vec, dT: real, nT: int, bundle: P, dXdt: (Vec, Vec, P) --> Vec) returns (xs: Vec)
    requires KeepsShape(dXdt, tmu, bundle, |x0|)
    ensures xs == Flatten(Trajectory(Midpoint, dXdt, tmu, bundle, dT, x0, RangeLength(nT)))
    ensures nT <= 0 ==> xs == x0
  {
    var x := x0;
    xs := x;
    for i := 0 to RangeLength(nT)
      invariant x == Iterate(Midpoint, dXdt, tmu, bundle, dT, x0, i)
      invariant i == 0 ==> xs == x0
      invariant xs == Flatten(Trajectory(Midpoint, dXdt, tmu, bundle, dT, x0, i))
    {
      TrajectoryGrows(Midpoint, dXdt, tmu, bundle, dT, x0, i);
      var dXdtCurrent := dXdt(x, tmu, bundle);
      var dXdtMidpoint := dXdt(Add(x, Scale(0.5 * dT, dXdtCurrent)), tmu, bundle);
      x := Add(x, Scale(dT, dXdtMidpoint));
      xs := xs + x;
    }
  }

  /** `rk4_solver`: the classic four-stage Runge-Kutta step. */
  method RK4Solver<P>(x0: Vec, tmu: Vec, dT: real, nT: int, bundle: P, dXdt: (Vec, Vec, P) --> Vec) returns (xs: Vec)
    requires KeepsShape(dXdt, tmu, bundle, |x0|)
    ensures xs == Flatten(Trajectory(RK4, dXdt, tmu, bundle, dT, x0, RangeLength(nT)))
    ensures nT <= 0 ==> xs == x0
  {
    var x := x0;
    xs := x;
    for i := 0 to RangeLength(nT)
      invariant x == Iterate(RK4, dXdt, tmu, bundle, dT, x0, i)
      invariant i == 0 ==> xs == x0
      invariant xs == Flatten(Trajectory(RK4, dXdt, tmu, bundle, dT, x0, i))
    {
      TrajectoryGrows(RK4, dXdt, tmu, bundle, dT, x0, i);
      var k1 := dXdt(x, tmu, bundle);
      var k2 := dXdt(Add(x, Scale(0.5 * dT, k1)), tmu, bundle);
      var k3 := dXdt(Add(x, Scale(0.5 * dT, k2)), tmu, bundle);
      var k4 := dXdt(Add(x, Scale(dT, k3)), tmu, bundle);
      x := Add(x, Scale(dT, RK4Weights(k1, k2, k3, k4)));
      xs := xs + x;
    }
  }

  /** Runs the solver that `get_ode_solver` selected. */
  method Solve<P>(s: Solver, x0: Vec, tmu: Vec, dT: real, nT: int, bundle: P, dXdt: (Vec, Vec, P) --> Vec) returns (xs: Vec)
    requires KeepsShape(dXdt, tmu, bundle, |x0|)
    ensures xs == Flatten(Trajectory(s, dXdt, tmu, bundle, dT, x0, RangeLength(nT)))
    ensures |xs| == (RangeLength(nT) + 1) * |x0| && xs[..|x0|] == x0
    ensures nT <= 0 ==> xs == x0
  {
    TrajectoryShape(s, dXdt, tmu, bundle, dT, x0, RangeLength(nT));
    match s
    case Heun => xs := HeunSolver(x0, tmu, dT, nT, bundle, dXdt);
    case Euler => xs := EulerSolver(x0, tmu, dT, nT, bundle, dXdt);
    case RK4 => xs := RK4Solver(x0, tmu, dT, nT, bundle, dXdt);
    case Midpoint => xs := MidpointSolver(x0, tmu, dT, nT, bundle, dXdt);
  }
}
