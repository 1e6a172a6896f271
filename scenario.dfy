/** The kernel wired together: the derivative `get_dXdt` builds, handed to the
    solver `get_ode_solver` picks, as the function value the solvers call with
    the parameter bundle. The one-node scenario (`W = [[0]]`, `alpha = 1`,
    `eps = 0`, tanh envelope, degree 1, coupling form 0) has derivative
    `-x`, so Euler's rule with `dT = 0.1` runs `2, 1.8, 1.62, 1.458`. */
module Scenario {
  import opened Vectors
  import opened Config
  import opened Envelope
  import opened Dynamics
  import opened Solvers
  import opened SolverProperties

  /** The derivative closure `get_dXdt` returns, as the solvers see it:
      defined on every conforming state, perturbation and bundle, where it
      evaluates the kernel's derivative (lemma FieldKeepsShape). */
  function Field(dyn: Kernel, tanh: real -> real): (Vec, Vec, Params) --> Vec
  {
    (v: Vec, u: Vec, q: Params) requires Shaped(dyn, q, |v|) && |u| == |v| => Derivative(dyn, tanh, v, u, q)
  }

  /** Under a conforming bundle and perturbation the kernel's derivative
      keeps the state length, which is all the solvers demand. */
  lemma FieldKeepsShape(dyn: Kernel, tanh: real -> real, tmu: Vec, p: Params, n: nat)
    requires Shaped(dyn, p, n) && |tmu| == n
    ensures KeepsShape(Field(dyn, tanh), tmu, p, n)
    ensures forall v: Vec :: |v| == n ==> Field(dyn, tanh)(v, tmu, p) == Derivative(dyn, tanh, v, tmu, p)
  {
  }

  /** With no perturbation the origin is an equilibrium of the kernel, so
      every solver leaves it there for any number of steps. */
  lemma OriginStaysAtRest(s: Solver, dyn: Kernel, tanh: real -> real, tmu: Vec, p: Params, dT: real, x: Vec, i: nat)
    requires Shaped(dyn, p, |x|) && |tmu| == |x|
    requires IsZero(x) && IsZero(tmu)
    requires p.envelope.Tanh? ==> IsOdd(tanh)
    ensures KeepsShape(Field(dyn, tanh), tmu, p, |x|)
    ensures Iterate(s, Field(dyn, tanh), tmu, p, dT, x, i) == x
  {
    FieldKeepsShape(dyn, tanh, tmu, p, |x|);
    OriginIsEquilibrium(dyn, tanh, x, tmu, p);
    IterateAtEquilibrium(s, Field(dyn, tanh), tmu, p, dT, x, i);
  }

  const OneNode: Kernel := Kernel(Linear, Inside, [[0.0]])
  const OneNodeParams: Params := Params([1.0], [0.0], [], Tanh)
  const NoPerturbation: Vec := [0.0]

  /** With no interaction and `eps = 0` the kernel's derivative is pure decay
      at rate `alpha = 1`, whatever the hyperbolic tangent is. */
  lemma OneNodeDecays(tanh: real -> real, k: real)
    requires k == -1.0
    ensures IsLinearField(Field(OneNode, tanh), NoPerturbation, OneNodeParams, k, 1)
  {
    forall v: Vec | |v| == 1
      ensures Field(OneNode, tanh).requires(v, NoPerturbation, OneNodeParams)
      ensures Field(OneNode, tanh)(v, NoPerturbation, OneNodeParams) == Scale(k, v)
    {
      var r := Derivative(OneNode, tanh, v, NoPerturbation, OneNodeParams);
      var s := Interaction(Linear, [[0.0]], v);
      assert [0.0][1..] == [];
      assert s[0] == Dot([0.0], v) == 0.0;
      assert r[0] == 0.0 * tanh(s[0] + 0.0) - 1.0 * v[0];
      assert r == Scale(k, v);
    }
  }

  /** State `i` of Euler's rule with `dT = 0.1` on any field that is
      `v ↦ -v` on one-entry states, started at `[2]`, is `[2·0.9^i]`. */
  lemma EulerDecayState<P>(f: (Vec, Vec, P) --> Vec, tmu: Vec, bundle: P, k: real, i: nat)
    requires k == -1.0 && IsLinearField(f, tmu, bundle, k, 1)
    ensures KeepsShape(f, tmu, bundle, 1)
    ensures Iterate(Euler, f, tmu, bundle, 0.1, [2.0], i) == [2.0 * Pow(0.9, i)]
  {
    var dT, x := 0.1, [2.0];
    LinearIterate(Euler, f, tmu, bundle, k, dT, x, i);
    var g, e := Growth(Euler, k * dT), Pow(0.9, i);
    assert g == 0.9;
    assert Scale(e, x) == [2.0 * e];
  }

  /** Stacking the four states of the decay run. */
  lemma FlattenDecayStates()
    ensures Flatten([[2.0], [1.8], [1.62], [1.458]]) == [2.0, 1.8, 1.62, 1.458]
  {
    FlattenSnoc([], [2.0]);
    FlattenSnoc([[2.0]], [1.8]);
    FlattenSnoc([[2.0], [1.8]], [1.62]);
    FlattenSnoc([[2.0], [1.8], [1.62]], [1.458]);
    assert [[2.0], [1.8], [1.62], [1.458]] == [[2.0], [1.8], [1.62]] + [[1.458]];
    assert [[2.0], [1.8], [1.62]] == [[2.0], [1.8]] + [[1.62]];
    assert [[2.0], [1.8]] == [[2.0]] + [[1.8]];
    assert [[2.0]] == [] + [[2.0]];
  }

  /** Euler's rule with `dT = 0.1` on a field that is `v ↦ -v` on one-entry
      states, started at `[2]`: three steps give the flat trajectory
      `[2, 1.8, 1.62, 1.458]`. */
  lemma EulerDecayTrajectory<P>(f: (Vec, Vec, P) --> Vec, tmu: Vec, bundle: P, k: real)
    requires k == -1.0 && IsLinearField(f, tmu, bundle, k, 1)
    ensures KeepsShape(f, tmu, bundle, 1)
    ensures Flatten(Trajectory(Euler, f, tmu, bundle, 0.1, [2.0], 3)) == [2.0, 1.8, 1.62, 1.458]
  {
    EulerDecayState(f, tmu, bundle, k, 1);
    EulerDecayState(f, tmu, bundle, k, 2);
    EulerDecayState(f, tmu, bundle, k, 3);
    assert Pow(0.9, 1) == 0.9;
    assert Pow(0.9, 2) == 0.81 by {
      assert Pow(0.9, 2) == 0.9 * Pow(0.9, 1);
    }
    assert Pow(0.9, 3) == 0.729 by {
      assert Pow(0.9, 3) == 0.9 * Pow(0.9, 2);
      assert Pow(0.9, 2) == 0.9 * Pow(0.9, 1);
    }
    var t := Trajectory(Euler, f, tmu, bundle, 0.1, [2.0], 3);
    assert t[0] == [2.0] && t[1] == [1.8] && t[2] == [1.62] && t[3] == [1.458];
    assert t == [[2.0], [1.8], [1.62], [1.458]];
    FlattenDecayStates();
  }

  /** The one-node kernel under Euler's rule from `x0 = [2]` with `dT = 0.1`:
      three steps give `[2, 1.8, 1.62, 1.458]`, whatever the hyperbolic
      tangent is. */
  lemma EulerOneNodeTrajectory(tanh: real -> real)
    ensures KeepsShape(Field(OneNode, tanh), NoPerturbation, OneNodeParams, 1)
    ensures Flatten(Trajectory(Euler, Field(OneNode, tanh), NoPerturbation, OneNodeParams, 0.1, [2.0], 3))
         == [2.0, 1.8, 1.62, 1.458]
  {
    var f, k := Field(OneNode, tanh), -1.0;
    OneNodeDecays(tanh, k);
    EulerDecayTrajectory(f, NoPerturbation, OneNodeParams, k);
  }

  /** The whole pipeline on the one-node scenario: select the tanh envelope,
      the degree-1 form-0 derivative and the Euler solver, then run three
      steps from `[2]` under no perturbation. */
  method RunOneNode(tanh: real -> real) returns (xs: Vec)
    ensures xs == [2.0, 1.8, 1.62, 1.458]
  {
    var envelope := GetEnvelop("tanh", 0);
    var dyn := GetDXdt(1, 0, [[0.0]]);
    var solver := GetOdeSolver("euler");
    assert envelope == Ok(Tanh) && dyn == Ok(OneNode) && solver == Ok(Euler);
    var p := Params([1.0], [0.0], [], envelope.value);
    assert p == OneNodeParams;
    var f := Field(dyn.value, tanh);
    EulerOneNodeTrajectory(tanh);
    xs := Solve(solver.value, [2.0], NoPerturbation, 0.1, 3, p, f);
  }
}
