/** What the four step rules do on two fields whose exact flow is known: a
    constant field, where every rule is Euler's step and exact, and a linear
    field `dx/dt = k·x` (linear decay when `k < 0`), where each rule
    multiplies the state by a polynomial in `h = k·dT`: the Taylor polynomial
    of e^h of the rule's order, 1 for Euler, 2 for Midpoint and Heun, 4 for
    RK4. */
module SolverProperties {
  import opened Vectors
  import opened Solvers

  /** `f` is the constant field `c` on states of length `|c|`. */
  ghost predicate IsConstantField<P>(f: (Vec, Vec, P) --> Vec, tmu: Vec, bundle: P, c: Vec)
  {
    forall v: Vec :: |v| == |c| ==> f.requires(v, tmu, bundle) && f(v, tmu, bundle) == c
  }

  /** `f` is the linear field `v ↦ k·v` on states of length `n` (linear
      decay at rate `alpha` is `k = -alpha`). */
  ghost predicate IsLinearField<P>(f: (Vec, Vec, P) --> Vec, tmu: Vec, bundle: P, k: real, n: nat)
  {
    forall v: Vec :: |v| == n ==> f.requires(v, tmu, bundle) && f(v, tmu, bundle) == Scale(k, v)
  }

  /** For a constant field every solver takes Euler's step `x + dT·c`. */
  lemma ConstantFieldStep<P>(s: Solver, f: (Vec, Vec, P) --> Vec, tmu: Vec, bundle: P, dT: real, x: Vec, c: Vec)
    requires |x| == |c| && IsConstantField(f, tmu, bundle, c)
    ensures KeepsShape(f, tmu, bundle, |x|)
    ensures Step(s, f, tmu, bundle, dT, x) == Add(x, Scale(dT, c))
    ensures Step(s, f, tmu, bundle, dT, x) == Step(Euler, f, tmu, bundle, dT, x)
  {
    var r, e := Step(s, f, tmu, bundle, dT, x), Add(x, Scale(dT, c));
    match s
    case Euler =>
    case Midpoint =>
      assert f(Add(x, Scale(0.5 * dT, c)), tmu, bundle) == c;
    case Heun =>
      assert f(Add(x, Scale(dT, c)), tmu, bundle) == c;
      forall i | 0 <= i < |x|
        ensures r[i] == e[i]
      {
        assert dT * 0.5 * (c[i] + c[i]) == dT * c[i];
      }
    case RK4 =>
      var k2 := f(Add(x, Scale(0.5 * dT, c)), tmu, bundle);
      assert k2 == c;
      var k3 := f(Add(x, Scale(0.5 * dT, k2)), tmu, bundle);
      assert k3 == c;
      var k4 := f(Add(x, Scale(dT, k3)), tmu, bundle);
      assert k4 == c;
      var w := RK4Weights(c, c, c, c);
      forall i | 0 <= i < |x|
        ensures w[i] == c[i]
      {
        assert 1.0 / 6.0 * c[i] + 1.0 / 3.0 * c[i] + 1.0 / 3.0 * c[i] + 1.0 / 6.0 * c[i] == c[i];
      }
      assert w == c;
  }

  /** For a constant field every solver is exact: after `n` steps the state
      is `x + (n·dT)·c`. */
  lemma {:induction false} ConstantFieldIterate<P>(s: Solver, f: (Vec, Vec, P) --> Vec, tmu: Vec, bundle: P, dT: real, x: Vec, c: Vec, n: nat)
    requires |x| == |c| && IsConstantField(f, tmu, bundle, c)
    ensures KeepsShape(f, tmu, bundle, |x|)
    ensures Iterate(s, f, tmu, bundle, dT, x, n) == Add(x, Scale(n as real * dT, c))
  {
    ConstantFieldStep(s, f, tmu, bundle, dT, x, c);
    if n == 0 {
      AddNothing(x, c, n as real * dT);
    } else {
      var m: nat := n - 1;
      ConstantFieldIterate(s, f, tmu, bundle, dT, x, c, m);
      var prev := Iterate(s, f, tmu, bundle, dT, x, m);
      ConstantFieldStep(s, f, tmu, bundle, dT, prev, c);
      AdvanceConstant(x, c, dT, m, n);
    }
  }

  lemma AddNothing(x: Vec, c: Vec, z: real)
    requires |x| == |c| && z == 0.0
    ensures Add(x, Scale(z, c)) == x
  {
    var r := Add(x, Scale(z, c));
    assert forall i :: 0 <= i < |x| ==> r[i] == x[i];
  }

  /** One more exact step of the constant flow. */
  lemma AdvanceConstant(x: Vec, c: Vec, dT: real, m: nat, n: nat)
    requires |x| == |c| && n == m + 1
    ensures Add(Add(x, Scale(m as real * dT, c)), Scale(dT, c)) == Add(x, Scale(n as real * dT, c))
  {
    var r, e := Add(Add(x, Scale(m as real * dT, c)), Scale(dT, c)), Add(x, Scale(n as real * dT, c));
    forall i | 0 <= i < |x|
      ensures r[i] == e[i]
    {
      assert m as real * dT * c[i] + dT * c[i] == n as real * dT * c[i];
    }
  }

  /** The factor by which one step of `s` multiplies the state of the linear
      field `v ↦ k·v`, with `h = k·dT`: the Taylor polynomial of e^h of the
      solver's order. */
  function Growth(s: Solver, h: real): real
  {
    match s
    case Euler => 1.0 + h
    case Midpoint => 1.0 + h + h * h / 2.0
    case Heun => 1.0 + h + h * h / 2.0
    case RK4 => 1.0 + h + h * h / 2.0 + h * h * h / 6.0 + h * h * h * h / 24.0
  }

  lemma ScaleOne(x: Vec)
    ensures Scale(1.0, x) == x
  {
  }

  lemma ScaleTwice(g: real, q: real, x: Vec)
    ensures Scale(g, Scale(q, x)) == Scale(g * q, x)
  {
    var r, e := Scale(g, Scale(q, x)), Scale(g * q, x);
    forall i | 0 <= i < |x|
      ensures r[i] == e[i]
    {
      assert g * (q * x[i]) == (g * q) * x[i];
    }
  }

  lemma AddScaled(c: real, d: real, x: Vec)
    ensures Add(Scale(c, x), Scale(d, x)) == Scale(c + d, x)
  {
    var r, e := Add(Scale(c, x), Scale(d, x)), Scale(c + d, x);
    forall i | 0 <= i < |x|
      ensures r[i] == e[i]
    {
      assert c * x[i] + d * x[i] == (c + d) * x[i];
    }
  }

  /** A stage point `x + c·m` when the slope `m` is a multiple `d·x` of `x`. */
  lemma StagePoint(x: Vec, c: real, d: real)
    ensures Add(x, Scale(c, Scale(d, x))) == Scale(1.0 + c * d, x)
  {
    ScaleOne(x);
    ScaleTwice(c, d, x);
    AddScaled(1.0, c * d, x);
  }

  /** For a linear field the slope at a multiple `q·x` of `x` is `(k·q)·x`. */
  lemma LinearSlope<P>(f: (Vec, Vec, P) --> Vec, tmu: Vec, bundle: P, k: real, x: Vec, q: real)
    requires IsLinearField(f, tmu, bundle, k, |x|)
    ensures f.requires(Scale(q, x), tmu, bundle) && f(Scale(q, x), tmu, bundle) == Scale(k * q, x)
  {
    var v := Scale(q, x);
    assert f.requires(v, tmu, bundle) && f(v, tmu, bundle) == Scale(k, v);
    ScaleTwice(k, q, x);
  }

  /** The two Midpoint stage slopes of a linear field give the second-degree factor. */
  lemma MidpointFactor(k: real, dT: real, c: real, q2: real, d2: real)
    requires c == 0.5 * dT && q2 == 1.0 + c * k && d2 == k * q2
    ensures 1.0 + dT * d2 == Growth(Midpoint, k * dT)
  {
  }

  /** The two Heun stage slopes of a linear field give the second-degree factor. */
  lemma HeunFactor(k: real, dT: real, c: real, q2: real, d2: real)
    requires c == dT * 0.5 && q2 == 1.0 + dT * k && d2 == k * q2
    ensures 1.0 + c * (k + d2) == Growth(Heun, k * dT)
  {
  }

  /** The RK4 weighting `d1/6 + d2/3 + d3/3 + d4/6` of four scalars. */
  function RK4Mix(d1: real, d2: real, d3: real, d4: real): real
  {
    d1 / 6.0 + d2 / 3.0 + d3 / 3.0 + d4 / 6.0
  }

  lemma RK4WeightsScaled(d1: real, d2: real, d3: real, d4: real, x: Vec)
    ensures RK4Weights(Scale(d1, x), Scale(d2, x), Scale(d3, x), Scale(d4, x)) == Scale(RK4Mix(d1, d2, d3, d4), x)
  {
    var r := RK4Weights(Scale(d1, x), Scale(d2, x), Scale(d3, x), Scale(d4, x));
    var e := Scale(RK4Mix(d1, d2, d3, d4), x);
    forall i | 0 <= i < |x|
      ensures r[i] == e[i]
    {
      assert 1.0 / 6.0 * (d1 * x[i]) + 1.0 / 3.0 * (d2 * x[i]) + 1.0 / 3.0 * (d3 * x[i]) + 1.0 / 6.0 * (d4 * x[i])
          == RK4Mix(d1, d2, d3, d4) * x[i];
    }
  }

  /** The four RK4 stage slopes of a linear field, as multiples of the state,
      combine to the fourth-degree factor. */
  lemma RK4LinearFactor(k: real, dT: real, c: real, q2: real, d2: real, q3: real, d3: real, q4: real, d4: real, dw: real)
    requires c == 0.5 * dT
    requires q2 == 1.0 + c * k && d2 == k * q2
    requires q3 == 1.0 + c * d2 && d3 == k * q3
    requires q4 == 1.0 + dT * d3 && d4 == k * q4
    requires dw == RK4Mix(k, d2, d3, d4)
    ensures 1.0 + dT * dw == Growth(RK4, k * dT)
  {
    var h := k * dT;
    assert dT * d2 == h + h * h / 2.0;
    assert dT * d3 == h + h * h / 2.0 + h * h * h / 4.0;
    assert dT * d4 == h + h * h + h * h * h / 2.0 + h * h * h * h / 4.0;
  }

  /** Closes a step: a state `x + c·m` whose increment `m` is `e·x` is `g·x`
      when `1 + c·e = g`. */
  lemma Combine(st: Vec, x: Vec, c: real, m: Vec, e: real, g: real)
    requires m == Scale(e, x) && st == Add(x, Scale(c, m)) && 1.0 + c * e == g
    ensures st == Scale(g, x)
  {
    StagePoint(x, c, e);
  }

  /** The first slope of a linear field is `k·x`. */
  lemma LinearFirstSlope<P>(f: (Vec, Vec, P) --> Vec, tmu: Vec, bundle: P, k: real, x: Vec)
    requires IsLinearField(f, tmu, bundle, k, |x|)
    ensures KeepsShape(f, tmu, bundle, |x|)
    ensures f.requires(x, tmu, bundle) && f(x, tmu, bundle) == Scale(k, x)
  {
  }

  lemma LinearEuler<P>(f: (Vec, Vec, P) --> Vec, tmu: Vec, bundle: P, k: real, dT: real, x: Vec)
    requires IsLinearField(f, tmu, bundle, k, |x|)
    ensures KeepsShape(f, tmu, bundle, |x|)
    ensures Step(Euler, f, tmu, bundle, dT, x) == Scale(Growth(Euler, k * dT), x)
  {
    LinearFirstSlope(f, tmu, bundle, k, x);
    StagePoint(x, dT, k);
    assert 1.0 + dT * k == Growth(Euler, k * dT);
  }

  /** A stage of a linear field: at `x + c·(d·x)` the slope is `(k·(1 + c·d))·x`. */
  lemma LinearStage<P>(f: (Vec, Vec, P) --> Vec, tmu: Vec, bundle: P, k: real, x: Vec, c: real, kin: Vec, d: real, q: real, dout: real)
    requires IsLinearField(f, tmu, bundle, k, |x|)
    requires kin == Scale(d, x) && q == 1.0 + c * d && dout == k * q
    ensures Add(x, Scale(c, kin)) == Scale(q, x)
    ensures f.requires(Add(x, Scale(c, kin)), tmu, bundle) && f(Add(x, Scale(c, kin)), tmu, bundle) == Scale(dout, x)
  {
    StagePoint(x, c, d);
    LinearSlope(f, tmu, bundle, k, x, q);
  }

  lemma LinearMidpoint<P>(f: (Vec, Vec, P) --> Vec, tmu: Vec, bundle: P, k: real, dT: real, x: Vec)
    requires IsLinearField(f, tmu, bundle, k, |x|)
    ensures KeepsShape(f, tmu, bundle, |x|)
    ensures Step(Midpoint, f, tmu, bundle, dT, x) == Scale(Growth(Midpoint, k * dT), x)
  {
    LinearFirstSlope(f, tmu, bundle, k, x);
    var c := 0.5 * dT;
    var k1 := f(x, tmu, bundle);
    var q2 := 1.0 + c * k;
    var d2 := k * q2;
    LinearStage(f, tmu, bundle, k, x, c, k1, k, q2, d2);
    var k2 := f(Add(x, Scale(c, k1)), tmu, bundle);
    MidpointUnfold(f, tmu, bundle, dT, x, c, k1, k2);
    MidpointFactor(k, dT, c, q2, d2);
    Combine(Step(Midpoint, f, tmu, bundle, dT, x), x, dT, k2, d2, Growth(Midpoint, k * dT));
  }

  /** The Midpoint step spelled out over its two stage slopes. */
  lemma MidpointUnfold<P>(f: (Vec, Vec, P) --> Vec, tmu: Vec, bundle: P, dT: real, x: Vec, c: real, k1: Vec, k2: Vec)
    requires KeepsShape(f, tmu, bundle, |x|) && c == 0.5 * dT
    requires k1 == f(x, tmu, bundle)
    requires k2 == f(Add(x, Scale(c, k1)), tmu, bundle)
    ensures Step(Midpoint, f, tmu, bundle, dT, x) == Add(x, Scale(dT, k2))
  {
  }

  /** The Heun step spelled out over its two stage slopes. */
  lemma HeunUnfold<P>(f: (Vec, Vec, P) --> Vec, tmu: Vec, bundle: P, dT: real, x: Vec, c: real, k1: Vec, k2: Vec)
    requires KeepsShape(f, tmu, bundle, |x|) && c == dT * 0.5
    requires k1 == f(x, tmu, bundle)
    requires k2 == f(Add(x, Scale(dT, k1)), tmu, bundle)
    ensures Step(Heun, f, tmu, bundle, dT, x) == Add(x, Scale(c, Add(k1, k2)))
  {
  }

  lemma LinearHeun<P>(f: (Vec, Vec, P) --> Vec, tmu: Vec, bundle: P, k: real, dT: real, x: Vec)
    requires IsLinearField(f, tmu, bundle, k, |x|)
    ensures KeepsShape(f, tmu, bundle, |x|)
    ensures Step(Heun, f, tmu, bundle, dT, x) == Scale(Growth(Heun, k * dT), x)
  {
    LinearFirstSlope(f, tmu, bundle, k, x);
    var c, k1 := dT * 0.5, f(x, tmu, bundle);
    var q2 := 1.0 + dT * k;
    var d2 := k * q2;
    LinearStage(f, tmu, bundle, k, x, dT, k1, k, q2, d2);
    var k2 := f(Add(x, Scale(dT, k1)), tmu, bundle);
    HeunUnfold(f, tmu, bundle, dT, x, c, k1, k2);
    HeunClose(Step(Heun, f, tmu, bundle, dT, x), x, k, dT, c, q2, d2, k1, k2);
  }

  /** Closes a Heun step of a linear field from its two stage slopes. */
  lemma HeunClose(st: Vec, x: Vec, k: real, dT: real, c: real, q2: real, d2: real, k1: Vec, k2: Vec)
    requires c == dT * 0.5 && q2 == 1.0 + dT * k && d2 == k * q2
    requires k1 == Scale(k, x) && k2 == Scale(d2, x)
    requires st == Add(x, Scale(c, Add(k1, k2)))
    ensures st == Scale(Growth(Heun, k * dT), x)
  {
    var m, e, g := Add(k1, k2), k + d2, Growth(Heun, k * dT);
    AddScaled(k, d2, x);
    HeunFactor(k, dT, c, q2, d2);
    Combine(st, x, c, m, e, g);
  }

  /** The RK4 step spelled out over its four stage slopes. */
  lemma RK4Unfold<P>(f: (Vec, Vec, P) --> Vec, tmu: Vec, bundle: P, dT: real, x: Vec, c: real, k1: Vec, k2: Vec, k3: Vec, k4: Vec)
    requires KeepsShape(f, tmu, bundle, |x|) && c == 0.5 * dT
    requires k1 == f(x, tmu, bundle)
    requires k2 == f(Add(x, Scale(c, k1)), tmu, bundle)
    requires k3 == f(Add(x, Scale(c, k2)), tmu, bundle)
    requires k4 == f(Add(x, Scale(dT, k3)), tmu, bundle)
    ensures Step(RK4, f, tmu, bundle, dT, x) == Add(x, Scale(dT, RK4Weights(k1, k2, k3, k4)))
  {
  }

  lemma LinearRK4<P>(f: (Vec, Vec, P) --> Vec, tmu: Vec, bundle: P, k: real, dT: real, x: Vec)
    requires IsLinearField(f, tmu, bundle, k, |x|)
    ensures KeepsShape(f, tmu, bundle, |x|)
    ensures Step(RK4, f, tmu, bundle, dT, x) == Scale(Growth(RK4, k * dT), x)
  {
    LinearFirstSlope(f, tmu, bundle, k, x);
    var c := 0.5 * dT;
    var k1 := f(x, tmu, bundle);
    var q2 := 1.0 + c * k;
    var d2 := k * q2;
    LinearStage(f, tmu, bundle, k, x, c, k1, k, q2, d2);
    var k2 := f(Add(x, Scale(c, k1)), tmu, bundle);
    var q3 := 1.0 + c * d2;
    var d3 := k * q3;
    LinearStage(f, tmu, bundle, k, x, c, k2, d2, q3, d3);
    var k3 := f(Add(x, Scale(c, k2)), tmu, bundle);
    var q4 := 1.0 + dT * d3;
    var d4 := k * q4;
    LinearStage(f, tmu, bundle, k, x, dT, k3, d3, q4, d4);
    var k4 := f(Add(x, Scale(dT, k3)), tmu, bundle);
    var dw := RK4Mix(k, d2, d3, d4);
    RK4WeightsScaled(k, d2, d3, d4, x);
    RK4LinearFactor(k, dT, c, q2, d2, q3, d3, q4, d4, dw);
    RK4Unfold(f, tmu, bundle, dT, x, c, k1, k2, k3, k4);
    Combine(Step(RK4, f, tmu, bundle, dT, x), x, dT, RK4Weights(k1, k2, k3, k4), dw, Growth(RK4, k * dT));
  }

  /** For the linear field `v ↦ k·v` one step of `s` scales the state by
      `Growth(s, k·dT)`. */
  lemma LinearStep<P>(s: Solver, f: (Vec, Vec, P) --> Vec, tmu: Vec, bundle: P, k: real, dT: real, x: Vec)
    requires IsLinearField(f, tmu, bundle, k, |x|)
    ensures KeepsShape(f, tmu, bundle, |x|)
    ensures Step(s, f, tmu, bundle, dT, x) == Scale(Growth(s, k * dT), x)
  {
    match s
    case Euler => LinearEuler(f, tmu, bundle, k, dT, x);
    case Midpoint => LinearMidpoint(f, tmu, bundle, k, dT, x);
    case Heun => LinearHeun(f, tmu, bundle, k, dT, x);
    case RK4 => LinearRK4(f, tmu, bundle, k, dT, x);
  }

  lemma IterateSucc<P>(s: Solver, f: (Vec, Vec, P) --> Vec, tmu: Vec, bundle: P, dT: real, x: Vec, m: nat, n: nat)
    requires KeepsShape(f, tmu, bundle, |x|) && n == m + 1
    ensures Iterate(s, f, tmu, bundle, dT, x, n) == Step(s, f, tmu, bundle, dT, Iterate(s, f, tmu, bundle, dT, x, m))
  {
  }

  /** One more step of the linear flow: from `g^m·x` one step reaches `g^n·x`. */
  lemma LinearAdvance<P>(s: Solver, f: (Vec, Vec, P) --> Vec, tmu: Vec, bundle: P, k: real, dT: real, g: real, x: Vec, m: nat, n: nat)
    requires IsLinearField(f, tmu, bundle, k, |x|) && n == m + 1 && g == Growth(s, k * dT)
    requires KeepsShape(f, tmu, bundle, |x|)
    requires Iterate(s, f, tmu, bundle, dT, x, m) == Scale(Pow(g, m), x)
    ensures Iterate(s, f, tmu, bundle, dT, x, n) == Scale(Pow(g, n), x)
  {
    var prev := Iterate(s, f, tmu, bundle, dT, x, m);
    var st := Iterate(s, f, tmu, bundle, dT, x, n);
    IterateSucc(s, f, tmu, bundle, dT, x, m, n);
    LinearStep(s, f, tmu, bundle, k, dT, prev);
    Rescale(st, prev, x, g, m, n);
  }

  lemma PowSucc(g: real, m: nat, n: nat)
    requires n == m + 1
    ensures Pow(g, n) == g * Pow(g, m)
  {
  }

  /** Closes an iteration: `g·(g^m·x)` is `g^n·x` for `n = m + 1`. */
  lemma Rescale(st: Vec, prev: Vec, x: Vec, g: real, m: nat, n: nat)
    requires n == m + 1
    requires prev == Scale(Pow(g, m), x)
    requires st == Scale(g, prev)
    ensures st == Scale(Pow(g, n), x)
  {
    var p, pn := Pow(g, m), Pow(g, n);
    PowSucc(g, m, n);
    ScaleTwice(g, p, x);
    assert pn == g * p;
  }

  /** For the linear field `v ↦ k·v`, `n` steps of `s` scale the state by
      `Growth(s, k·dT)^n`. */
  lemma {:induction false} LinearIterate<P>(s: Solver, f: (Vec, Vec, P) --> Vec, tmu: Vec, bundle: P, k: real, dT: real, x: Vec, n: nat)
    requires IsLinearField(f, tmu, bundle, k, |x|)
    ensures KeepsShape(f, tmu, bundle, |x|)
    ensures Iterate(s, f, tmu, bundle, dT, x, n) == Scale(Pow(Growth(s, k * dT), n), x)
  {
    LinearStep(s, f, tmu, bundle, k, dT, x);
    if n == 0 {
      ScaleOne(x);
    } else {
      var m: nat := n - 1;
      LinearIterate(s, f, tmu, bundle, k, dT, x, m);
      var g := Growth(s, k * dT);
      LinearAdvance(s, f, tmu, bundle, k, dT, g, x, m, n);
    }
  }
}
