/** The right-hand side of the perturbation ODE (`get_dXdt`): an interaction
    term of degree 1 or 2 over the weight matrix `W`, fed through the envelope
    and combined with the perturbation `t_mu` in one of three coupling forms. */
module Dynamics {
  import opened Vectors
  import opened Config
  import opened Envelope

  /** `ode_degree`: 1 is `W·x`, 2 is `(W·x) ⊙ x`. */
  datatype Degree = Linear | Quadratic

  /** `envelop`: where `t_mu` enters. 0 inside the envelope, 1 after it at
      gain `eps`, 2 after it at its own gain `psi`. */
  datatype Coupling = Inside | Outside | Independent

  /** The derivative function `get_dXdt` returns: the chosen degree and
      coupling form, and the weight matrix its interaction term closes over. */
  datatype Kernel = Kernel(degree: Degree, coupling: Coupling, W: Matrix)

  /** The parameter bundle read at every evaluation: decay `alpha`, gain `eps`,
      perturbation gain `psi` (read by form 2 only) and the envelope. A scalar
      parameter is the constant vector. */
  datatype Params = Params(alpha: Vec, eps: Vec, psi: Vec, envelope: EnvelopeForm)

  function DegreeValue(d: Degree): int
  {
    match d
    case Linear => 1
    case Quadratic => 2
  }

  function CouplingValue(c: Coupling): int
  {
    match c
    case Inside => 0
    case Outside => 1
    case Independent => 2
  }

  /** Picks the interaction degree, then the coupling form; the degree is
      checked first, and each illegal value fails with its own error. */
  function GetDXdt(odeDegree: int, envelop: int, W: Matrix): (r: Result<Kernel>)
    ensures r.Ok? <==> odeDegree in {1, 2} && envelop in {0, 1, 2}
    ensures odeDegree !in {1, 2} ==> r == Err(IllegalDegree(odeDegree))
    ensures odeDegree in {1, 2} && envelop !in {0, 1, 2} ==> r == Err(IllegalCoupling(envelop))
    ensures r.Ok? ==>
      && DegreeValue(r.value.degree) == odeDegree
      && CouplingValue(r.value.coupling) == envelop
      && r.value.W == W
  {
    var degree :=
      if odeDegree == 1 then Ok(Linear)
      else if odeDegree == 2 then Ok(Quadratic)
      else Err(IllegalDegree(odeDegree));
    if degree.Err? then Err(degree.error)
    else if envelop == 0 then Ok(Kernel(degree.value, Inside, W))
    else if envelop == 1 then Ok(Kernel(degree.value, Outside, W))
    else if envelop == 2 then Ok(Kernel(degree.value, Independent, W))
    else Err(IllegalCoupling(envelop))
  }

  /** Every degree and coupling form is selectable by its numeric value. */
  lemma GetDXdtRoundTrip(d: Degree, c: Coupling, W: Matrix)
    ensures GetDXdt(DegreeValue(d), CouplingValue(c), W) == Ok(Kernel(d, c, W))
  {
  }

  /** `get_dXdt` exactly as written. Before returning form 2 it evaluates
      `tf.Variable(np.ones((n_x, 1)), ...)`, and neither `np` nor `n_x` is
      bound in the module, so that branch raises a NameError on `np`. */
  function GetDXdtAsWritten(odeDegree: int, envelop: int, W: Matrix): (r: Result<Kernel>)
    ensures !(odeDegree in {1, 2} && envelop == 2) ==> r == GetDXdt(odeDegree, envelop, W)
    ensures odeDegree !in {1, 2} ==> r == Err(IllegalDegree(odeDegree))
    ensures odeDegree in {1, 2} && envelop == 2 ==> r == Err(UndefinedName("np"))
  {
    if odeDegree != 1 && odeDegree != 2 then Err(IllegalDegree(odeDegree))
    else if envelop == 2 then Err(UndefinedName("np"))
    else GetDXdt(odeDegree, envelop, W)
  }

  /** As written, form 2 can never be selected, and the corrected selector
      (the one the rest of the model uses) selects it. */
  lemma FormTwoNeverSelectedAsWritten(odeDegree: int, W: Matrix)
    ensures GetDXdtAsWritten(odeDegree, 2, W).Err?
    ensures odeDegree in {1, 2} ==> GetDXdt(odeDegree, 2, W).Ok?
    ensures GetDXdtAsWritten(1, 2, [[0.0]]) == Err(UndefinedName("np"))
    ensures GetDXdt(1, 2, [[0.0]]) == Ok(Kernel(Linear, Independent, [[0.0]]))
  {
  }

  /** The shapes the kernel's tensor operations need for state length `n`:
      `W` is n×n, `alpha` and `eps` have length n, and so does `psi` when
      form 2 reads it. */
  predicate Shaped(dyn: Kernel, p: Params, n: nat)
  {
    && |dyn.W| == n && Conforms(dyn.W, n)
    && |p.alpha| == n && |p.eps| == n
    && (dyn.coupling == Independent ==> |p.psi| == n)
  }

  /** The weighted sum: entry i is row i of `W` dotted with `x`, times `x[i]`
      for degree 2. */
  function Interaction(d: Degree, W: Matrix, x: Vec): (r: Vec)
    requires |W| == |x| && Conforms(W, |x|)
    ensures |r| == |x|
    ensures d == Linear ==> forall i :: 0 <= i < |x| ==> r[i] == Dot(W[i], x)
    ensures d == Quadratic ==> forall i :: 0 <= i < |x| ==> r[i] == Dot(W[i], x) * x[i]
  {
    match d
    case Linear => MatVec(W, x)
    case Quadratic => Mul(MatVec(W, x), x)
  }

  /** The envelope applied entrywise. */
  function EnvVec(e: EnvelopeForm, tanh: real -> real, v: Vec): (r: Vec)
    ensures |r| == |v|
    ensures forall i :: 0 <= i < |v| ==> r[i] == Env(e, tanh, v[i])
  {
    seq(|v|, i requires 0 <= i < |v| => Env(e, tanh, v[i]))
  }

  /** Form 0, `eps ⊙ env(s + tmu) − alpha ⊙ x`: the perturbation enters
      inside the envelope, jointly with the interaction term `s`. */
  function CoupleInside(e: EnvelopeForm, tanh: real -> real, s: Vec, x: Vec, tmu: Vec, p: Params): (r: Vec)
    requires |s| == |x| == |tmu| == |p.alpha| == |p.eps|
    ensures |r| == |x|
    ensures forall i :: 0 <= i < |x| ==>
      r[i] == p.eps[i] * Env(e, tanh, s[i] + tmu[i]) - p.alpha[i] * x[i]
  {
    Sub(Mul(p.eps, EnvVec(e, tanh, Add(s, tmu))), Mul(p.alpha, x))
  }

  /** Form 1, `eps ⊙ (env(s) + tmu) − alpha ⊙ x`: the perturbation is added
      after the envelope, at the same gain. */
  function CoupleOutside(e: EnvelopeForm, tanh: real -> real, s: Vec, x: Vec, tmu: Vec, p: Params): (r: Vec)
    requires |s| == |x| == |tmu| == |p.alpha| == |p.eps|
    ensures |r| == |x|
    ensures forall i :: 0 <= i < |x| ==>
      r[i] == p.eps[i] * (Env(e, tanh, s[i]) + tmu[i]) - p.alpha[i] * x[i]
  {
    Sub(Mul(p.eps, Add(EnvVec(e, tanh, s), tmu)), Mul(p.alpha, x))
  }

  /** Form 2, `eps ⊙ env(s) + psi ⊙ tmu − alpha ⊙ x`: the perturbation is
      added after the envelope, at its own gain `psi`. */
  function CoupleIndependent(e: EnvelopeForm, tanh: real -> real, s: Vec, x: Vec, tmu: Vec, p: Params): (r: Vec)
    requires |s| == |x| == |tmu| == |p.alpha| == |p.eps| == |p.psi|
    ensures |r| == |x|
    ensures forall i :: 0 <= i < |x| ==>
      r[i] == p.eps[i] * Env(e, tanh, s[i]) + p.psi[i] * tmu[i] - p.alpha[i] * x[i]
  {
    Sub(Add(Mul(p.eps, EnvVec(e, tanh, s)), Mul(p.psi, tmu)), Mul(p.alpha, x))
  }

  /** dx/dt at state `x` under perturbation `tmu`: the interaction term of
      the chosen degree, over the captured `W`, through the coupling form. */
  function Derivative(dyn: Kernel, tanh: real -> real, x: Vec, tmu: Vec, p: Params): (r: Vec)
    requires Shaped(dyn, p, |x|) && |tmu| == |x|
    ensures |r| == |x|
  {
    var s := Interaction(dyn.degree, dyn.W, x);
    match dyn.coupling
    case Inside => CoupleInside(p.envelope, tanh, s, x, tmu, p)
    case Outside => CoupleOutside(p.envelope, tanh, s, x, tmu, p)
    case Independent => CoupleIndependent(p.envelope, tanh, s, x, tmu, p)
  }

  /** The unperturbed right-hand side `eps ⊙ env(s) − alpha ⊙ x`. */
  function Unperturbed(e: EnvelopeForm, tanh: real -> real, s: Vec, x: Vec, p: Params): (r: Vec)
    requires |s| == |x| == |p.alpha| == |p.eps|
    ensures |r| == |x|
    ensures forall i :: 0 <= i < |x| ==> r[i] == p.eps[i] * Env(e, tanh, s[i]) - p.alpha[i] * x[i]
  {
    Sub(Mul(p.eps, EnvVec(e, tanh, s)), Mul(p.alpha, x))
  }

  lemma InsideAtZero(e: EnvelopeForm, tanh: real -> real, s: Vec, x: Vec, tmu: Vec, p: Params)
    requires |s| == |x| == |tmu| == |p.alpha| == |p.eps| && IsZero(tmu)
    ensures CoupleInside(e, tanh, s, x, tmu, p) == Unperturbed(e, tanh, s, x, p)
  {
    var r, b := CoupleInside(e, tanh, s, x, tmu, p), Unperturbed(e, tanh, s, x, p);
    forall i | 0 <= i < |x|
      ensures r[i] == b[i]
    {
      assert s[i] + tmu[i] == s[i];
    }
  }

  lemma OutsideAtZero(e: EnvelopeForm, tanh: real -> real, s: Vec, x: Vec, tmu: Vec, p: Params)
    requires |s| == |x| == |tmu| == |p.alpha| == |p.eps| && IsZero(tmu)
    ensures CoupleOutside(e, tanh, s, x, tmu, p) == Unperturbed(e, tanh, s, x, p)
  {
    var r, b := CoupleOutside(e, tanh, s, x, tmu, p), Unperturbed(e, tanh, s, x, p);
    forall i | 0 <= i < |x|
      ensures r[i] == b[i]
    {
      assert Env(e, tanh, s[i]) + tmu[i] == Env(e, tanh, s[i]);
    }
  }

  lemma IndependentAtZero(e: EnvelopeForm, tanh: real -> real, s: Vec, x: Vec, tmu: Vec, p: Params)
    requires |s| == |x| == |tmu| == |p.alpha| == |p.eps| == |p.psi| && IsZero(tmu)
    ensures CoupleIndependent(e, tanh, s, x, tmu, p) == Unperturbed(e, tanh, s, x, p)
  {
    var r, b := CoupleIndependent(e, tanh, s, x, tmu, p), Unperturbed(e, tanh, s, x, p);
    forall i | 0 <= i < |x|
      ensures r[i] == b[i]
    {
      assert p.psi[i] * tmu[i] == 0.0;
    }
  }

  /** With no perturbation, every coupling form reduces to
      eps ⊙ env(interaction(x)) − alpha ⊙ x. */
  lemma ZeroPerturbationReduces(dyn: Kernel, tanh: real -> real, x: Vec, tmu: Vec, p: Params)
    requires Shaped(dyn, p, |x|) && |tmu| == |x|
    requires IsZero(tmu)
    ensures Derivative(dyn, tanh, x, tmu, p)
         == Unperturbed(p.envelope, tanh, Interaction(dyn.degree, dyn.W, x), x, p)
  {
    var s := Interaction(dyn.degree, dyn.W, x);
    match dyn.coupling
    case Inside => InsideAtZero(p.envelope, tanh, s, x, tmu, p);
    case Outside => OutsideAtZero(p.envelope, tanh, s, x, tmu, p);
    case Independent => IndependentAtZero(p.envelope, tanh, s, x, tmu, p);
  }

  /** With no perturbation the three coupling forms give the same derivative. */
  lemma ZeroPerturbationAgree(d: Degree, W: Matrix, tanh: real -> real, x: Vec, tmu: Vec, p: Params)
    requires Shaped(Kernel(d, Independent, W), p, |x|) && |tmu| == |x|
    requires IsZero(tmu)
    ensures Derivative(Kernel(d, Outside, W), tanh, x, tmu, p)
         == Derivative(Kernel(d, Inside, W), tanh, x, tmu, p)
    ensures Derivative(Kernel(d, Independent, W), tanh, x, tmu, p)
         == Derivative(Kernel(d, Inside, W), tanh, x, tmu, p)
  {
    ZeroPerturbationReduces(Kernel(d, Inside, W), tanh, x, tmu, p);
    ZeroPerturbationReduces(Kernel(d, Outside, W), tanh, x, tmu, p);
    ZeroPerturbationReduces(Kernel(d, Independent, W), tanh, x, tmu, p);
  }

  /** Form 1 is form 2 with the perturbation gain `psi` set to `eps`. */
  lemma OutsideIsIndependentAtGain(d: Degree, W: Matrix, tanh: real -> real, x: Vec, tmu: Vec, p: Params)
    requires Shaped(Kernel(d, Outside, W), p, |x|) && |tmu| == |x|
    ensures Derivative(Kernel(d, Outside, W), tanh, x, tmu, p)
         == Derivative(Kernel(d, Independent, W), tanh, x, tmu, p.(psi := p.eps))
  {
    var s := Interaction(d, W, x);
    CoupleOutsideAtGain(p.envelope, tanh, s, x, tmu, p);
  }

  lemma CoupleOutsideAtGain(e: EnvelopeForm, tanh: real -> real, s: Vec, x: Vec, tmu: Vec, p: Params)
    requires |s| == |x| == |tmu| == |p.alpha| == |p.eps|
    ensures CoupleOutside(e, tanh, s, x, tmu, p) == CoupleIndependent(e, tanh, s, x, tmu, p.(psi := p.eps))
  {
    var q := p.(psi := p.eps);
    var r1 := CoupleOutside(e, tanh, s, x, tmu, p);
    var r2 := CoupleIndependent(e, tanh, s, x, tmu, q);
    forall i | 0 <= i < |x|
      ensures r1[i] == r2[i]
    {
      var a, v, t := p.eps[i], Env(e, tanh, s[i]), tmu[i];
      assert a * (v + t) == a * v + a * t;
    }
  }

  /** The origin is an equilibrium of the unperturbed system, for every
      degree, coupling form and (odd) envelope. */
  lemma OriginIsEquilibrium(dyn: Kernel, tanh: real -> real, x: Vec, tmu: Vec, p: Params)
    requires Shaped(dyn, p, |x|) && |tmu| == |x|
    requires IsZero(x) && IsZero(tmu)
    requires p.envelope.Tanh? ==> IsOdd(tanh)
    ensures IsZero(Derivative(dyn, tanh, x, tmu, p))
  {
    var s := Interaction(dyn.degree, dyn.W, x);
    EnvelopeAtZero(p.envelope, tanh);
    forall i | 0 <= i < |x|
      ensures s[i] == 0.0
    {
      DotZero(dyn.W[i], x);
    }
    ZeroPerturbationReduces(dyn, tanh, x, tmu, p);
    var base := Unperturbed(p.envelope, tanh, s, x, p);
    forall i | 0 <= i < |x|
      ensures base[i] == 0.0
    {
      assert Env(p.envelope, tanh, s[i]) == 0.0;
      assert x[i] == 0.0;
    }
  }
}
