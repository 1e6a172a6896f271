/** The envelope nonlinearity (`get_envelop`): the hyperbolic tangent, or the
    polynomial/Hill response `x^k / (1 + |x|^k)` with a sign correction for
    even `k`. The hyperbolic tangent is transcendental: it is passed in as a
    function value `tanh`, and only its odd symmetry is assumed, where needed. */
module Envelope {
  import opened Vectors
  import opened Config

  /** The envelope chosen by `envelop_form`; `Hill(k)` carries `polynomial_k`. */
  datatype EnvelopeForm = Tanh | Hill(k: nat)

  /** The form names `get_envelop` accepts. */
  const EnvelopForms: set<string> := {"tanh", "polynomial", "hill"}

  /** Picks the envelope, or fails for a form name outside the legal set. */
  function GetEnvelop(form: string, k: nat): (r: Result<EnvelopeForm>)
    ensures r.Ok? <==> form in EnvelopForms
    ensures r.Err? ==> r.error == IllegalEnvelop(form)
    ensures form == "tanh" ==> r == Ok(Tanh)
    ensures form in EnvelopForms - {"tanh"} ==> r == Ok(Hill(k))
  {
    if form == "tanh" then Ok(Tanh)
    else if form == "polynomial" || form == "hill" then Ok(Hill(k))
    else Err(IllegalEnvelop(form))
  }

  /** A canonical form name for each envelope. */
  function FormName(e: EnvelopeForm): string
  {
    match e
    case Tanh => "tanh"
    case Hill(_) => "hill"
  }

  /** Every envelope is selectable, and a successful selection is named by
      `FormName` up to the `polynomial`/`hill` synonym. */
  lemma EnvelopRoundTrip(e: EnvelopeForm, form: string, k: nat)
    ensures GetEnvelop(FormName(e), if e.Hill? then e.k else k) == Ok(e)
    ensures GetEnvelop(form, k).Ok? ==>
      var e' := GetEnvelop(form, k).value;
      form == FormName(e') || (e'.Hill? && form == "polynomial")
  {
  }

  /** The Hill denominator: `1 + |x|^k` for odd `k`, `1 + x^k` for even `k`. */
  function HillDenominator(k: nat, x: real): (d: real)
    ensures d >= 1.0
  {
    if k % 2 == 1 then
      PowOfNonneg(Abs(x), k);
      1.0 + Pow(Abs(x), k)
    else
      PowEven(x, k);
      1.0 + Pow(x, k)
  }

  /** The polynomial/Hill envelope at `x`: `x^k / (1 + |x|^k)` for odd `k`,
      `x^k / (1 + x^k) · sign(x)` for even `k`. Both branches are the one odd
      saturating response `sign(x) · |x|^k / (1 + |x|^k)` (the denominator is
      `1 + |x|^k` for either parity, lemma HillDenominatorIsAbs). */
  function HillEnv(k: nat, x: real): (r: real)
    ensures r == Pow(Abs(x), k) / HillDenominator(k, x) * Sign(x)
  {
    HillClosedForm(k, x);
    if k % 2 == 1 then Pow(x, k) / HillDenominator(k, x)
    else Pow(x, k) / HillDenominator(k, x) * Sign(x)
  }

  lemma HillClosedForm(k: nat, x: real)
    ensures k % 2 == 1 ==>
      Pow(x, k) / HillDenominator(k, x) == Pow(Abs(x), k) / HillDenominator(k, x) * Sign(x)
    ensures k % 2 == 0 ==>
      Pow(x, k) / HillDenominator(k, x) * Sign(x) == Pow(Abs(x), k) / HillDenominator(k, x) * Sign(x)
  {
    PowBySign(x, k);
    var p, d := Pow(Abs(x), k), HillDenominator(k, x);
    if k % 2 == 1 {
      if x > 0.0 {
        assert Pow(x, k) == p;
      } else if x < 0.0 {
        assert Pow(x, k) == -p;
        assert -p / d == -(p / d);
      } else {
        assert Pow(x, k) == 0.0;
      }
    }
  }

  /** The envelope at `x`, with `tanh` standing for the hyperbolic tangent.
      The Hill envelopes saturate: they stay strictly inside (-1, 1) and keep
      the sign of their argument. */
  function Env(e: EnvelopeForm, tanh: real -> real, x: real): (r: real)
    ensures e.Tanh? ==> r == tanh(x)
    ensures e.Hill? ==> r == HillEnv(e.k, x) && -1.0 < r < 1.0 && Sign(r) == Sign(x)
  {
    match e
    case Tanh => tanh(x)
    case Hill(k) =>
      HillBounded(k, x);
      HillSign(k, x);
      HillEnv(k, x)
  }

  ghost predicate IsOdd(f: real -> real)
  {
    forall x :: f(-x) == -f(x)
  }

  /** Both denominators agree: `1 + |x|^k` whatever the parity of `k`. */
  lemma HillDenominatorIsAbs(k: nat, x: real)
    ensures HillDenominator(k, x) == 1.0 + Pow(Abs(x), k)
  {
    if k % 2 == 0 {
      PowEven(x, k);
    }
  }

  /** The polynomial/Hill envelope is odd, for either parity of `k`. */
  lemma HillOdd(k: nat, x: real)
    ensures HillEnv(k, -x) == -HillEnv(k, x)
  {
    HillDenominatorIsAbs(k, x);
    HillDenominatorIsAbs(k, -x);
    assert Abs(-x) == Abs(x);
    PowOfNeg(x, k);
  }

  /** Every envelope is odd, given that `tanh` is. */
  lemma EnvelopeOdd(e: EnvelopeForm, tanh: real -> real, x: real)
    requires e.Tanh? ==> IsOdd(tanh)
    ensures Env(e, tanh, -x) == -Env(e, tanh, x)
  {
    if e.Hill? {
      HillOdd(e.k, x);
    }
  }

  /** The magnitude of the Hill envelope is `|x|^k / (1 + |x|^k)` (at `x = 0`
      with `k = 0` the sign factor makes it zero instead). */
  lemma HillMagnitude(k: nat, x: real)
    requires k > 0 || x != 0.0
    ensures Pow(Abs(x), k) >= 0.0
    ensures Abs(HillEnv(k, x)) == Pow(Abs(x), k) / (1.0 + Pow(Abs(x), k))
  {
    HillDenominatorIsAbs(k, x);
    PowOfAbs(x, k);
    PowOfNonneg(Abs(x), k);
    var p, d := Pow(x, k), 1.0 + Pow(Abs(x), k);
    if k % 2 == 1 {
      assert Abs(p / d) == Abs(p) / d;
    } else {
      PowEven(x, k);
      if x == 0.0 {
        assert Pow(x, k) == 0.0 by {
          assert Pow(x, k) == x * Pow(x, k - 1);
        }
      } else {
        assert Abs(p / d * Sign(x)) == p / d;
      }
    }
  }

  /** The Hill envelope has the sign of its argument. */
  lemma HillSign(k: nat, x: real)
    ensures Sign(HillEnv(k, x)) == Sign(x)
  {
    HillDenominatorIsAbs(k, x);
    var p, d := Pow(x, k), HillDenominator(k, x);
    if x == 0.0 {
      if k > 0 {
        assert p == x * Pow(x, k - 1);
      }
    } else if k % 2 == 1 {
      PowOfNeg(x, k);
      PowOfNonneg(Abs(x), k);
      PowOfAbs(x, k);
      assert p != 0.0;
      assert x > 0.0 ==> p > 0.0;
      assert x < 0.0 ==> p < 0.0 by {
        if x < 0.0 {
          PowOfNonneg(-x, k);
        }
      }
    } else {
      PowEven(x, k);
      PowOfNonneg(Abs(x), k);
      assert p > 0.0;
    }
  }

  /** A saturating ratio: `q / (1 + q)` lies in [0, 1) for `q >= 0`. */
  lemma SaturatingRatio(q: real)
    requires q >= 0.0
    ensures 0.0 <= q / (1.0 + q) < 1.0
  {
    var r := q / (1.0 + q);
    assert r * (1.0 + q) == q;
    assert 1.0 - r == 1.0 / (1.0 + q);
  }

  /** The Hill envelope is strictly bounded by 1 in magnitude. */
  lemma HillBounded(k: nat, x: real)
    ensures -1.0 < HillEnv(k, x) < 1.0
  {
    if k > 0 || x != 0.0 {
      HillMagnitude(k, x);
      SaturatingRatio(Pow(Abs(x), k));
    } else {
      HillSign(k, x);
    }
  }

  /** Every envelope vanishes at zero, given that `tanh` is odd. */
  lemma EnvelopeAtZero(e: EnvelopeForm, tanh: real -> real)
    requires e.Tanh? ==> IsOdd(tanh)
    ensures Env(e, tanh, 0.0) == 0.0
  {
    EnvelopeOdd(e, tanh, 0.0);
    assert -0.0 == 0.0;
  }
}
