# CellBox kernel: perturbation ODE, envelopes and fixed-step solvers

This project models the numerical kernel of pertbio, a CellBox-style model of
cellular responses to perturbations. A cell state `x` of N molecular nodes
evolves under

    dx/dt = eps ⊙ φ(W·x [⊙ x] …) − alpha ⊙ x

driven by a constant perturbation `t_mu`. The kernel is built from three
selectors and four integrators:

- `get_envelop` picks the saturating nonlinearity φ. It is either tanh or the
  polynomial/Hill response `x^k / (1 + abs(x)^k)`; for even `k` that response is
  written `x^k / (1 + x^k) · sign(x)`.
- `get_dXdt` picks the interaction degree (`W·x` or `(W·x) ⊙ x`). It also
  picks one of three ways the perturbation couples in:
  - form 0: inside the envelope;
  - form 1: after the envelope, at gain `eps`;
  - form 2: after the envelope, at its own gain `psi`.
- `get_ode_solver` picks Euler, Midpoint, Heun or RK4.
- Each solver runs `n_T` steps of width `dT` (none when `n_T` is negative, as
  `range` gives). It keeps the trajectory as one flat column: the initial
  state, followed by each new state in turn.

Modules, one per file:

- `Vectors`: dense real vectors, matrices, absolute value, sign and integer powers.
- `Config`: configuration errors and `Result`.
- `Envelope`: `get_envelop` and the properties of the Hill envelope.
- `Dynamics`: `get_dXdt`, the interaction term, the three coupling forms and
  how they relate.
- `Solvers`: `get_ode_solver`, the step rules, the four solvers as loops over
  the flat trajectory, and the trajectory layout.
- `SolverProperties`: what the four step rules do on a constant field and on
  a linear field.
- `Scenario`: the selectors and a solver wired together. It covers the
  one-node decay example.

The solvers take any derivative function value `dXdt(x, t_mu, bundle)` that
maps states of length N to states of length N. What is proved about them
therefore holds for every right-hand side, not only the kernel's.

## Model

| member | source | states |
|---|---|---|
| Envelope.GetEnvelop | pertbio/pertbio/kernel.py:4-14 | succeeds exactly for `tanh`, `polynomial` and `hill`; `tanh` gives tanh, the other two give the Hill envelope with the configured `k`; any other name fails with an illegal-envelope error naming the form |
| Envelope.EnvelopRoundTrip | pertbio/pertbio/kernel.py:4-14 | every envelope is selectable by its form name; a successful selection is named by its form, with `polynomial` as a synonym of `hill` |
| Envelope.HillEnv | pertbio/pertbio/kernel.py:9-12 | the odd-`k` branch `x^k / (1 + abs(x)^k)` and the even-`k` branch `x^k / (1 + x^k) · sign(x)` are both `sign(x) · abs(x)^k` over the Hill denominator: one odd saturating response |
| Envelope.Env | pertbio/pertbio/kernel.py:4-12 | the selected envelope at `x`: tanh for `Tanh`; for `Hill(k)` the Hill envelope, which lies strictly between −1 and 1 and has the sign of `x` |
| Envelope.HillDenominator | pertbio/pertbio/kernel.py:9-12 | the Hill denominator, `1 + abs(x)^k` for odd `k` and `1 + x^k` for even `k`, is at least 1, so the envelope never divides by zero |
| Envelope.HillDenominatorIsAbs | pertbio/pertbio/kernel.py:9-12 | both parities' denominators equal `1 + abs(x)^k` |
| Envelope.HillOdd | pertbio/pertbio/kernel.py:9-12 | the Hill envelope is odd, `φ(−x) = −φ(x)`, for odd and even `k` |
| Envelope.EnvelopeOdd | pertbio/pertbio/kernel.py:4-12 | every selectable envelope is odd, given that tanh is |
| Envelope.HillMagnitude | pertbio/pertbio/kernel.py:9-12 | away from the degenerate point `k = 0, x = 0`, the magnitude of the Hill envelope is `abs(x)^k / (1 + abs(x)^k)` |
| Envelope.HillSign | pertbio/pertbio/kernel.py:9-12 | the Hill envelope has the sign of its argument |
| Envelope.HillBounded | pertbio/pertbio/kernel.py:9-12 | the Hill envelope lies strictly between −1 and 1 |
| Envelope.EnvelopeAtZero | pertbio/pertbio/kernel.py:4-12 | every envelope vanishes at 0, given that tanh is odd |
| Dynamics.GetDXdt | pertbio/pertbio/kernel.py:16-36 | succeeds exactly for degree 1 or 2 and form 0, 1 or 2; the degree is checked first; an illegal degree or form fails with its own error carrying the value; a success carries the chosen degree, form and the `W` captured at selection |
| Dynamics.GetDXdtRoundTrip | pertbio/pertbio/kernel.py:16-36 | every degree and coupling form is selected by exactly its numeric value |
| Dynamics.GetDXdtAsWritten | pertbio/pertbio/kernel.py:16-36 | the selector as written: an illegal degree fails with the degree error first, whatever the form; a legal degree with form 2 fails on the unbound name `np`; every other input gives what the corrected selector gives |
| Dynamics.FormTwoNeverSelectedAsWritten | pertbio/pertbio/kernel.py:31-34 | as written, form 2 is never returned for any degree; the corrected selector returns it for both legal degrees; `ode_degree = 1, envelop = 2` is a concrete witness |
| Dynamics.Interaction | pertbio/pertbio/kernel.py:18-21 | entry i of the weighted sum is row i of `W` dotted with `x`; for degree 2 it is also multiplied by `x[i]` |
| Dynamics.CoupleInside | pertbio/pertbio/kernel.py:25-27 | form 0, entrywise `eps_i·φ(s_i + t_mu_i) − alpha_i·x_i` |
| Dynamics.CoupleOutside | pertbio/pertbio/kernel.py:28-30 | form 1, entrywise `eps_i·(φ(s_i) + t_mu_i) − alpha_i·x_i` |
| Dynamics.CoupleIndependent | pertbio/pertbio/kernel.py:31-34 | form 2, entrywise `eps_i·φ(s_i) + psi_i·t_mu_i − alpha_i·x_i` |
| Dynamics.EnvVec | pertbio/pertbio/kernel.py:25-34 | the envelope applied entrywise: same length, entry i is `φ(v_i)` |
| Dynamics.Derivative | pertbio/pertbio/kernel.py:16-34 | the derivative of the chosen degree and form keeps the state length |
| Dynamics.Unperturbed | pertbio/pertbio/kernel.py:25-34 | the unperturbed right-hand side, entrywise `eps_i·φ(s_i) − alpha_i·x_i` |
| Dynamics.InsideAtZero | pertbio/pertbio/kernel.py:25-27 | with `t_mu = 0`, form 0 is the unperturbed system |
| Dynamics.OutsideAtZero | pertbio/pertbio/kernel.py:28-30 | with `t_mu = 0`, form 1 is the unperturbed system |
| Dynamics.IndependentAtZero | pertbio/pertbio/kernel.py:31-34 | with `t_mu = 0`, form 2 is the unperturbed system, whatever `psi` is |
| Dynamics.ZeroPerturbationReduces | pertbio/pertbio/kernel.py:16-34 | with `t_mu = 0`, every derivative is the unperturbed system over its interaction term |
| Dynamics.ZeroPerturbationAgree | pertbio/pertbio/kernel.py:25-34 | with `t_mu = 0`, all three forms give the same derivative |
| Dynamics.OutsideIsIndependentAtGain | pertbio/pertbio/kernel.py:28-34 | form 1 is form 2 with `psi` set to `eps` |
| Dynamics.CoupleOutsideAtGain | pertbio/pertbio/kernel.py:28-34 | the same identity for the coupling terms over any interaction term |
| Dynamics.OriginIsEquilibrium | pertbio/pertbio/kernel.py:16-34 | with `x = 0` and `t_mu = 0`, every degree and form has zero derivative (tanh odd) |
| Solvers.GetOdeSolver | pertbio/pertbio/kernel.py:38-48 | succeeds exactly for `heun`, `euler`, `rk4` and `midpoint`, with the solver of that name; any other name fails with an illegal-solver error naming it |
| Solvers.SolverNameRoundTrip | pertbio/pertbio/kernel.py:38-48 | each solver is selected by its own name |
| Solvers.Step | pertbio/pertbio/kernel.py:50-85 | one step of the chosen rule (the stages of lines 53-55, 62-63, 70-72 and 79-83) keeps the state length N |
| Solvers.StepAtEquilibrium | pertbio/pertbio/kernel.py:50-85 | at a state where `dXdt` is zero, every rule's step returns that state unchanged |
| Solvers.RK4Weights | pertbio/pertbio/kernel.py:83 | the weighted slope `1/6·k1 + 1/3·k2 + 1/3·k3 + 1/6·k4` keeps the slope length |
| Solvers.RK4WeightsMean | pertbio/pertbio/kernel.py:83 | entry i of the weighted slope is `k1_i/6 + k2_i/3 + k3_i/3 + k4_i/6`; the weights sum to one, so four equal slopes give that slope |
| Solvers.Iterate | pertbio/pertbio/kernel.py:52-55 | the state after i rebindings of `x` by the step rule keeps the state length N |
| Solvers.IterateAtEquilibrium | pertbio/pertbio/kernel.py:52-55 | a state where `dXdt` is zero stays unchanged for any number of steps of any rule |
| Solvers.RangeLength | pertbio/pertbio/kernel.py:52 | `range(n_T)` runs `n_T` iterations, and none when `n_T` is zero or negative |
| Solvers.Flatten | pertbio/pertbio/kernel.py:56 | the states stacked in order into one column (no contract of its own; see the next rows) |
| Solvers.FlattenHead | pertbio/pertbio/kernel.py:51-56 | the flat column of m states of length N has `m·N` entries and starts with the first state; one state is its own column |
| Solvers.Trajectory | pertbio/pertbio/kernel.py:50-85 | an `n`-step run has `n + 1` states, and state i is the i-th iterate of the step rule |
| Solvers.FlattenIndex | pertbio/pertbio/kernel.py:56 | stacking states of length N puts entry j of state i at position `i·N + j` |
| Solvers.TrajectoryLayout | pertbio/pertbio/kernel.py:50-85 | the flat trajectory of an `n`-step run has `(n + 1)·N` entries, and state i occupies rows `i·N … i·N + N − 1` |
| Solvers.TrajectoryShape | pertbio/pertbio/kernel.py:50-85 | the flat trajectory starts with the initial state; with `n_T = 0` it is the initial state alone |
| Solvers.TrajectoryGrows | pertbio/pertbio/kernel.py:56 | each step appends exactly the next state to the flat trajectory |
| Solvers.HeunSolver | pertbio/pertbio/kernel.py:50-57 | returns the flat trajectory of `max(n_T, 0)` Heun steps (predictor `x + dT·k1`, then `x + dT/2·(k1 + k2)`) with `t_mu` and the bundle fixed; for `n_T ≤ 0` that is `x` alone |
| Solvers.EulerSolver | pertbio/pertbio/kernel.py:59-65 | returns the flat trajectory of `max(n_T, 0)` Euler steps `x + dT·f(x)`; for `n_T ≤ 0` that is `x` alone |
| Solvers.MidpointSolver | pertbio/pertbio/kernel.py:67-74 | returns the flat trajectory of `max(n_T, 0)` Midpoint steps `x + dT·f(x + dT/2·f(x))`; for `n_T ≤ 0` that is `x` alone |
| Solvers.RK4Solver | pertbio/pertbio/kernel.py:76-85 | returns the flat trajectory of `max(n_T, 0)` classic RK4 steps with weights 1/6, 1/3, 1/3, 1/6; for `n_T ≤ 0` that is `x` alone |
| Solvers.Solve | pertbio/pertbio/kernel.py:38-85 | the selected solver returns its flat trajectory of `max(n_T, 0)` steps, of length `(max(n_T, 0) + 1)·N` and starting with `x`; for `n_T ≤ 0` it is `x` alone |
| SolverProperties.ConstantFieldStep | pertbio/pertbio/kernel.py:50-85 | for a constant field `c`, every step rule takes Euler's step `x + dT·c` |
| SolverProperties.ConstantFieldIterate | pertbio/pertbio/kernel.py:50-85 | for a constant field, every solver is exact: after n steps the state is `x + (n·dT)·c` |
| SolverProperties.LinearEuler | pertbio/pertbio/kernel.py:59-65 | for `f(v) = k·v`, an Euler step multiplies the state by `1 + h`, with `h = k·dT` |
| SolverProperties.LinearMidpoint | pertbio/pertbio/kernel.py:67-74 | for `f(v) = k·v`, a Midpoint step multiplies the state by `1 + h + h²/2` |
| SolverProperties.LinearHeun | pertbio/pertbio/kernel.py:50-57 | for `f(v) = k·v`, a Heun step multiplies the state by `1 + h + h²/2` |
| SolverProperties.LinearRK4 | pertbio/pertbio/kernel.py:76-85 | for `f(v) = k·v`, an RK4 step multiplies the state by `1 + h + h²/2 + h³/6 + h⁴/24` |
| SolverProperties.LinearStep | pertbio/pertbio/kernel.py:50-85 | for `f(v) = k·v`, one step of any solver multiplies the state by that solver's Taylor polynomial of `e^h` |
| SolverProperties.LinearIterate | pertbio/pertbio/kernel.py:50-85 | for `f(v) = k·v`, n steps multiply the state by the n-th power of that factor (linear decay at rate `alpha` is `k = −alpha`) |
| Scenario.Field | pertbio/pertbio/kernel.py:25-34 | the closure `get_dXdt` returns, as a function value of state, perturbation and bundle (no contract of its own; see the next row) |
| Scenario.FieldKeepsShape | pertbio/pertbio/kernel.py:16-34 | with a conforming `W`, bundle and perturbation, the closure `get_dXdt` returns is defined on every state of length N and keeps its length, which is all the solvers demand |
| Scenario.OriginStaysAtRest | pertbio/pertbio/kernel.py:16-85 | with a zero state and zero perturbation (tanh odd), every solver leaves the kernel's state at the origin for any number of steps |
| Scenario.OneNodeDecays | pertbio/pertbio/kernel.py:25-27 | with `N = 1`, `W = [[0]]`, `alpha = 1`, `eps = 0`, tanh, degree 1 and form 0, the derivative is `−x`, whatever tanh is |
| Scenario.EulerDecayState | pertbio/pertbio/kernel.py:59-65 | Euler with `dT = 0.1` on `f(x) = −x` from `[2]`: state i is `[2·0.9^i]` |
| Scenario.EulerDecayTrajectory | pertbio/pertbio/kernel.py:59-65 | Euler with `dT = 0.1`, `n_T = 3` on `f(x) = −x` from `[2]` gives exactly `[2, 1.8, 1.62, 1.458]` |
| Scenario.EulerOneNodeTrajectory | pertbio/pertbio/kernel.py:59-65 | the same trajectory for the one-node kernel |
| Scenario.RunOneNode | pertbio/pertbio/kernel.py:4-65 | selecting tanh, degree 1 with form 0 and `euler`, then running three steps from `[2]` with `t_mu = [0]`, returns `[2, 1.8, 1.62, 1.458]` |

## Left out

- Tensors: TensorFlow, float32 rounding and broadcasting are not modelled. Arithmetic is exact over the reals. States are vectors, not N×1 columns. A scalar `alpha` or `eps` is the constant vector.
- tanh: it is a function parameter, because it is transcendental and its internals are out of scope. Only its odd symmetry is used, and only as an explicit precondition.
- Shapes: a mismatch between `W`, the bundle and the state raises in the tensor library. Here conforming shapes are preconditions of `Dynamics.Derivative`, and the solvers require `Solvers.KeepsShape`.
- Solvers.Step, Solvers.Iterate and Solvers.RK4Weights: their own contracts state only lengths. What the rules compute is stated by Solvers.StepAtEquilibrium, Solvers.IterateAtEquilibrium, Solvers.RK4WeightsMean, SolverProperties.ConstantFieldStep, SolverProperties.LinearStep and SolverProperties.LinearIterate, and the loops of the four solver methods are proved equal to them.
- Solvers.Flatten and Scenario.Field: no contracts of their own. The layout of the flat column is stated by Solvers.FlattenSnoc, Solvers.FlattenIndex, Solvers.FlattenHead and Solvers.TrajectoryLayout; the closure's domain and value by Scenario.FieldKeepsShape.
- Dynamics.Derivative: its own contract states only that the state length is kept; the entrywise formula of each form is stated by Dynamics.CoupleInside, Dynamics.CoupleOutside and Dynamics.CoupleIndependent, to which it dispatches over Dynamics.Interaction.
- Envelope.GetEnvelop: `polynomial_k` is a natural number. A negative `k` would make `x**k` a reciprocal power and is not modelled.
- The bundle: the derivative closure reads `W` from the object passed to `get_dXdt`. It reads `eps`, `alpha`, `psi` and the envelope from the bundle passed at each call (the inner lambda's `envelop` shadows the outer one). The model keeps this split: the `W` field of `Dynamics.Kernel` is captured at selection, and `Params` is the call-time bundle.
- psi: a bundle without a `psi` attribute under form 2 is not modelled; `psi` is a field of `Params`. The local `psi` variable the source creates before returning form 2 would be unused; it is omitted from the corrected selector.
- `args`: the solvers' `args` parameter is unused by their bodies; it is omitted.
- Accuracy: order-of-accuracy and error-ratio claims over shrinking `dT` are not proved. Instead, `SolverProperties.LinearStep` gives each rule's per-step factor, whose Taylor-polynomial form shows the order.
- Gradients: automatic differentiation through the solvers is not modelled.
- Error text: the messages of the raised exceptions are not modelled; only which option was illegal and its value are. As written, the illegal-form message suggests `[1,2,3]` although the legal forms are 0, 1 and 2.

## Findings

| source | as written | input that shows it | evidently intended | confidence | as-written member | corrected member |
|---|---|---|---|---|---|---|
| pertbio/pertbio/kernel.py:33 | before returning form 2, `get_dXdt` evaluates `tf.Variable(np.ones((n_x, 1)), ...)`, but the module never binds `np` or `n_x`, so form 2 raises a NameError every time | `ode_degree = 1, envelop = 2` | form 2 returns the derivative `eps ⊙ φ(s) + psi ⊙ t_mu − alpha ⊙ x`, with `psi` taken from the bundle as the returned lambda does | high (not executed) | Dynamics.GetDXdtAsWritten (witness: Dynamics.FormTwoNeverSelectedAsWritten) | Dynamics.GetDXdt (with Dynamics.CoupleIndependent and Dynamics.IndependentAtZero) |
