# Continuum boundaries and optical oscillators, in Dafny

This project models the two computational pieces of a small condensed-matter
research toolkit and proves properties about them.

1. **Two-particle continuum boundary** (`computeDispersionBoundary`). It takes
   one dispersion relation, or two, as lists of `(k, E)` points. It pairs
   every point of the first relation with every point of the second, and
   buckets the energy sum `E1 + E2` under the momentum key
   `round(|k1 - k2|, 4)`. It then returns one `(key, min)` entry per bucket
   as the lower bound and one `(key, max)` entry as the upper bound. An
   omitted or empty second relation means "pair the first relation with
   itself".
2. **Oscillator lineshape catalog.** It covers the Lorentzian, Drude and
   Gaussian oscillators, with:
   - their parameter checks;
   - the complex dielectric function at an energy `E`;
   - the optical conductivity `eps0/hbar * Im eps(E) * E`;
   - the closed-form spectral weight, which raises not-implemented for a
     partial window.

Layout, one module per file:

- `results.dfy` (`Results`): `Option` stands for an omitted Python argument.
  `Result` stands for a value or a raised exception.
- `rounding.dfy` (`Rounding`): Python 2 `round(x, 4)` over exact reals, with
  halves rounded away from zero.
- `continuum.dfy` (`Continuum`): the bucket dictionary and the min/max
  reduction loop.
- `dispersion.dfy` (`Dispersion`): the second-relation default, the nested
  accumulation loop, `ComputeDispersionBoundary`, and the reference
  definitions `KeySet`, `SumsAt` and `IsBoundary`. The reference definitions
  are stated over index pairs.
- `dispersion_laws.dfy` (`DispersionLaws`): properties that relate several
  results or several inputs.
- `reals.dfy` (`Reals`) and `complex.dfy` (`ComplexArith`): sign facts about
  real products, and exact complex multiplication and division.
- `oscillators.dfy` (`Oscillators`): the oscillator datatype, constructors,
  dielectric function, conductivity and spectral weight.

Modelling decisions:

- **Dictionary order.** The order of the output lists is the dictionary's
  iteration order, which Python leaves unspecified. The reduction therefore
  picks the next bucket nondeterministically. Every contract about the
  output holds for every order. `BoundaryUnique` shows that the result is
  determined as a key -> value map.
- **Division by zero.** For scalars, Python raises `ZeroDivisionError` on
  division by zero. The model returns `Failure(DivisionByZero)` in that case
  rather than forbidding the input.
- **Constructor checks.** The constructors' `assert`s raise `AssertionError`.
  The model returns `Failure(AssertionFailed)`.
- **Physical constants and `exp`.** They are one `Constants` value passed to
  every oscillator operation. The model assumes only that the constants are
  positive. `exp` is an arbitrary function.
- **Conductivity units.** The docstring of `opticalConductivity` writes
  sigma = eps2 * eps0 * E / hbar^2, but the code divides by `hbar` once
  (eps0 / hbar * Im eps * E). The model follows the code.
- **Window check.** `if window:` raises `NotImplementedError` only for a
  truthy window. A window of `0` and `None` both fall through to the full
  weight.
- **Gaussian real part.** `_realDF` returns the constant `0`.
- **Rounding.** `round` is Python 2's, which sends an exact half away from
  zero.

## Model

| member | source | states |
|---|---|---|
| Rounding.Round4 | dispersion_calculator.py:34 | the key lies on the 1e-4 grid, is within 0.00005 of the momentum difference, and keeps its sign; an exact half goes away from zero |
| Rounding.Round4OnGrid | dispersion_calculator.py:34 | a difference that already has four decimals is its own key |
| Rounding.Round4Idempotent | dispersion_calculator.py:34 | rounding a key again does not move it |
| Rounding.Round4Monotone | dispersion_calculator.py:34 | larger momentum differences never get smaller keys |
| Rounding.Round4Odd | dispersion_calculator.py:34 | rounding is odd: round(-x) = -round(x) |
| Rounding.Round4Boundary | dispersion_calculator.py:34 | differences 0.00004 and 0.00006 land in keys 0 and 0.0001; the tie 0.00005 goes up to 0.0001 |
| Continuum.Min | dispersion_calculator.py:42 | `min(value)` is an element of the bucket and no element is smaller |
| Continuum.Max | dispersion_calculator.py:43 | `max(value)` is an element of the bucket and no element is larger |
| Continuum.Append | dispersion_calculator.py:36 | the key is present afterwards; its list is the old list (empty if the key was missing) with the energy on the end; every other bucket is unchanged |
| Continuum.Reduce | dispersion_calculator.py:38-45 | one entry per bucket in each list, in the same key order, with distinct keys, holding the bucket's min and max |
| Dispersion.MomentumKey | dispersion_calculator.py:34 | the key of a pair is a non-negative multiple of 1e-4 within 0.00005 of the absolute momentum difference; an exact half goes up |
| Dispersion.Partner | dispersion_calculator.py:27-28 | an omitted or empty second relation is replaced by the first; a non-empty one is used as given |
| Dispersion.AccumulateRow | dispersion_calculator.py:33-36 | after the inner loop every pair of the row has its sum in the bucket of its key, and every bucket holds only recorded sums |
| Dispersion.Accumulate | dispersion_calculator.py:30-36 | the buckets hold exactly the energy sums of all ordered pairs, and there are at most `|first| * |second|` of them |
| Dispersion.ComputeDispersionBoundary | dispersion_calculator.py:12-45 | the output keys are exactly the rounded differences of all pairs, each once; lower and upper have equal length and the same key at each index; each entry is the least (upper: greatest) sum of the pairs with that key; at most `|first| * |second|` entries; an empty first relation gives two empty lists |
| DispersionLaws.MomentumKeySymmetric | dispersion_calculator.py:34 | the key of (p, q) equals the key of (q, p) |
| DispersionLaws.UpperKeys | dispersion_calculator.py:41-43 | the upper list carries exactly the pair keys, each once |
| DispersionLaws.LowerBelowUpper | dispersion_calculator.py:34-43 | per key, lower <= every pair sum with that key <= upper |
| DispersionLaws.BoundaryUnique | dispersion_calculator.py:41-45 | any two results for the same input describe the same key -> min and key -> max maps; only the order may differ |
| DispersionLaws.BoundarySwap | dispersion_calculator.py:32-36 | a boundary of `a` paired with `b` is also one of `b` paired with `a` |
| DispersionLaws.SwapRelations | dispersion_calculator.py:27-36 | swapping two non-empty relations gives the same maps |
| DispersionLaws.SelfPairing | dispersion_calculator.py:27-36 | self-pairing a non-empty relation always yields key 0, with lower <= 2E <= upper there for every point |
| DispersionLaws.DefaultSecondNotEmpty | dispersion_calculator.py:27-28 | with the second relation omitted or empty, a non-empty first relation gives non-empty bounds containing key 0 |
| DispersionLaws.SinglePoint | dispersion_calculator.py:27-45 | a single point (k, E) yields exactly [(0, 2E)] in both bounds |
| DispersionLaws.TwoRelationsExample | dispersion_calculator.py:30-45 | [(0,0),(1,1)] against [(0,2)] yields the map {0: 2, 1: 3} in both bounds |
| ComplexArith.Div | opticalOscillators.py:100 | complex division by a non-zero divisor: quotient times divisor is the dividend |
| ComplexArith.DivUnique | opticalOscillators.py:100 | the quotient is the only such number |
| Oscillators.NewLorentzian | opticalOscillators.py:63-80 | construction succeeds exactly when amplitude, energy and width are all >= 0, storing them unchanged; otherwise the assertion fails |
| Oscillators.NewDrude | opticalOscillators.py:128-142 | construction succeeds exactly when amplitude and width are >= 0; otherwise the assertion fails |
| Oscillators.NewGaussian | opticalOscillators.py:193-211 | construction succeeds exactly when amplitude, energy and width are all >= 0; otherwise the assertion fails |
| Oscillators.ConstructExactlyValid | opticalOscillators.py:63-211 | the constructors accept exactly the oscillators satisfying the validity predicate and reject the rest with an assertion failure |
| Oscillators.Valid | opticalOscillators.py:74-76 | definition, no contract: the parameters the constructors' asserts admit (also lines 138-139 and 205-207); ConstructExactlyValid is its partner |
| Oscillators.Numerator | opticalOscillators.py:97 | A*B*Ec is >= 0 for valid parameters (the Drude -(A*B) at line 159 is <= 0), and is zero exactly when A, B or (Lorentzian) Ec is zero |
| Oscillators.Denominator | opticalOscillators.py:98 | the imaginary part vanishes exactly when B = 0 or E = 0; the Lorentzian real part Ec^2 - E^2 vanishes exactly at E = +-Ec; the Drude real part E^2 at line 160 is >= 0 and vanishes only at E = 0 |
| Oscillators.Sigma | opticalOscillators.py:232 | sigma * 2*sqrt(ln 2) recovers the width; sigma is zero exactly when the width is, and non-negative for a non-negative width |
| Oscillators.Bell | opticalOscillators.py:233-234 | definition, no contract: one Gaussian term; BellEven is its partner |
| Oscillators.GaussianImag | opticalOscillators.py:231-236 | A*(e1 - e2) is zero when the amplitude is zero or the centre energy is zero |
| Oscillators.Truthy | opticalOscillators.py:108 | definition, no contract: a window is truthy when it is given and non-zero (the same test is at lines 170 and 249); SpectralWeight's contract uses it |
| Oscillators.DielectricFunction | opticalOscillators.py:88-241 | Lorentzian/Drude: raises exactly when the denominator is zero, else the value times the denominator is the numerator; Gaussian: raises exactly when the width is zero, else the real part is 0 |
| Oscillators.LorentzianAtResonance | opticalOscillators.py:97-100 | with B*Ec != 0, eps(Ec) = i*A |
| Oscillators.LorentzianPole | opticalOscillators.py:97-100 | eps(E) is undefined exactly when E^2 = Ec^2 and B*E = 0; for valid parameters, exactly at E = +-Ec with B = 0 or at E = Ec = 0 |
| Oscillators.DrudePole | opticalOscillators.py:159-162 | the Drude eps(E) is undefined exactly at E = 0 |
| Oscillators.RationalAbsorbs | opticalOscillators.py:88-162 | for a valid Lorentzian or Drude oscillator and any E >= 0 with a non-zero denominator, eps(E) is defined and Im eps(E) >= 0 |
| Oscillators.BellEven | opticalOscillators.py:233-234 | a Gaussian term exp(-(x/s)^2) does not depend on the sign of x |
| Oscillators.GaussianOdd | opticalOscillators.py:231-236 | with a non-zero width the Gaussian Im eps is odd in E, for any exp |
| Oscillators.GaussianZeroAtOrigin | opticalOscillators.py:227-241 | with a non-zero width the Gaussian eps(0) is exactly 0 |
| Oscillators.ConductivityPrefactor | opticalOscillators.py:31-32 | the prefactor eps0/hbar is positive |
| Oscillators.OpticalConductivity | opticalOscillators.py:24-34 | raises exactly where eps raises; the value is zero exactly when E = 0 or Im eps(E) = 0 |
| Oscillators.ConductivityAbsorbs | opticalOscillators.py:24-34 | a valid Lorentzian or Drude oscillator has non-negative conductivity at non-negative energy |
| Oscillators.GaussianConductivityEven | opticalOscillators.py:24-34 | with a non-zero width the Gaussian conductivity at -E equals that at E |
| Oscillators.LorentzianWeightPrefactor | opticalOscillators.py:112-113 | eps0*pi/8/hbar^2 is positive |
| Oscillators.DrudeWeightPrefactor | opticalOscillators.py:174-175 | eps0*pi/2/hbar^2 is positive |
| Oscillators.GaussianWeightPrefactor | opticalOscillators.py:253-254 | eps0*sqrt(pi)/4*ln2/hbar^2 is positive |
| Oscillators.SpectralWeight | opticalOscillators.py:102-255 | raises not-implemented exactly for a truthy window (not None, not 0) on every variant; otherwise zero exactly when some parameter is zero, and non-negative for valid parameters |
| Oscillators.LorentzianDrudeWeights | opticalOscillators.py:102-176 | the Lorentzian weight is Ec/4 times the Drude weight with the same amplitude and width |

## Left out

- FTIR_transform.py and plotting/chain-dispersion.py are not part of this model. They hold file dialogs, prompts, CSV input/output and figures.
- The `__main__` demonstration blocks of both core files only plot.
- Floating point is not modelled:
  - all arithmetic is over exact reals;
  - IEEE rounding of `round(..., 4)`, of the energy sums and of the oscillator formulas is ignored;
  - NaN parameters, which fail the constructors' `>= 0` assertions in Python, do not exist here.
- The physical and mathematical constants are not given their concrete values. `epsilon_0`, `hbar`, `pi`, `sqrt(pi)`, `log(2)` and `sqrt(log(2))` are opaque positive reals. The model does not use that `sqrt(pi)^2 = pi` or that `sqrt(ln 2)^2 = ln 2`.
- `exp` is an arbitrary function, so only the algebraic shape of the Gaussian is verified.
- Only scalar energies are modelled, because numpy arrays act pointwise. numpy's `inf`/`nan` results for an array element that divides by zero are not modelled. Python's scalar `ZeroDivisionError` is.
- `refractionIndex`, `plasmaFrequency` and the base class's `dielectricFunction` and `spectralWeight` are not modelled, because their bodies are `pass`.
- `__repr__` and `__str__` only return fixed strings.
- Only numeric windows and `None` are modelled. A numpy array window with more than one element makes `if window:` itself raise `ValueError`. Other window values, such as strings, follow Python's general truthiness rules.
- Running under `python -O` strips the constructors' `assert`s, so every parameter is accepted there. The model follows the default interpreter, where the asserts run.
- The order of the boundary lists is not modelled, because it is the dictionary's unspecified iteration order.
- Dispersion points are modelled as `(k, E)` pairs. Longer tuples, whose extra fields the source ignores, are not modelled.
- Oscillators.DielectricFunction: for the Gaussian, the contract states the failure condition and the zero real part. The imaginary part is characterised only through GaussianOdd and GaussianZeroAtOrigin, because `exp` is arbitrary.
- Dispersion.ComputeDispersionBoundary: states the output as a map (keys and per-key values). It does not state the list order, because that order is Python's unspecified dictionary order.
