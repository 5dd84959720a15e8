/**
 * The optical oscillator catalog: Lorentzian, Drude and Gaussian lineshapes,
 * their dielectric function, optical conductivity and spectral weight,
 * evaluated at one (scalar) photon energy over exact reals.
 */
module Oscillators {
  import opened Results
  import opened ComplexArith
  import opened Reals

  /**
   * The three lineshapes. `amplitude` is A, `energy` the centre Ec and
   * `width` the broadening B; a Drude oscillator has no centre.
   */
  datatype Oscillator =
    | Lorentzian(amplitude: real, energy: real, width: real)
    | Drude(amplitude: real, width: real)
    | Gaussian(amplitude: real, energy: real, width: real)

  /** The exceptions the operations raise. */
  datatype Error =
    | AssertionFailed    // a constructor's parameter assertion
    | DivisionByZero     // scalar complex or float division by zero
    | NotImplemented     // partial spectral weight over a window

  /**
   * The physical and mathematical constants the formulas use: the vacuum
   * permittivity, the reduced Planck constant in eV s, pi, sqrt(pi), ln 2,
   * sqrt(ln 2), and the exponential function. Only their signs matter to
   * the properties below; `exp` is arbitrary.
   */
  datatype Constants = Constants(
    epsilon0: real, hbar: real, pi: real, sqrtPi: real, ln2: real, sqrtLn2: real,
    exp: real -> real)

  predicate ValidConstants(c: Constants) {
    c.epsilon0 > 0.0 && c.hbar > 0.0 && c.pi > 0.0 && c.sqrtPi > 0.0 && c.ln2 > 0.0 && c.sqrtLn2 > 0.0
  }

  /** The parameter assertions of the constructors: every parameter is non-negative. */
  predicate Valid(o: Oscillator) {
    match o
    case Lorentzian(a, ec, b) => a >= 0.0 && ec >= 0.0 && b >= 0.0
    case Drude(a, b) => a >= 0.0 && b >= 0.0
    case Gaussian(a, ec, b) => a >= 0.0 && ec >= 0.0 && b >= 0.0
  }

  // ---------------------------------------------------------------------
  // Constructors: each parameter is asserted non-negative, in order.

  function NewLorentzian(amplitude: real, energy: real, width: real): (r: Result<Oscillator, Error>)
    ensures r.Success? <==> amplitude >= 0.0 && energy >= 0.0 && width >= 0.0
    ensures r.Success? ==> r.value == Lorentzian(amplitude, energy, width) && Valid(r.value)
    ensures r.Failure? ==> r.error == AssertionFailed
  {
    if amplitude < 0.0 then Failure(AssertionFailed)
    else if energy < 0.0 then Failure(AssertionFailed)
    else if width < 0.0 then Failure(AssertionFailed)
    else Success(Lorentzian(amplitude, energy, width))
  }

  function NewDrude(amplitude: real, width: real): (r: Result<Oscillator, Error>)
    ensures r.Success? <==> amplitude >= 0.0 && width >= 0.0
    ensures r.Success? ==> r.value == Drude(amplitude, width) && Valid(r.value)
    ensures r.Failure? ==> r.error == AssertionFailed
  {
    if amplitude < 0.0 then Failure(AssertionFailed)
    else if width < 0.0 then Failure(AssertionFailed)
    else Success(Drude(amplitude, width))
  }

  function NewGaussian(amplitude: real, energy: real, width: real): (r: Result<Oscillator, Error>)
    ensures r.Success? <==> amplitude >= 0.0 && energy >= 0.0 && width >= 0.0
    ensures r.Success? ==> r.value == Gaussian(amplitude, energy, width) && Valid(r.value)
    ensures r.Failure? ==> r.error == AssertionFailed
  {
    if amplitude < 0.0 then Failure(AssertionFailed)
    else if energy < 0.0 then Failure(AssertionFailed)
    else if width < 0.0 then Failure(AssertionFailed)
    else Success(Gaussian(amplitude, energy, width))
  }

  /** Calls the constructor of `o`'s variant with `o`'s own parameters. */
  function Construct(o: Oscillator): Result<Oscillator, Error> {
    match o
    case Lorentzian(a, ec, b) => NewLorentzian(a, ec, b)
    case Drude(a, b) => NewDrude(a, b)
    case Gaussian(a, ec, b) => NewGaussian(a, ec, b)
  }

  /** The constructors admit exactly the valid oscillators, and change nothing. */
  lemma ConstructExactlyValid(o: Oscillator)
    ensures Construct(o) == Success(o) <==> Valid(o)
    ensures !Valid(o) ==> Construct(o) == Failure(AssertionFailed)
  {
  }

  // ---------------------------------------------------------------------
  // Dielectric function.

  /** The lineshapes written as a quotient `num / den`. */
  predicate IsRational(o: Oscillator) {
    o.Lorentzian? || o.Drude?
  }

  /** `num`: A*B*Ec for a Lorentzian, -(A*B) for a Drude oscillator. */
  function Numerator(o: Oscillator): (n: real)
    requires IsRational(o)
    ensures Valid(o) && o.Lorentzian? ==> n >= 0.0
    ensures Valid(o) && o.Drude? ==> n <= 0.0
    ensures n == 0.0 <==> o.amplitude == 0.0 || o.width == 0.0 || (o.Lorentzian? && o.energy == 0.0)
  {
    match o
    case Lorentzian(a, ec, b) => (a * b) * ec
    case Drude(a, b) => -(a * b)
  }

  /** `den` at energy `e`: Ec^2 - e^2 - i*B*e for a Lorentzian, e^2 + i*B*e for a Drude oscillator. */
  function Denominator(o: Oscillator, e: real): (d: Complex)
    requires IsRational(o)
    ensures d.im == 0.0 <==> o.width == 0.0 || e == 0.0
    ensures o.Drude? ==> d.re >= 0.0 && (d.re == 0.0 <==> e == 0.0)
    ensures o.Lorentzian? ==> (d.re == 0.0 <==> e == o.energy || e == -o.energy)
  {
    match o
    case Lorentzian(_, ec, b) =>
      SquaresEqual(ec, e);
      Complex(ec * ec - e * e, -(b * e))
    case Drude(_, b) =>
      DrudeDenominatorReal(e);
      Complex(e * e, b * e)
  }

  /** The real part e^2 of a Drude denominator is non-negative and vanishes only at e = 0. */
  lemma DrudeDenominatorReal(e: real)
    ensures e * e >= 0.0 && (e * e == 0.0 <==> e == 0.0)
  {
    SquareNonNegative(e);
    SquaresEqual(e, 0.0);
  }

  /** The Gaussian standard deviation B / (2 sqrt(ln 2)). */
  function Sigma(b: real, c: Constants): (s: real)
    requires ValidConstants(c)
    ensures s * (2.0 * c.sqrtLn2) == b
    ensures s == 0.0 <==> b == 0.0
    ensures b >= 0.0 ==> s >= 0.0
  {
    b / (2.0 * c.sqrtLn2)
  }

  /** One Gaussian term exp(-(x/s)^2). */
  function Bell(x: real, s: real, c: Constants): real
    requires s != 0.0
  {
    c.exp(-Square(x / s))
  }

  /** A Gaussian term depends on its offset only up to sign. */
  lemma BellEven(x: real, s: real, c: Constants)
    requires s != 0.0
    ensures Bell(-x, s, c) == Bell(x, s, c)
  {
    assert -x / s == -(x / s);
    SquareNegate(x / s);
  }

  /** The Gaussian imaginary part A*(exp(-((e-Ec)/s)^2) - exp(-((e+Ec)/s)^2)). */
  function GaussianImag(o: Oscillator, e: real, s: real, c: Constants): (r: real)
    requires o.Gaussian? && s != 0.0
    ensures o.amplitude == 0.0 ==> r == 0.0
    ensures o.energy == 0.0 ==> r == 0.0
  {
    o.amplitude * (Bell(e - o.energy, s, c) - Bell(e + o.energy, s, c))
  }

  /**
   * `dielectricFunction(e)`. A zero denominator raises, as Python's scalar
   * division does. The Gaussian real part is the unimplemented
   * Kramers-Kronig term, which returns 0.
   */
  function DielectricFunction(o: Oscillator, e: real, c: Constants): (r: Result<Complex, Error>)
    requires ValidConstants(c)
    ensures r.Failure? ==> r.error == DivisionByZero
    ensures IsRational(o) ==> (r.Failure? <==> Denominator(o, e) == Zero)
    ensures IsRational(o) && r.Success? ==> Mul(r.value, Denominator(o, e)) == FromReal(Numerator(o))
    ensures o.Gaussian? ==> (r.Failure? <==> o.width == 0.0)
    ensures o.Gaussian? && r.Success? ==> r.value.re == 0.0
  {
    if IsRational(o) then
      var den := Denominator(o, e);
      if den == Zero then Failure(DivisionByZero)
      else Success(Div(FromReal(Numerator(o)), den))
    else
      var s := Sigma(o.width, c);
      if s == 0.0 then Failure(DivisionByZero)
      else Success(Complex(0.0, GaussianImag(o, e, s, c)))
  }

  /** At resonance the Lorentzian denominator is -i*B*Ec, so epsilon(Ec) = i*A. */
  lemma LorentzianAtResonance(a: real, ec: real, b: real, c: Constants)
    requires ValidConstants(c)
    requires b * ec != 0.0
    ensures DielectricFunction(Lorentzian(a, ec, b), ec, c) == Success(Complex(0.0, a))
  {
    var o := Lorentzian(a, ec, b);
    var den := Denominator(o, ec);
    assert den == Complex(0.0, -(b * ec));
    var q := Complex(0.0, a);
    calc {
      Mul(q, den);
      Complex(0.0 * 0.0 - a * -(b * ec), 0.0 * -(b * ec) + a * 0.0);
      Complex((a * b) * ec, 0.0);
      FromReal(Numerator(o));
    }
    DivUnique(FromReal(Numerator(o)), den, q);
  }

  /** The Drude dielectric function is defined exactly away from e = 0. */
  lemma DrudePole(a: real, b: real, e: real, c: Constants)
    requires ValidConstants(c)
    ensures DielectricFunction(Drude(a, b), e, c).Failure? <==> e == 0.0
  {
    if e != 0.0 {
      SquarePositive(e);
      calc {
        Denominator(Drude(a, b), e).re;
        e * e;
      > 0.0;
      }
    }
  }

  /**
   * The Lorentzian denominator vanishes only where e^2 = Ec^2 and B*e = 0:
   * for valid parameters, at e = +-Ec without damping, or at e = Ec = 0.
   */
  lemma LorentzianPole(a: real, ec: real, b: real, e: real, c: Constants)
    requires ValidConstants(c)
    ensures DielectricFunction(Lorentzian(a, ec, b), e, c).Failure?
        <==> ec * ec == e * e && b * e == 0.0
    ensures Valid(Lorentzian(a, ec, b)) ==>
        (DielectricFunction(Lorentzian(a, ec, b), e, c).Failure?
        <==> (b == 0.0 && (e == ec || e == -ec)) || (e == 0.0 && ec == 0.0))
  {
    if ec >= 0.0 && b >= 0.0 {
      SquaresEqual(ec, e);
      if e != 0.0 && b != 0.0 {
        NonZeroProduct(b, e);
      }
    }
  }

  /** The Gaussian imaginary part is odd in the energy, whatever `exp` is. */
  lemma GaussianOdd(a: real, ec: real, b: real, e: real, c: Constants)
    requires ValidConstants(c)
    requires b != 0.0
    ensures DielectricFunction(Gaussian(a, ec, b), e, c).Success?
    ensures DielectricFunction(Gaussian(a, ec, b), -e, c).Success?
    ensures DielectricFunction(Gaussian(a, ec, b), -e, c).value.im
         == -DielectricFunction(Gaussian(a, ec, b), e, c).value.im
  {
    var o := Gaussian(a, ec, b);
    var s := Sigma(b, c);
    BellEven(e + ec, s, c);
    BellEven(e - ec, s, c);
    assert -e - ec == -(e + ec) && -e + ec == -(e - ec);
  }

  /** With a non-zero width the Gaussian absorbs nothing at zero energy. */
  lemma GaussianZeroAtOrigin(a: real, ec: real, b: real, c: Constants)
    requires ValidConstants(c)
    requires b != 0.0
    ensures DielectricFunction(Gaussian(a, ec, b), 0.0, c) == Success(Complex(0.0, 0.0))
  {
    GaussianOdd(a, ec, b, 0.0, c);
  }

  /**
   * A valid Lorentzian or Drude oscillator absorbs: the imaginary part of its
   * dielectric function is non-negative at every non-negative energy where it
   * is defined.
   */
  lemma RationalAbsorbs(o: Oscillator, e: real, c: Constants)
    requires ValidConstants(c)
    requires Valid(o) && IsRational(o) && e >= 0.0
    requires Denominator(o, e) != Zero
    ensures DielectricFunction(o, e, c).Success?
    ensures DielectricFunction(o, e, c).value.im >= 0.0
  {
    var num, den := Numerator(o), Denominator(o, e);
    NormSqPositive(den);
    var n := NormSq(den);
    var q := Div(FromReal(num), den);
    assert q.im == (0.0 * den.re - num * den.im) / n;
    NonNegativeProduct(o.width, e);
    NonNegativeProduct(o.amplitude, o.width);
    match o
    case Lorentzian(a, ec, b) =>
      NonNegativeProduct(a * b, ec);
      NonNegativeProduct((a * b) * ec, b * e);
      calc {
        0.0 * den.re - num * den.im;
        ((a * b) * ec) * (b * e);
      >= 0.0;
      }
      NonNegativeQuotient(((a * b) * ec) * (b * e), n);
    case Drude(a, b) =>
      NonNegativeProduct(a * b, b * e);
      calc {
        0.0 * den.re - num * den.im;
        (a * b) * (b * e);
      >= 0.0;
      }
      NonNegativeQuotient((a * b) * (b * e), n);
  }

  // ---------------------------------------------------------------------
  // Optical conductivity and spectral weight.

  /** The conductivity prefactor epsilon_0 / hbar. */
  function ConductivityPrefactor(c: Constants): (pf: real)
    requires ValidConstants(c)
    ensures pf > 0.0
  {
    PositiveQuotient(c.epsilon0, c.hbar);
    c.epsilon0 / c.hbar
  }

  /**
   * `opticalConductivity(e)`: the prefactor times Im epsilon(e) times e. It
   * raises exactly where the dielectric function does, and it vanishes
   * exactly at e = 0 and where epsilon(e) is real.
   */
  function OpticalConductivity(o: Oscillator, e: real, c: Constants): (r: Result<real, Error>)
    requires ValidConstants(c)
    ensures r.Failure? <==> DielectricFunction(o, e, c).Failure?
    ensures r.Failure? ==> r.error == DivisionByZero
    ensures r.Success? ==>
      (r.value == 0.0 <==> e == 0.0 || DielectricFunction(o, e, c).value.im == 0.0)
  {
    var eps :- DielectricFunction(o, e, c);
    var pf := ConductivityPrefactor(c);
    ProductZero(pf, eps.im, e);
    Success(pf * eps.im * e)
  }

  /** A valid Lorentzian or Drude oscillator conducts non-negatively at non-negative energy. */
  lemma ConductivityAbsorbs(o: Oscillator, e: real, c: Constants)
    requires ValidConstants(c)
    requires Valid(o) && IsRational(o) && e >= 0.0
    requires OpticalConductivity(o, e, c).Success?
    ensures OpticalConductivity(o, e, c).value >= 0.0
  {
    var eps := DielectricFunction(o, e, c).value;
    var pf := ConductivityPrefactor(c);
    RationalAbsorbs(o, e, c);
    NonNegativeProduct(pf, eps.im);
    NonNegativeProduct(pf * eps.im, e);
  }

  /** The Gaussian conductivity is even in the energy: both factors after the prefactor are odd. */
  lemma GaussianConductivityEven(a: real, ec: real, b: real, e: real, c: Constants)
    requires ValidConstants(c)
    requires b != 0.0
    ensures OpticalConductivity(Gaussian(a, ec, b), -e, c) == OpticalConductivity(Gaussian(a, ec, b), e, c)
  {
    var o := Gaussian(a, ec, b);
    GaussianOdd(a, ec, b, e, c);
    var pf := ConductivityPrefactor(c);
    var im := DielectricFunction(o, e, c).value.im;
    calc {
      OpticalConductivity(o, -e, c).value;
      pf * (-im) * (-e);
      pf * im * e;
      OpticalConductivity(o, e, c).value;
    }
  }

  /** Python truthiness of the `window` argument: `None` and `0` are falsy. */
  predicate Truthy(window: Option<real>) {
    window.Some? && window.value != 0.0
  }

  /** The Lorentzian spectral-weight prefactor epsilon_0*pi/8/hbar^2. */
  function LorentzianWeightPrefactor(c: Constants): (pf: real)
    requires ValidConstants(c)
    ensures pf > 0.0
  {
    SquareIsPositive(c.hbar);
    PositiveFraction(c.epsilon0, c.pi, 8.0, 1.0, Square(c.hbar));
    c.epsilon0 * c.pi / 8.0 / Square(c.hbar)
  }

  /** The Drude spectral-weight prefactor epsilon_0*pi/2/hbar^2. */
  function DrudeWeightPrefactor(c: Constants): (pf: real)
    requires ValidConstants(c)
    ensures pf > 0.0
  {
    SquareIsPositive(c.hbar);
    PositiveFraction(c.epsilon0, c.pi, 2.0, 1.0, Square(c.hbar));
    c.epsilon0 * c.pi / 2.0 / Square(c.hbar)
  }

  /** The Gaussian spectral-weight prefactor epsilon_0*sqrt(pi)/4*ln 2/hbar^2. */
  function GaussianWeightPrefactor(c: Constants): (pf: real)
    requires ValidConstants(c)
    ensures pf > 0.0
  {
    SquareIsPositive(c.hbar);
    PositiveFraction(c.epsilon0, c.sqrtPi, 4.0, c.ln2, Square(c.hbar));
    c.epsilon0 * c.sqrtPi / 4.0 * c.ln2 / Square(c.hbar)
  }

  /** Some parameter of the closed-form weight is zero. */
  predicate SomeParameterZero(o: Oscillator) {
    match o
    case Lorentzian(a, ec, b) => a == 0.0 || ec == 0.0 || b == 0.0
    case Drude(a, b) => a == 0.0 || b == 0.0
    case Gaussian(a, ec, b) => a == 0.0 || ec == 0.0 || b == 0.0
  }

  /**
   * `spectralWeight(window)`: a truthy window raises not-implemented on every
   * variant; otherwise the closed form pf*A*Ec*B (pf*A*B for Drude), which is
   * non-negative for valid parameters and zero exactly when a parameter is.
   */
  function SpectralWeight(o: Oscillator, window: Option<real>, c: Constants): (r: Result<real, Error>)
    requires ValidConstants(c)
    ensures r.Failure? <==> Truthy(window)
    ensures r.Failure? ==> r.error == NotImplemented
    ensures r.Success? ==> (r.value == 0.0 <==> SomeParameterZero(o))
    ensures r.Success? && Valid(o) ==> r.value >= 0.0
  {
    if Truthy(window) then Failure(NotImplemented)
    else
      match o
      case Lorentzian(a, ec, b) =>
        var pf := LorentzianWeightPrefactor(c);
        ScaledProductSigns(pf, a, ec, b);
        Success(pf * a * ec * b)
      case Drude(a, b) =>
        var pf := DrudeWeightPrefactor(c);
        ScaledProductSigns(pf, a, 1.0, b);
        Success(pf * a * b)
      case Gaussian(a, ec, b) =>
        var pf := GaussianWeightPrefactor(c);
        ScaledProductSigns(pf, a, ec, b);
        Success(pf * a * ec * b)
  }

  /** The Lorentzian weight is Ec/4 times the Drude weight of the same amplitude and width. */
  lemma LorentzianDrudeWeights(a: real, ec: real, b: real, c: Constants)
    requires ValidConstants(c)
    ensures 4.0 * SpectralWeight(Lorentzian(a, ec, b), None, c).value
         == ec * SpectralWeight(Drude(a, b), None, c).value
  {
    var l, d := LorentzianWeightPrefactor(c), DrudeWeightPrefactor(c);
    var t, h := c.epsilon0 * c.pi, Square(c.hbar);
    SquareIsPositive(c.hbar);
    calc {
      l * 4.0;
      (t / 8.0 / h) * 4.0;
      { DivideTwice(t, 8.0, h); }
      (t / h / 8.0) * 4.0;
      t / h / 2.0;
      { DivideTwice(t, 2.0, h); }
      d;
    }
    calc {
      4.0 * SpectralWeight(Lorentzian(a, ec, b), None, c).value;
      4.0 * (l * a * ec * b);
      (l * 4.0) * a * ec * b;
      d * a * ec * b;
      ec * (d * a * b);
      ec * SpectralWeight(Drude(a, b), None, c).value;
    }
  }
}
