/** Exact complex arithmetic over `real`, standing in for Python's `complex`. */
module ComplexArith {
  import opened Reals

  datatype Complex = Complex(re: real, im: real)

  const Zero := Complex(0.0, 0.0)

  function FromReal(x: real): Complex {
    Complex(x, 0.0)
  }

  function Mul(a: Complex, b: Complex): Complex {
    Complex(a.re * b.re - a.im * b.im, a.re * b.im + a.im * b.re)
  }

  /** `|z|^2`, the denominator of complex division. */
  function NormSq(z: Complex): real {
    z.re * z.re + z.im * z.im
  }

  /** `|z|^2` vanishes exactly at zero. */
  lemma NormSqPositive(z: Complex)
    requires z != Zero
    ensures NormSq(z) > 0.0
  {
    SumSquaresPositive(z.re, z.im);
    calc {
      NormSq(z);
      z.re * z.re + z.im * z.im;
    > 0.0;
    }
  }

  /** Complex division `a / b`: the quotient times the divisor gives back `a`. */
  function Div(a: Complex, b: Complex): (q: Complex)
    requires b != Zero
    ensures Mul(q, b) == a
  {
    NormSqPositive(b);
    var n := NormSq(b);
    var q := Complex((a.re * b.re + a.im * b.im) / n, (a.im * b.re - a.re * b.im) / n);
    DivIsInverse(a, b, n, q);
    q
  }

  lemma DivIsInverse(a: Complex, b: Complex, n: real, q: Complex)
    requires n == b.re * b.re + b.im * b.im && n != 0.0
    requires q == Complex((a.re * b.re + a.im * b.im) / n, (a.im * b.re - a.re * b.im) / n)
    ensures Mul(q, b) == a
  {
    var x, y := a.re * b.re + a.im * b.im, a.im * b.re - a.re * b.im;
    assert q.re * n == x;
    assert q.im * n == y;
    calc {
      (q.re * b.re - q.im * b.im) * n;
      (q.re * n) * b.re - (q.im * n) * b.im;
      x * b.re - y * b.im;
      a.re * n;
    }
    calc {
      (q.re * b.im + q.im * b.re) * n;
      (q.re * n) * b.im + (q.im * n) * b.re;
      x * b.im + y * b.re;
      a.im * n;
    }
  }

  /** The quotient is the only value that multiplies back to the dividend. */
  lemma DivUnique(a: Complex, b: Complex, q: Complex)
    requires b != Zero
    requires Mul(q, b) == a
    ensures q == Div(a, b)
  {
    var d := Div(a, b);
    var r := Complex(q.re - d.re, q.im - d.im);
    assert Mul(r, b) == Zero;
    var n := NormSq(b);
    calc {
      r.re * n;
      (r.re * b.re - r.im * b.im) * b.re + (r.re * b.im + r.im * b.re) * b.im;
      0.0;
    }
    calc {
      r.im * n;
      (r.re * b.im + r.im * b.re) * b.re - (r.re * b.re - r.im * b.im) * b.im;
      0.0;
    }
  }
}
