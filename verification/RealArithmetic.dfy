/** Facts about products and absolute values of reals. Each product is named by a parameter
    of its own, so that a caller's goal stays linear in the names. */
module RealArithmetic {

  function Abs(x: real): real { if x < 0.0 then -x else x }

  function Min(x: real, y: real): real { if y < x then y else x }

  function Max(x: real, y: real): real { if x < y then y else x }

  /** A name for a value, so that what follows does not look inside it. */
  lemma Name(v: real) returns (x: real)
    ensures x == v
  {
    x := v;
  }

  /** A product under a name that can be hidden. */
  function Times(a: real, b: real): real { a * b }

  lemma MulAbs(a: real, b: real, ab: real)
    requires ab == a * b
    ensures Abs(ab) == Abs(a) * Abs(b)
  {}

  lemma MulMono(a: real, b: real, c: real, ab: real, ac: real)
    requires 0.0 <= a && b <= c && ab == a * b && ac == a * c
    ensures ab <= ac
  {}

  lemma TimesNegated(a: real, b: real)
    ensures Times(a, -b) == -Times(a, b) && Times(-b, -b) == Times(b, b) && Times(-a, -b) == Times(a, b)
  {}

  lemma LessTimes(r: real, p: real, q: real)
    requires r >= 0.0 && p <= q
    ensures Times(r, p) <= Times(r, q)
  {
    MulMono(r, p, q, r * p, r * q);
  }

  lemma MulPositive(a: real, b: real, ab: real)
    requires a > 0.0 && b > 0.0 && ab == a * b
    ensures ab > 0.0
  {}

  lemma MulNonNegative(a: real, b: real, ab: real)
    requires a >= 0.0 && b >= 0.0 && ab == a * b
    ensures ab >= 0.0
  {}

  lemma Square(x: real, xx: real)
    requires xx == x * x
    ensures xx >= 0.0
  {}

  /** Dividing a bound by a positive factor. */
  lemma DivBound(a: real, b: real, c: real, ac: real, q: real)
    requires c > 0.0 && ac == a * c && ac <= b && q == b / c
    ensures a <= q
  {
    assert q * c == b;
    if a > q {
      MulPositive(a - q, c, (a - q) * c);
    }
  }

  lemma Cancel(d: real, a: real, b: real, da: real, db: real)
    requires d > 0.0 && da == d * a && db == d * b && da <= db
    ensures a <= b
  {
    if a > b {
      MulPositive(d, a - b, d * (a - b));
    }
  }

  /** |x| <= w from their squares. */
  lemma SquareRootMono(x: real, w: real, xx: real, ww: real)
    requires w >= 0.0 && xx == x * x && ww == w * w && xx <= ww
    ensures -w <= x <= w
  {
    var l, r := (x - w) * (x + w), (-x - w) * (-x + w);
    assert xx - ww == l == r;
    if x > w {
      MulPositive(x - w, x + w, l);
    } else if x < -w {
      MulPositive(-x - w, -x + w, r);
    }
  }
}
