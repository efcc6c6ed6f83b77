/** What the commissioning engine measures: the following-error rail and the per-segment sums.
    The rotation of one sample is the point `(c, s)` of the unit circle. */
module Identification {
  import opened RealArithmetic

  const FERR_SUSTAIN_CYCLES: nat := 25
  const FERR_HARD_FACTOR: real := 2.0

  datatype Complex = Complex(re: real, im: real)

  const ZERO: Complex := Complex(0.0, 0.0)
  const ONE: Complex := Complex(1.0, 0.0)

  function Add(a: Complex, b: Complex): Complex { Complex(a.re + b.re, a.im + b.im) }

  function Scale(x: real, a: Complex): Complex { Complex(x * a.re, x * a.im) }

  function Mul(a: Complex, b: Complex): Complex { Complex(a.re * b.re - a.im * b.im, a.im * b.re + a.re * b.im) }

  predicate OnCircle(w: Complex) { w.re * w.re + w.im * w.im == 1.0 }

  /** The state of one Goertzel recurrence. */
  datatype Tone = Tone(s1: real, s2: real)

  /** The torque sums, its projection on the rotating phasor and the projection of a constant. */
  datatype Torque = Torque(sum: real, squares: real, proj: Complex, ones: Complex, phasor: Complex)

  datatype Sums = Sums(n: nat, cmd: Tone, act: Tone, trq: Torque)

  const NO_SUMS: Sums := Sums(0, Tone(0.0, 0.0), Tone(0.0, 0.0), Torque(0.0, 0.0, ZERO, ZERO, ONE))

  datatype Sample = Sample(applied: real, actual: real, torque: real)

  function GoertzelNext(t: Tone, x: real, w: Complex): Tone { Tone(x + 2.0 * w.re * t.s1 - t.s2, t.s1) }

  function TorqueNext(t: Torque, q: real, w: Complex): Torque {
    Torque(t.sum + q, t.squares + q * q, Add(t.proj, Scale(q, t.phasor)), Add(t.ones, t.phasor), Mul(t.phasor, w))
  }

  function SumsNext(a: Sums, x: Sample, w: Complex): Sums {
    Sums(a.n + 1, GoertzelNext(a.cmd, x.applied, w), GoertzelNext(a.act, x.actual, w), TorqueNext(a.trq, x.torque, w))
  }

  /** The part of a sine segment in which samples count: the envelope's hold. */
  predicate InWindow(t: real, duration: real, ramp: real) {
    var r := if 2.0 * ramp > duration then duration / 2.0 else ramp;
    r <= t <= duration - r
  }

  /** The rail of an axis: the fault at twice the limit, or at the limit for 25 samples. */
  function RailNext(over: nat, ferr: real, rail: real): (nat, bool) {
    if ferr > rail * FERR_HARD_FACTOR then (over, true)
    else if ferr > rail then (over + 1, over + 1 >= FERR_SUSTAIN_CYCLES)
    else (0, false)
  }

  class AxisMonitor {
    const rail: real
    const w: Complex          // cos and sin of the angle of one sample
    var overCycles: nat
    var n: nat
    var cS1: real
    var cS2: real
    var aS1: real
    var aS2: real
    var trq: Torque

    ghost function Value(): Sums
      reads this
    {
      Sums(n, Tone(cS1, cS2), Tone(aS1, aS2), trq)
    }

    constructor (rail: real, w: Complex)
      ensures this.rail == rail && this.w == w && overCycles == 0 && Value() == NO_SUMS
    {
      this.rail, this.w, overCycles, n := rail, w, 0, 0;
      cS1, cS2, aS1, aS2 := 0.0, 0.0, 0.0, 0.0;
      trq := Torque(0.0, 0.0, ZERO, ZERO, ONE);
    }

    /** One sample of a sine segment at time `t`. */
    method RecordSample(x: Sample, t: real, duration: real, ramp: real) returns (abort: bool)
      modifies this`overCycles, this`n, this`cS1, this`cS2, this`aS1, this`aS2, this`trq
      ensures (overCycles, abort) == RailNext(old(overCycles), Abs(x.applied - x.actual), rail)
      ensures Value() == if !abort && InWindow(t, duration, ramp) then SumsNext(old(Value()), x, w) else old(Value())
    {
      var ferr := Abs(x.applied - x.actual);
      if ferr > rail * FERR_HARD_FACTOR { return true; }
      if ferr > rail {
        overCycles := overCycles + 1;
        if overCycles >= FERR_SUSTAIN_CYCLES { return true; }
      } else {
        overCycles := 0;
      }
      var r := if 2.0 * ramp > duration then duration / 2.0 else ramp;
      if t < r || t > duration - r { return false; }
      Accumulate(x);
      return false;
    }

    method Accumulate(x: Sample)
      modifies this`n, this`cS1, this`cS2, this`aS1, this`aS2, this`trq
      ensures Value() == SumsNext(old(Value()), x, w)
    {
      ghost var before := Value();
      var s := x.applied + 2.0 * w.re * cS1 - cS2;
      cS2 := cS1;
      cS1 := s;
      assert Tone(cS1, cS2) == GoertzelNext(before.cmd, x.applied, w);
      s := x.actual + 2.0 * w.re * aS1 - aS2;
      aS2 := aS1;
      aS1 := s;
      assert Tone(aS1, aS2) == GoertzelNext(before.act, x.actual, w);
      hide GoertzelNext;
      n := n + 1;
      AccumulateTorque(x.torque);
    }

    method AccumulateTorque(q: real)
      modifies this`trq
      ensures trq == TorqueNext(old(trq), q, w)
    {
      hide Mul, Scale;
      trq := trq.(sum := trq.sum + q);
      trq := trq.(squares := trq.squares + q * q);
      trq := trq.(proj := Add(trq.proj, Scale(q, trq.phasor)));
      trq := trq.(ones := Add(trq.ones, trq.phasor));
      trq := trq.(phasor := Mul(trq.phasor, w));
    }
  }

  // ----- the rail -----

  function OverAfter(errors: seq<real>, rail: real): nat {
    if errors == [] then 0 else RailNext(OverAfter(errors[..|errors| - 1], rail), errors[|errors| - 1], rail).0
  }

  /** How many samples at the end are over the rail. */
  function TrailingOver(errors: seq<real>, rail: real): (n: nat)
    ensures n <= |errors| && (forall k :: |errors| - n <= k < |errors| ==> errors[k] > rail)
    ensures n < |errors| ==> errors[|errors| - n - 1] <= rail
  {
    if errors == [] || errors[|errors| - 1] <= rail then 0 else TrailingOver(errors[..|errors| - 1], rail) + 1
  }

  lemma {:induction false} OverIsTrailing(errors: seq<real>, rail: real)
    requires forall k :: 0 <= k < |errors| ==> errors[k] <= rail * FERR_HARD_FACTOR
    ensures OverAfter(errors, rail) == TrailingOver(errors, rail)
  {
    if errors != [] {
      OverIsTrailing(errors[..|errors| - 1], rail);
    }
  }

  /** After samples none of which passed the hard limit, the next one aborts exactly if it does,
      or if it is at least the 25th in a row over the rail. */
  lemma RailIsExact(errors: seq<real>, next: real, rail: real)
    requires forall k :: 0 <= k < |errors| ==> errors[k] <= 2.0 * rail
    requires rail >= 0.0
    ensures RailNext(OverAfter(errors, rail), next, rail).1 <==>
      next > 2.0 * rail || TrailingOver(errors + [next], rail) >= 25
  {
    OverIsTrailing(errors, rail);
    assert (errors + [next])[..|errors|] == errors;
  }

  // ----- what is counted -----

  /** A sample counts exactly when it is at least a ramp from both ends of the segment, where a
      ramp takes at most half of it. */
  lemma WindowIsTheHold(t: real, duration: real, ramp: real)
    ensures InWindow(t, duration, ramp) <==> Min(ramp, 0.5 * duration) <= t && Min(ramp, 0.5 * duration) <= duration - t
  {}

  function SumsAfter(xs: seq<Sample>, w: Complex): Sums {
    if xs == [] then NO_SUMS else SumsNext(SumsAfter(xs[..|xs| - 1], w), xs[|xs| - 1], w)
  }

  function Applied(xs: seq<Sample>): seq<real> { seq(|xs|, k requires 0 <= k < |xs| => xs[k].applied) }

  function Actual(xs: seq<Sample>): seq<real> { seq(|xs|, k requires 0 <= k < |xs| => xs[k].actual) }

  function Torques(xs: seq<Sample>): seq<real> { seq(|xs|, k requires 0 <= k < |xs| => xs[k].torque) }

  /** The sums of a segment are those of its three channels, each sample counted once. */
  lemma {:induction false} SumsAreTheChannels(xs: seq<Sample>, w: Complex)
    ensures var a := SumsAfter(xs, w);
      && a.n == |xs| && a.cmd == Goertzel(Applied(xs), w) && a.act == Goertzel(Actual(xs), w) && a.trq == TorqueAfter(Torques(xs), w)
  {
    if xs != [] {
      var n := |xs| - 1;
      SumsAreTheChannels(xs[..n], w);
      assert Applied(xs)[..n] == Applied(xs[..n]) && Actual(xs)[..n] == Actual(xs[..n]) && Torques(xs)[..n] == Torques(xs[..n]);
      hide GoertzelNext, TorqueNext;
    }
  }

  // ----- the Goertzel recurrence is the DFT bin -----

  function Pow(w: Complex, k: nat): Complex {
    if k == 0 then ONE else Mul(Pow(w, k - 1), w)
  }

  function Goertzel(xs: seq<real>, w: Complex): Tone {
    if xs == [] then Tone(0.0, 0.0) else GoertzelNext(Goertzel(xs[..|xs| - 1], w), xs[|xs| - 1], w)
  }

  /** What finishing a segment reads off the recurrence. */
  function Bin(t: Tone, w: Complex): Complex { Complex(t.s1 - t.s2 * w.re, t.s2 * w.im) }

  /** The sum of x(k) * w^(n - 1 - k). */
  function Dft(xs: seq<real>, w: Complex): Complex
    decreases |xs|
  {
    if xs == [] then ZERO else Add(Scale(xs[0], Pow(w, |xs| - 1)), Dft(xs[1..], w))
  }

  /** One step of the recurrence turns the bin by one sample and adds the new one. */
  lemma GoertzelTurns(t: Tone, x: real, w: Complex)
    requires OnCircle(w)
    ensures Bin(GoertzelNext(t, x, w), w) == Add(Mul(Bin(t, w), w), Complex(x, 0.0))
  {
    OnCircleOnce(t.s2, w);
    Turned(t.s1, t.s2, w.re, w.im);
    hide OnCircle;
  }

  lemma Turned(s1: real, s2: real, c: real, s: real)
    ensures (s1 - s2 * c) * c - (s2 * s) * s == s1 * c - (s2 * c * c + s2 * s * s)
    ensures (s2 * s) * c + (s1 - s2 * c) * s == s1 * s
  {}

  lemma OnCircleOnce(x: real, w: Complex)
    requires OnCircle(w)
    ensures x * w.re * w.re + x * w.im * w.im == x
  {
    assert x * (w.re * w.re + w.im * w.im) == x;
  }

  lemma MulAdds(a: Complex, b: Complex, w: Complex)
    ensures Mul(Add(a, b), w) == Add(Mul(a, w), Mul(b, w))
  {}

  lemma MulScales(x: real, a: Complex, w: Complex)
    ensures Mul(Scale(x, a), w) == Scale(x, Mul(a, w))
  {
    var p := Name(a.re * w.re);
    var q := Name(a.im * w.im);
    var u := Name(a.im * w.re);
    var v := Name(a.re * w.im);
    assert (x * a.re) * w.re == x * p && (x * a.im) * w.im == x * q;
    assert (x * a.im) * w.re == x * u && (x * a.re) * w.im == x * v;
  }

  lemma {:induction false} DftTurns(xs: seq<real>, x: real, w: Complex)
    ensures Dft(xs + [x], w) == Add(Mul(Dft(xs, w), w), Complex(x, 0.0))
    decreases |xs|
  {
    if xs == [] {
      assert xs + [x] == [x] && [x][1..] == [];
    } else {
      var rest := xs[1..];
      assert (xs + [x])[1..] == rest + [x];
      DftTurns(rest, x, w);
      var first := Scale(xs[0], Pow(w, |xs| - 1));
      MulScales(xs[0], Pow(w, |xs| - 1), w);
      MulAdds(first, Dft(rest, w), w);
      hide Mul, Scale;
    }
  }

  /** After any samples, what the finish reads off the recurrence is the DFT bin: the sum of
      each sample times the rotation to the power of the samples after it. */
  lemma {:induction false} GoertzelIsTheBin(xs: seq<real>, w: Complex)
    requires OnCircle(w)
    ensures Bin(Goertzel(xs, w), w) == Dft(xs, w)
  {
    if xs != [] {
      var n := |xs| - 1;
      GoertzelIsTheBin(xs[..n], w);
      GoertzelTurns(Goertzel(xs[..n], w), xs[n], w);
      DftTurns(xs[..n], xs[n], w);
      assert xs[..n] + [xs[n]] == xs;
      hide Mul, Bin, GoertzelNext;
    }
  }

  // ----- the torque projection -----

  function TorqueAfter(qs: seq<real>, w: Complex): Torque {
    if qs == [] then NO_SUMS.trq else TorqueNext(TorqueAfter(qs[..|qs| - 1], w), qs[|qs| - 1], w)
  }

  /** The sum of q(k) * w^k. */
  function Projection(qs: seq<real>, w: Complex): Complex {
    if qs == [] then ZERO else Add(Projection(qs[..|qs| - 1], w), Scale(qs[|qs| - 1], Pow(w, |qs| - 1)))
  }

  function Sum(qs: seq<real>): real { if qs == [] then 0.0 else Sum(qs[..|qs| - 1]) + qs[|qs| - 1] }

  function SumSquares(qs: seq<real>): real {
    if qs == [] then 0.0 else SumSquares(qs[..|qs| - 1]) + qs[|qs| - 1] * qs[|qs| - 1]
  }

  function Constant(x: real, n: nat): (r: seq<real>)
    ensures |r| == n && forall k :: 0 <= k < n ==> r[k] == x
  {
    seq(n, _ => x)
  }

  function Less(qs: seq<real>, m: real): (r: seq<real>)
    ensures |r| == |qs| && forall k :: 0 <= k < |qs| ==> r[k] == qs[k] - m
  {
    seq(|qs|, k requires 0 <= k < |qs| => qs[k] - m)
  }

  lemma {:induction false} TorqueSums(qs: seq<real>, w: Complex)
    ensures var t := TorqueAfter(qs, w);
      && t.sum == Sum(qs) && t.squares == SumSquares(qs) && t.phasor == Pow(w, |qs|)
      && t.proj == Projection(qs, w) && t.ones == Projection(Constant(1.0, |qs|), w)
  {
    if qs != [] {
      var n := |qs| - 1;
      TorqueSums(qs[..n], w);
      assert Constant(1.0, n + 1)[..n] == Constant(1.0, n);
      assert Scale(1.0, Pow(w, n)) == Pow(w, n);
      hide Mul, Scale;
    }
  }

  /** The step of the projection, with one sample less its mean. */
  lemma OneMore(q: Complex, ones: Complex, x: real, m: real, p: Complex)
    ensures Add(Add(q, Scale(-m, ones)), Scale(x - m, p)) == Add(Add(q, Scale(x, p)), Scale(-m, Add(ones, Scale(1.0, p))))
  {
    ScaleAdds(x, -m, p);
    ScaleDistributes(-m, ones, Scale(1.0, p));
    ScaleTwice(-m, 1.0, p);
    assert -m * 1.0 == -m && x - m == x + -m;
    hide Scale;
  }

  lemma {:induction false} ProjectionIsLinear(qs: seq<real>, m: real, w: Complex)
    ensures Projection(Less(qs, m), w) == Add(Projection(qs, w), Scale(-m, Projection(Constant(1.0, |qs|), w)))
  {
    if qs != [] {
      var n := |qs| - 1;
      ProjectionIsLinear(qs[..n], m, w);
      assert Less(qs, m)[..n] == Less(qs[..n], m);
      assert Constant(1.0, n + 1)[..n] == Constant(1.0, n);
      hide Scale, Pow, Add;
      OneMore(Projection(qs[..n], w), Projection(Constant(1.0, n), w), qs[n], m, Pow(w, n));
    } else {
      assert Less(qs, m) == [] && Constant(1.0, 0) == [];
    }
  }

  lemma ScaleAdds(x: real, y: real, p: Complex)
    ensures Scale(x + y, p) == Add(Scale(x, p), Scale(y, p))
  {}

  lemma ScaleDistributes(x: real, p: Complex, q: Complex)
    ensures Scale(x, Add(p, q)) == Add(Scale(x, p), Scale(x, q))
  {}

  lemma ScaleTwice(x: real, y: real, p: Complex)
    ensures Scale(x, Scale(y, p)) == Scale(x * y, p)
  {}

  /** What finishing a segment takes as the torque at the excitation frequency. */
  function MeanRemoved(t: Torque, m: real): Complex {
    Complex(t.proj.re - m * t.ones.re, t.proj.im - m * t.ones.im)
  }

  /** Taking the mean times the bin of a constant off the torque's bin is projecting the torque
      with its mean taken off: the static holding torque does not reach the ripple. */
  lemma StaticTorqueIsRemoved(qs: seq<real>, m: real, w: Complex)
    ensures MeanRemoved(TorqueAfter(qs, w), m) == Projection(Less(qs, m), w)
  {
    hide MeanRemoved, Scale, Projection, TorqueAfter, Mul, TorqueNext, SumsNext;
    TorqueSums(qs, w);
    ProjectionIsLinear(qs, m, w);
    Subtracted(TorqueAfter(qs, w), m);
  }

  lemma Subtracted(t: Torque, m: real)
    ensures MeanRemoved(t, m) == Add(t.proj, Scale(-m, t.ones))
  {
    var p := Name(m * t.ones.re);
    var q := Name(m * t.ones.im);
    NegatedScale(m, t.ones, p, q);
    hide Scale;
  }

  lemma NegatedScale(m: real, b: Complex, p: real, q: real)
    requires p == m * b.re && q == m * b.im
    ensures Scale(-m, b) == Complex(-p, -q)
  {}

  /** The phasor never leaves the unit circle. */
  lemma {:induction false} PhasorStaysOnTheCircle(w: Complex, k: nat)
    requires OnCircle(w)
    ensures OnCircle(Pow(w, k))
  {
    if k > 0 {
      PhasorStaysOnTheCircle(w, k - 1);
      ProductOnCircle(Pow(w, k - 1), w);
      hide OnCircle, Mul;
    }
  }

  /** The norm of a product is the product of the norms. */
  lemma NormOfProduct(a: real, b: real, c: real, d: real)
    ensures (a * c - b * d) * (a * c - b * d) + (b * c + a * d) * (b * c + a * d) == (a * a + b * b) * (c * c + d * d)
  {}

  lemma ProductOnCircle(a: Complex, b: Complex)
    requires OnCircle(a) && OnCircle(b)
    ensures OnCircle(Mul(a, b))
  {
    NormOfProduct(a.re, a.im, b.re, b.im);
    assert (a.re * a.re + a.im * a.im) * (b.re * b.re + b.im * b.im) == 1.0;
  }

  // ----- the variance -----

  /** The sum of squares about any value, from the sums the engine keeps. */
  lemma {:induction false} SquaresAbout(qs: seq<real>, m: real, mm: real, ms: real, nmm: real)
    requires mm == m * m && ms == m * Sum(qs) && nmm == |qs| as real * mm
    ensures SumSquares(qs) - 2.0 * ms + nmm >= 0.0
  {
    if qs != [] {
      var n := |qs| - 1;
      var q := qs[n];
      var mq := Name(m * q);
      SquaresAbout(qs[..n], m, mm, ms - mq, nmm - mm);
      Square(q - m, (q - m) * (q - m));
      assert (q - m) * (q - m) == q * q - 2.0 * mq + mm;
    }
  }

  /** The expression under the square root of the torque ripple is never negative. */
  lemma VarianceIsNotNegative(qs: seq<real>, n: real, mean: real, meanSquare: real)
    requires |qs| > 0 && n == |qs| as real && mean == Sum(qs) / n && meanSquare == SumSquares(qs) / n
    ensures meanSquare - mean * mean >= 0.0
  {
    QuotientTimes(Sum(qs), n, mean);
    QuotientTimes(SumSquares(qs), n, meanSquare);
    VarianceFromProducts(qs, n, mean, meanSquare);
  }

  lemma QuotientTimes(x: real, n: real, q: real)
    requires n > 0.0 && q == x / n
    ensures q * n == x
  {}

  lemma VarianceFromProducts(qs: seq<real>, n: real, mean: real, meanSquare: real)
    requires n == |qs| as real > 0.0 && mean * n == Sum(qs) && meanSquare * n == SumSquares(qs)
    ensures meanSquare - mean * mean >= 0.0
  {
    var mm := Name(mean * mean);
    var ms := Name(mean * Sum(qs));
    var nmm := Name(n * mm);
    assert ms == nmm by { assert mean * (mean * n) == n * (mean * mean); }
    SquaresAbout(qs, mean, mm, ms, nmm);
    Cancel(n, mm, meanSquare, nmm, SumSquares(qs));
  }
}
