/** Which drifts and which gains lock, without the latency: for a cycle no longer than the
    proportional time, every state locks a drift out exactly when the drift is smaller than the
    clamp and the integral gain is small enough for the cycle, ki*dt < kp. With a = kp*dt, b = ki*dt^2, the phase error e and z, the
    trim the integrator asks for beyond the drift, a cycle below the clamp takes e to e - v and z
    to z + b*e, where v = a*e + z; one at the clamp moves e alone, by what the clamp leaves. */
module DriftGains {
  import opened RealArithmetic
  import opened DcPhaseLock
  import DriftLock

  // ----- the cycle in two coordinates -----

  datatype Point = Point(e: real, z: real)

  /** `high` and `low`: how far the clamp lets the error move down and up in a cycle. */
  datatype Loop = Loop(a: real, b: real, high: real, low: real)

  predicate Sound(l: Loop) { 0.0 < l.a <= 1.0 && 0.0 < l.b && l.high > 0.0 && l.low > 0.0 }

  /** Gains that contract, and with an integral part too large for the plain sum of squares. */
  predicate Springy(l: Loop) { Sound(l) && l.b < l.a && Times(l.a, l.a) <= 2.0 * l.b }

  function Asked(l: Loop, x: Point): real { Times(l.a, x.e) + x.z }

  predicate Clamped(l: Loop, x: Point) { Asked(l, x) > l.high || Asked(l, x) < -l.low }

  function Next(l: Loop, x: Point): Point {
    if Asked(l, x) > l.high then Point(x.e - l.high, x.z)
    else if Asked(l, x) < -l.low then Point(x.e + l.low, x.z)
    else Point(x.e - Asked(l, x), x.z + Times(l.b, x.e))
  }

  function After(l: Loop, x: Point, n: nat): Point { if n == 0 then x else Next(l, After(l, x, n - 1)) }

  /** The other way round. */
  function Mirror(l: Loop): Loop { Loop(l.a, l.b, l.low, l.high) }

  function Negated(x: Point): Point { Point(-x.e, -x.z) }

  function Energy(l: Loop, x: Point): real { Form(l.a, l.b, x.e, x.z) }

  lemma MirrorImage(l: Loop, x: Point)
    requires Sound(l)
    ensures Asked(Mirror(l), Negated(x)) == -Asked(l, x) && Next(Mirror(l), Negated(x)) == Negated(Next(l, x))
    ensures Energy(Mirror(l), Negated(x)) == Energy(l, x)
  {
    TimesNegated(l.a, x.e);
    TimesNegated(l.b, x.e);
    TimesNegated(x.e, x.z);
    TimesNegated(0.0, x.e);
    TimesNegated(0.0, x.z);
    hide Times;
  }

  function Form(a: real, b: real, e: real, z: real): real {
    Times(b, Times(e, e)) + Times(a, Times(e, z)) + Times(z, z)
  }

  /** Below the clamp the energy is multiplied by 1 - a + b, whatever the gains. */
  lemma FreeEnergy(l: Loop, x: Point)
    requires !Clamped(l, x)
    ensures Energy(l, Next(l, x)) == Times(1.0 - l.a + l.b, Energy(l, x))
  {
    FormMultiplies(l.a, l.b, x.e, x.z);
    hide Times;
  }

  lemma FormMultiplies(a: real, b: real, e: real, z: real)
    ensures Form(a, b, e - (Times(a, e) + z), z + Times(b, e)) == Times(1.0 - a + b, Form(a, b, e, z))
  {}

  /** At the clamp, with the error on the side the clamp works against, the energy falls. */
  lemma HighEnergy(l: Loop, x: Point)
    requires Springy(l) && Asked(l, x) > l.high && x.z <= l.high
    ensures Energy(l, Next(l, x)) <= Energy(l, x) - Times(l.a - l.b, Times(l.high, l.high))
  {
    hide Times;
    ErrorIsAhead(l.a, x.e);
    FallAtClamp(l.a, l.b, l.high, x.e, x.z);
  }

  lemma ErrorIsAhead(a: real, e: real)
    requires a > 0.0 && Times(a, e) > 0.0
    ensures e > 0.0
  {
    if e <= 0.0 { MulMono(a, e, 0.0, a * e, 0.0); }
  }

  lemma FallAtClamp(a: real, b: real, d: real, e: real, z: real)
    requires a > 0.0 && d > 0.0 && e > 0.0 && Times(a, e) + z > d && Times(a, a) <= 2.0 * b
    ensures Form(a, b, e - d, z) <= Form(a, b, e, z) - Times(a - b, Times(d, d))
  {
    var v := Name(Times(a, e) + z);
    var c := Name(2.0 * b - Times(a, a));
    var gain := Name(Times(a, v) + Times(c, e) - Times(b, d));
    FallIs(a, b, d, e, z, v, c, gain);
    GainIs(a, b, d, e, v, c, gain);
    hide Times, Form;
  }

  lemma GainIs(a: real, b: real, d: real, e: real, v: real, c: real, gain: real)
    requires a > 0.0 && d > 0.0 && e > 0.0 && v > d && c >= 0.0 && gain == Times(a, v) + Times(c, e) - Times(b, d)
    ensures Times(a - b, Times(d, d)) <= Times(d, gain)
  {
    MulMono(a, d, v, a * d, Times(a, v));
    MulNonNegative(c, e, Times(c, e));
    MulMono(d, (a - b) * d, gain, d * ((a - b) * d), Times(d, gain));
    assert d * ((a - b) * d) == (a - b) * (d * d);
  }

  lemma FallIs(a: real, b: real, d: real, e: real, z: real, v: real, c: real, gain: real)
    requires v == Times(a, e) + z && c == 2.0 * b - Times(a, a) && gain == Times(a, v) + Times(c, e) - Times(b, d)
    ensures Form(a, b, e - d, z) == Form(a, b, e, z) - Times(d, gain)
  {
    assert Times(a, v) == a * (a * e) + a * z;
    assert Times(c, e) == 2.0 * (b * e) - (a * a) * e;
    assert (a * a) * e == a * (a * e);
    var g := Name(2.0 * (b * e) + a * z - b * d);
    assert gain == g;
    FormLess(a, b, d, e, z, g);
    hide Form;
  }

  lemma FormLess(a: real, b: real, d: real, e: real, z: real, g: real)
    requires g == 2.0 * (b * e) + a * z - b * d
    ensures Form(a, b, e - d, z) == Form(a, b, e, z) - Times(d, g)
  {}

  // ----- the one way the energy can rise, and that it ends -----

  /** At the clamp because of the integrator alone: the clamp may drive the error away. */
  predicate Wound(l: Loop, x: Point) {
    (Asked(l, x) > l.high && x.z > l.high) || (Asked(l, x) < -l.low && x.z < -l.low)
  }

  lemma MirrorWound(l: Loop, x: Point)
    requires Sound(l)
    ensures Wound(Mirror(l), Negated(x)) == Wound(l, x) && Clamped(Mirror(l), Negated(x)) == Clamped(l, x)
  {
    MirrorImage(l, x);
    hide Asked;
  }

  lemma FreeIsNotWoundHigh(l: Loop, x: Point)
    requires Sound(l) && l.b < l.a && !Clamped(l, x)
    ensures var y := Next(l, x); !(Asked(l, y) > l.high && y.z > l.high)
  {
    FreeSteps(l.a, l.b, l.high, x.e, x.z, Asked(l, x));
  }

  /** With the error ahead the integrator stays below what was asked; with it behind the demand
      shrinks. */
  lemma FreeSteps(a: real, b: real, d: real, e: real, z: real, v: real)
    requires 0.0 < b < a <= 1.0 && d > 0.0 && v == Times(a, e) + z && v <= d
    ensures z + Times(b, e) <= d || Times(a, e - v) + z + Times(b, e) <= d
  {
    var ae := Name(Times(a, e));
    var be := Name(Times(b, e));
    if e >= 0.0 {
      MulMono(e, b, a, be, ae);
    } else {
      MulMono(b, e, 0.0, be, 0.0);
      var rest := Name((1.0 - a) * v);
      assert Times(a, e - v) + z == rest;
      MulMono(1.0 - a, v, d, rest, (1.0 - a) * d);
      MulMono(d, 1.0 - a, 1.0, (1.0 - a) * d, d);
    }
  }

  lemma ClampedIsNotWound(l: Loop, x: Point)
    requires Sound(l) && Asked(l, x) > l.high && x.z <= l.high
    ensures !Wound(l, Next(l, x))
  {
    var ad := Name(Times(l.a, l.high));
    MulMono(l.high, l.a, 1.0, ad, l.high);
    assert Asked(l, Next(l, x)) == Asked(l, x) - ad;
    hide Asked;
  }

  /** Once the integrator is not what holds the loop at the clamp, it never is again. */
  lemma NeverWoundAgain(l: Loop, x: Point)
    requires Sound(l) && l.b < l.a && !Wound(l, x)
    ensures !Wound(l, Next(l, x))
  {
    var m, y := Mirror(l), Negated(x);
    MirrorImage(l, x);
    MirrorWound(l, x);
    MirrorWound(l, Next(l, x));
    MirrorImage(l, Next(l, x));
    if Asked(l, x) > l.high {
      ClampedIsNotWound(l, x);
    } else if Asked(l, x) < -l.low {
      ClampedIsNotWound(m, y);
    } else {
      FreeIsNotWoundHigh(l, x);
      FreeIsNotWoundHigh(m, y);
    }
    hide Asked, Next;
  }

  function Fall(l: Loop): real { Min(Times(l.high, l.high), Times(l.low, l.low)) }

  /** Every cycle takes a fixed part or a fixed amount of the energy off. */
  lemma EnergyFalls(l: Loop, x: Point)
    requires Springy(l) && !Wound(l, x)
    ensures Energy(l, Next(l, x)) <= Energy(l, x) - Times(l.a - l.b, Energy(l, x))
         || Energy(l, Next(l, x)) <= Energy(l, x) - Times(l.a - l.b, Fall(l))
  {
    hide Times, Asked, Next, Energy, Fall;
    FallIsLeast(l);
    if Asked(l, x) > l.high {
      HighEnergy(l, x);
    } else if Asked(l, x) < -l.low {
      MirrorImage(l, x);
      MirrorImage(l, Next(l, x));
      HighEnergy(Mirror(l), Negated(x));
    } else {
      FreeEnergy(l, x);
      Rest(l.a - l.b, Energy(l, x));
    }
  }

  lemma FallIsLeast(l: Loop)
    requires Springy(l)
    ensures Times(l.a - l.b, Fall(l)) <= Times(l.a - l.b, Times(l.high, l.high))
    ensures Times(l.a - l.b, Fall(l)) <= Times(l.a - l.b, Times(l.low, l.low))
  {
    LessTimes(l.a - l.b, Fall(l), Times(l.high, l.high));
    LessTimes(l.a - l.b, Fall(l), Times(l.low, l.low));
    hide Times;
  }

  lemma Rest(r: real, v: real)
    ensures Times(1.0 - r, v) == v - Times(r, v)
  {}

  lemma EnergyOfError(l: Loop, x: Point)
    requires Springy(l)
    ensures 2.0 * Energy(l, x) >= Times(l.b, Times(x.e, x.e)) >= 0.0
  {
    var c := Name(4.0 * l.b - Times(l.a, l.a));
    var ee := Name(Times(x.e, x.e));
    var q := Name(Times(2.0 * x.z + Times(l.a, x.e), 2.0 * x.z + Times(l.a, x.e)));
    Square(x.e, ee);
    Square(2.0 * x.z + Times(l.a, x.e), q);
    Completed(l.a, l.b, x.e, x.z, c, ee, q);
    MulMono(ee, 2.0 * l.b, c, Times(2.0 * l.b, ee), Times(c, ee));
    MulNonNegative(l.b, ee, Times(l.b, ee));
    assert Times(2.0 * l.b, ee) == 2.0 * Times(l.b, ee);
    hide Times, Energy;
  }

  lemma Completed(a: real, b: real, e: real, z: real, c: real, ee: real, q: real)
    requires c == 4.0 * b - Times(a, a) && ee == Times(e, e) && q == Times(2.0 * z + Times(a, e), 2.0 * z + Times(a, e))
    ensures 4.0 * Form(a, b, e, z) == Times(c, ee) + q
  {
    assert Times(a, e) * Times(a, e) == (a * a) * (e * e);
  }

  // ----- whole runs -----

  /** A wound loop unwinds: what is asked falls by the same amount at every cycle. */
  lemma {:induction false} Unwinds(l: Loop, x: Point, n: nat) returns (m: nat)
    requires Sound(l) && l.b < l.a && Abs(Asked(l, x)) <= Times(Times(l.a, Min(l.high, l.low)), n as real)
    ensures !Wound(l, After(l, x, m))
    decreases n
  {
    if !Wound(l, x) {
      m := 0;
    } else {
      var d := if Asked(l, x) > l.high then l.high else l.low;
      UnwindStep(l, x, n);
      m := Unwinds(l, Next(l, x), n - 1);
      AfterNext(l, x, m);
      m := m + 1;
    }
  }

  lemma UnwindStep(l: Loop, x: Point, n: nat)
    requires Sound(l) && Wound(l, x) && Abs(Asked(l, x)) <= Times(Times(l.a, Min(l.high, l.low)), n as real)
    ensures n > 0 && Abs(Asked(l, Next(l, x))) <= Times(Times(l.a, Min(l.high, l.low)), (n - 1) as real)
  {
    var least := Min(l.high, l.low);
    hide Times;
    LessTimes(l.a, least, l.high);
    LessTimes(l.a, least, l.low);
    PartOf(l.a, l.high);
    PartOf(l.a, l.low);
    OneMoreTime(Times(l.a, least), n);
    MovedBy(l.a, x.e, l.high);
    MovedBy(l.a, x.e, -l.low);
    TimesNegated(l.a, l.low);
  }

  lemma PartOf(a: real, d: real)
    requires a <= 1.0 && d >= 0.0
    ensures Times(a, d) <= d
  {
    MulMono(d, a, 1.0, d * a, d);
  }

  lemma OneMoreTime(g: real, n: nat)
    ensures n == 0 ==> Times(g, n as real) == 0.0
    ensures n > 0 ==> Times(g, n as real) == Times(g, (n - 1) as real) + g
  {
    if n > 0 {
      assert n as real == (n - 1) as real + 1.0;
    }
  }

  lemma MovedBy(a: real, e: real, d: real)
    ensures Times(a, e - d) == Times(a, e) - Times(a, d)
  {}

  lemma {:induction false} AfterNext(l: Loop, x: Point, n: nat)
    ensures After(l, Next(l, x), n) == After(l, x, n + 1)
  {
    if n > 0 {
      AfterNext(l, x, n - 1);
    }
  }

  function Gain(l: Loop, low: real): real { Times(l.a - l.b, Min(low, Fall(l))) }

  lemma {:induction false} EnergyGoesDown(l: Loop, x: Point, low: real, n: nat)
    requires Springy(l) && !Wound(l, x) && low > 0.0
    ensures !Wound(l, After(l, x, n)) && Down(Energy(l, After(l, x, n)), Energy(l, x), Gain(l, low), low, n)
  {
    if n == 0 {
      assert Times(Gain(l, low), 0.0) == 0.0;
    } else {
      EnergyGoesDown(l, x, low, n - 1);
      var y := After(l, x, n - 1);
      EnergyFalls(l, y);
      EnergyOfError(l, y);
      NeverWoundAgain(l, y);
      GainBelow(l, low);
      hide Energy, Wound, Next, Times, Down, Springy, Gain, Fall;
      DownOne(Energy(l, y), Energy(l, Next(l, y)), Energy(l, x), Gain(l, low), l.a - l.b, Times(l.a - l.b, Fall(l)), low, n - 1);
    }
  }

  lemma GainBelow(l: Loop, low: real)
    requires Springy(l) && low > 0.0
    ensures 0.0 < Gain(l, low) <= Times(l.a - l.b, low) && Gain(l, low) <= Times(l.a - l.b, Fall(l)) && l.a - l.b > 0.0
    ensures Times(l.a - l.b, Fall(l)) >= 0.0
  {
    var r, m := l.a - l.b, Min(low, Fall(l));
    MulPositive(l.high, l.high, Times(l.high, l.high));
    MulPositive(l.low, l.low, Times(l.low, l.low));
    MulPositive(r, m, Times(r, m));
    MulMono(r, m, low, Times(r, m), Times(r, low));
    MulMono(r, m, Fall(l), Times(r, m), Times(r, Fall(l)));
    hide Times, Fall;
  }

  function Sure(l: Loop, x: Point, low: real): nat
    requires Springy(l) && low > 0.0
  {
    GainBelow(l, low);
    EnergyOfError(l, x);
    Enough(Energy(l, x), Gain(l, low))
  }

  lemma SmallEnergy(l: Loop, x: Point, tol: real)
    requires Springy(l) && tol > 0.0 && 2.0 * Energy(l, x) < Times(l.b, Times(tol, tol))
    ensures Abs(x.e) < tol
  {
    EnergyOfError(l, x);
    hide Energy, Times;
    if Abs(x.e) >= tol {
      AtLeastSquares(x.e, tol);
      LessTimes(l.b, Times(tol, tol), Times(x.e, x.e));
    }
  }

  ghost predicate SmallFrom(l: Loop, x: Point, tol: real, settled: nat) {
    forall n: nat :: n >= settled ==> Abs(After(l, x, n).e) < tol
  }

  lemma {:induction false} AfterAdds(l: Loop, x: Point, m: nat, n: nat)
    ensures After(l, After(l, x, m), n) == After(l, x, m + n)
  {
    if n > 0 {
      AfterAdds(l, x, m, n - 1);
    }
  }

  lemma SpringyLocked(l: Loop, x: Point, tol: real) returns (settled: nat)
    requires Springy(l) && tol > 0.0
    ensures SmallFrom(l, x, tol, settled)
  {
    var least := Name(Times(l.a, Min(l.high, l.low)));
    MulPositive(l.a, Min(l.high, l.low), least);
    var many := Enough(Abs(Asked(l, x)), least);
    EnoughTimes(Abs(Asked(l, x)), least);
    var m := Unwinds(l, x, many);
    var y := After(l, x, m);
    var low := 0.5 * Times(l.b, Times(tol, tol));
    MulPositive(tol, tol, Times(tol, tol));
    MulPositive(l.b, Times(tol, tol), Times(l.b, Times(tol, tol)));
    settled := m + Sure(l, y, low);
    forall n: nat | n >= settled ensures Abs(After(l, x, n).e) < tol {
      AfterAdds(l, x, m, n - m);
      EnergyGoesDown(l, y, low, n - m);
      var z := After(l, y, n - m);
      GainBelow(l, low);
      EnergyOfError(l, z);
      EnergyOfError(l, y);
      hide Energy, Gain, Wound, After, Down, Times, Asked;
      DownEnough(Energy(l, z), Energy(l, y), Gain(l, low), low, n - m);
      SmallEnergy(l, z, tol);
    }
  }

  lemma EnoughTimes(x: real, g: real)
    requires x >= 0.0 && g > 0.0
    ensures x <= Times(g, Enough(x, g) as real)
  {
    var q := Name(x / g);
    assert q * g == x;
    DivBound(0.0, x, g, 0.0, q);
    MulMono(g, q, Enough(x, g) as real, q * g, Times(g, Enough(x, g) as real));
  }

  // ----- with too much integral gain nothing locks -----

  predicate Resting(x: Point) { x.e == 0.0 && x.z == 0.0 }

  lemma StaysAwake(l: Loop, x: Point)
    requires Sound(l) && l.a <= l.b && !Resting(x)
    ensures !Resting(Next(l, x))
  {
    var y := Next(l, x);
    PartOf(l.a, l.high);
    PartOf(l.a, l.low);
    TimesNegated(l.a, l.low);
    if Resting(y) && !Clamped(l, x) {
      OnlyFromRest(l.a, l.b, x.e, x.z);
    }
    hide Times;
  }

  lemma OnlyFromRest(a: real, b: real, e: real, z: real)
    requires a <= b && e == Times(a, e) + z && z == -Times(b, e)
    ensures e == 0.0 && z == 0.0
  {
    var r := Name((b - a) * e);
    assert e == -r;
    if e > 0.0 { MulNonNegative(b - a, e, r); }
    if e < 0.0 { MulNonNegative(b - a, -e, -r); }
    assert Times(b, 0.0) == 0.0;
  }

  lemma {:induction false} NeverRests(l: Loop, x: Point, n: nat)
    requires Sound(l) && l.a <= l.b && !Resting(x)
    ensures !Resting(After(l, x, n))
  {
    if n > 0 {
      NeverRests(l, x, n - 1);
      StaysAwake(l, After(l, x, n - 1));
    }
  }

  lemma EnergyIsPositive(l: Loop, x: Point)
    requires Sound(l) && l.a <= l.b && !Resting(x)
    ensures Energy(l, x) > 0.0
  {
    var c := Name(4.0 * l.b - Times(l.a, l.a));
    var ee := Name(Times(x.e, x.e));
    var y := Name(2.0 * x.z + Times(l.a, x.e));
    Completed(l.a, l.b, x.e, x.z, c, ee, Times(y, y));
    PartOf(l.a, l.a);
    if x.e != 0.0 {
      NotZeroSquared(x.e);
      MulPositive(c, ee, Times(c, ee));
      Square(y, Times(y, y));
    } else {
      assert Times(l.a, 0.0) == 0.0 && Times(0.0, 0.0) == 0.0 && Times(c, 0.0) == 0.0;
      NotZeroSquared(y);
    }
    hide Times, Energy;
  }

  lemma NotZeroSquared(x: real)
    requires x != 0.0
    ensures Times(x, x) > 0.0
  {
    if x > 0.0 { MulPositive(x, x, x * x); } else { MulPositive(-x, -x, x * x); }
  }

  /** Errors this small, one after the other, mean a cycle below the clamp. */
  lemma SmallIsFree(l: Loop, x: Point, tol: real)
    requires Sound(l) && 2.0 * tol <= l.high && 2.0 * tol <= l.low && Abs(x.e) < tol && Abs(Next(l, x).e) < tol
    ensures !Clamped(l, x) && Abs(Asked(l, x)) < 2.0 * tol
  {
    hide Asked;
  }

  lemma GrowsFree(l: Loop, x: Point)
    requires l.a <= l.b && !Clamped(l, x) && Energy(l, x) >= 0.0
    ensures Energy(l, Next(l, x)) >= Energy(l, x)
  {
    FreeEnergy(l, x);
    MulMono(Energy(l, x), 1.0, 1.0 - l.a + l.b, Energy(l, x), Times(1.0 - l.a + l.b, Energy(l, x)));
    hide Energy, Next;
  }

  lemma {:induction false} EnergyGrows(l: Loop, x: Point, tol: real, m: nat, n: nat)
    requires Sound(l) && l.a <= l.b && !Resting(x) && 2.0 * tol <= l.high && 2.0 * tol <= l.low
    requires SmallFrom(l, x, tol, m) && m <= n
    ensures Energy(l, After(l, x, n)) >= Energy(l, After(l, x, m))
    decreases n
  {
    if m < n {
      EnergyGrows(l, x, tol, m, n - 1);
      var y := After(l, x, n - 1);
      assert Next(l, y) == After(l, x, n);
      assert Abs(y.e) < tol && Abs(After(l, x, n).e) < tol;
      NeverRests(l, x, n - 1);
      EnergyIsPositive(l, y);
      hide Energy, After, Next, Clamped;
      SmallIsFree(l, y, tol);
      GrowsFree(l, y);
    }
  }

  lemma SmallPointSmallEnergy(l: Loop, x: Point, tol: real, bound: real)
    requires Sound(l) && 0.0 < tol <= 1.0 && Abs(x.e) < tol && Abs(Asked(l, x)) < 2.0 * tol
    requires bound == Times(l.b + 12.0, tol)
    ensures Energy(l, x) <= bound
  {
    var ae := Name(Times(l.a, x.e));
    MulAbs(l.a, x.e, ae);
    PartOf(l.a, Abs(x.e));
    assert Abs(ae) == Times(l.a, Abs(x.e));
    PartOf(tol, tol);
    hide Times;
    assert Abs(x.z) < 3.0 * tol;
    hide Asked;
    ProductBelow(x.e, x.e, tol, tol);
    ProductBelow(x.e, x.z, tol, 3.0);
    ProductBelow(x.z, x.z, 3.0 * tol, 3.0);
    LessTimes(l.b, Times(x.e, x.e), tol);
    ProductBelow(l.a, Times(x.e, x.z), 1.0, 3.0 * tol);
    SumOfParts(l.b, tol);
    hide Times;
  }

  lemma SumOfParts(b: real, tol: real)
    ensures Times(b + 12.0, tol) == Times(b, tol) + 12.0 * tol && Times(3.0 * tol, 3.0) == 9.0 * tol && Times(tol, 3.0) == 3.0 * tol
    ensures Times(1.0, 3.0 * tol) == 3.0 * tol
  {}

  lemma ProductBelow(x: real, y: real, p: real, q: real)
    requires Abs(x) <= p && Abs(y) <= q
    ensures Abs(Times(x, y)) <= Times(p, q)
  {
    MulAbs(x, y, Times(x, y));
    var m := Name(p * Abs(y));
    MulMono(Abs(y), Abs(x), p, Abs(x) * Abs(y), m);
    MulMono(p, Abs(y), q, m, Times(p, q));
  }

  /** No state but rest settles. */
  lemma NothingSettles(l: Loop, x: Point)
    requires Sound(l) && l.a <= l.b && !Resting(x)
    ensures exists tol: real :: tol > 0.0 && !Settled(l, x, tol)
  {
    var first := 0.5 * Min(l.high, l.low);
    if Settled(l, x, first) {
      var m: nat :| SmallFrom(l, x, first, m);
      var least := Energy(l, After(l, x, m));
      NeverRests(l, x, m);
      EnergyIsPositive(l, After(l, x, m));
      var tol := Fraction(l.b + 12.0, least, Min(1.0, first));
      hide Energy, After;
      if Settled(l, x, tol) {
        var k: nat :| SmallFrom(l, x, tol, k);
        var n := if k < m then m else k;
        EnergyGrows(l, x, first, m, n);
        TooSmall(l, x, tol, n, k);
        assert false;
      }
      assert !Settled(l, x, tol);
    } else {
      assert first > 0.0;
    }
  }

  ghost predicate Settled(l: Loop, x: Point, tol: real) { exists settled: nat :: SmallFrom(l, x, tol, settled) }

  lemma Fraction(k: real, e: real, cap: real) returns (tol: real)
    requires k > 0.0 && e > 0.0 && cap > 0.0
    ensures 0.0 < tol <= cap && Times(k, tol) < e
  {
    var q := Name(e / k);
    assert q * k == e;
    if q <= 0.0 { MulMono(k, q, 0.0, q * k, 0.0); }
    tol := Min(cap, 0.5 * q);
    MulMono(k, tol, 0.5 * q, Times(k, tol), 0.5 * e);
  }

  lemma TooSmall(l: Loop, x: Point, tol: real, n: nat, k: nat)
    requires Sound(l) && 0.0 < tol <= 1.0 && 2.0 * tol <= l.high && 2.0 * tol <= l.low && SmallFrom(l, x, tol, k) && k <= n
    ensures Energy(l, After(l, x, n)) <= Times(l.b + 12.0, tol)
  {
    var y := After(l, x, n);
    assert Next(l, y) == After(l, x, n + 1);
    assert Abs(y.e) < tol && Abs(After(l, x, n + 1).e) < tol;
    hide Energy, After, Next;
    SmallIsFree(l, y, tol);
    SmallPointSmallEnergy(l, y, tol, Times(l.b + 12.0, tol));
  }

  // ----- the compensator's loop is one of these -----

  /** A cycle no longer than the proportional time. */
  predicate Short(p: Params) { p.dtSec > 0.0 && p.kp > 0.0 && p.ki > 0.0 && p.kp * p.dtSec <= 1.0 }

  function LoopOf(p: Params, drift: real): Loop {
    Loop(Times(p.kp, p.dtSec), Times(Times(p.ki, p.dtSec), p.dtSec), p.maxTrimNs as real - drift, p.maxTrimNs as real + drift)
  }

  function At(p: Params, drift: real, s: Plant): Point { Point(s.e, Times(Times(p.ki, p.dtSec), s.integ) - drift) }

  lemma LoopIsSound(p: Params, drift: real)
    requires Short(p) && Abs(drift) < p.maxTrimNs as real
    ensures Sound(LoopOf(p, drift))
  {
    MulPositive(p.kp, p.dtSec, Times(p.kp, p.dtSec));
    MulPositive(p.ki, p.dtSec, Times(p.ki, p.dtSec));
    MulPositive(Times(p.ki, p.dtSec), p.dtSec, Times(Times(p.ki, p.dtSec), p.dtSec));
    hide Times;
  }

  lemma CycleIsNext(p: Params, drift: real, s: Plant)
    requires Short(p) && Abs(drift) < p.maxTrimNs as real
    ensures At(p, drift, Cycle(p, drift, s)) == Next(LoopOf(p, drift), At(p, drift, s))
  {
    DemandIs(p, s.integ, s.e);
    var l, x := LoopOf(p, drift), At(p, drift, s);
    hide Times, Demand;
    assert Asked(l, x) == -Demand(p, s.integ, s.e) - drift;
    assert Clamped(l, x) == Saturated(p, s) && Cycle(p, drift, s).e == Next(l, x).e;
    if !Saturated(p, s) {
      Stored(p, s.integ, s.e, s.e * p.dtSec);
      assert Cycle(p, drift, s).integ == s.integ + s.e * p.dtSec;
    }
  }

  lemma DemandIs(p: Params, integ: real, e: real)
    ensures Demand(p, integ, e) == -(Times(Times(p.kp, p.dtSec), e) + Times(Times(p.ki, p.dtSec), integ))
  {}

  lemma Stored(p: Params, integ: real, e: real, ed: real)
    requires ed == e * p.dtSec
    ensures Times(Times(p.ki, p.dtSec), integ + ed)
         == Times(Times(p.ki, p.dtSec), integ) + Times(Times(Times(p.ki, p.dtSec), p.dtSec), e)
  {
    assert (p.ki * p.dtSec) * (e * p.dtSec) == ((p.ki * p.dtSec) * p.dtSec) * e;
  }

  lemma {:induction false} SettleIsAfter(p: Params, drift: real, s: Plant, n: nat)
    requires Short(p) && Abs(drift) < p.maxTrimNs as real
    ensures At(p, drift, Settle(p, drift, s, n)) == After(LoopOf(p, drift), At(p, drift, s), n)
  {
    if n > 0 {
      SettleIsAfter(p, drift, s, n - 1);
      CycleIsNext(p, drift, Settle(p, drift, s, n - 1));
      hide Times, Cycle, Next;
    }
  }

  lemma SameSettling(p: Params, drift: real, s: Plant, tol: real)
    requires Short(p) && Abs(drift) < p.maxTrimNs as real
    ensures Settles(p, drift, s, tol) <==> Settled(LoopOf(p, drift), At(p, drift, s), tol)
  {
    var l, x := LoopOf(p, drift), At(p, drift, s);
    forall n: nat ensures Settle(p, drift, s, n).e == After(l, x, n).e {
      SettleIsAfter(p, drift, s, n);
    }
    if m: nat :| SettledFrom(p, drift, s, tol, m) {
      assert SmallFrom(l, x, tol, m);
    }
    if m: nat :| SmallFrom(l, x, tol, m) {
      assert SettledFrom(p, drift, s, tol, m);
    }
  }

  lemma SpringyGains(p: Params, drift: real)
    requires Short(p) && Abs(drift) < p.maxTrimNs as real && p.ki * p.dtSec < p.kp && p.kp * p.kp <= 2.0 * p.ki
    ensures Springy(LoopOf(p, drift))
  {
    LoopIsSound(p, drift);
    var dt := p.dtSec;
    MulPositive(p.kp - p.ki * dt, dt, (p.kp - p.ki * dt) * dt);
    var dd := Name(dt * dt);
    Square(dt, dd);
    MulMono(dd, p.kp * p.kp, 2.0 * p.ki, dd * (p.kp * p.kp), dd * (2.0 * p.ki));
    assert Times(Times(p.kp, dt), Times(p.kp, dt)) == dd * (p.kp * p.kp);
    assert Times(Times(p.ki, dt), dt) == dd * p.ki;
  }

  lemma TooMuchIntegral(p: Params, drift: real)
    requires Short(p) && Abs(drift) < p.maxTrimNs as real && p.ki * p.dtSec >= p.kp
    ensures !LocksOut(p, drift, Plant(1.0, 0.0))
  {
    var l, s := LoopOf(p, drift), Plant(1.0, 0.0);
    LoopIsSound(p, drift);
    MulMono(p.dtSec, p.kp, p.ki * p.dtSec, p.kp * p.dtSec, Times(Times(p.ki, p.dtSec), p.dtSec));
    NothingSettles(l, At(p, drift, s));
    var tol: real :| tol > 0.0 && !Settled(l, At(p, drift, s), tol);
    SameSettling(p, drift, s, tol);
  }

  lemma EnoughDamping(p: Params)
    requires Short(p) && 2.0 * p.ki <= p.kp * p.kp
    ensures p.ki * p.dtSec < p.kp
  {
    var kd := Name(p.ki * p.dtSec);
    MulMono(p.dtSec, 2.0 * p.ki, p.kp * p.kp, 2.0 * kd, p.dtSec * (p.kp * p.kp));
    assert p.dtSec * (p.kp * p.kp) == p.kp * (p.kp * p.dtSec);
    MulMono(p.kp, p.kp * p.dtSec, 1.0, p.kp * (p.kp * p.dtSec), p.kp);
  }

  /** From every state, saturating or not, a constant drift is locked out exactly when it is
      smaller than the clamp and the integral gain is less than the cycle allows. */
  lemma LocksExactly(p: Params, drift: real)
    requires Short(p) && p.maxTrimNs >= 0
    ensures DriftLock.LocksEverything(p, drift) <==> Abs(drift) < p.maxTrimNs as real && p.ki * p.dtSec < p.kp
  {
    if Abs(drift) >= p.maxTrimNs as real {
      DriftLock.TooMuchDrift(p, drift);
    } else if p.ki * p.dtSec >= p.kp {
      TooMuchIntegral(p, drift);
    } else if 2.0 * p.ki <= p.kp * p.kp {
      DriftLock.DampedLocks(p, drift);
    } else {
      SpringyGains(p, drift);
      forall s: Plant ensures LocksOut(p, drift, s) {
        forall tol: real | tol > 0.0 ensures Settles(p, drift, s, tol) {
          var settled := SpringyLocked(LoopOf(p, drift), At(p, drift, s), tol);
          SameSettling(p, drift, s, tol);
        }
      }
    }
  }

  /** The default gains lock exactly the drifts below the clamp out at every loop rate from
      100 Hz up, directly closed and with the cycle of latency. */
  lemma DefaultsLockExactly(p: Params, drift: real)
    requires p.kp == 2.5 && p.ki == 1.6 && 0.0 < p.dtSec <= 0.01 && p.maxTrimNs >= 0
    ensures DriftLock.LocksEverything(p, drift) <==> Abs(drift) < p.maxTrimNs as real
    ensures DriftLock.DelayedLocksEverything(p, drift) <==> Abs(drift) < p.maxTrimNs as real
  {
    DriftLock.DefaultsAreTame(p);
    LocksExactly(p, drift);
    DriftLock.DelayedLocksExactly(p, drift);
  }
}
