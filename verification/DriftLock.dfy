/** What the phase lock is for. Whatever state the compensator and the phase are in, a constant
    drift between the two clocks that is smaller than the clamp on the trim is locked out, also
    with the cycle of latency of the control loop, and one that is not smaller is not. Here for
    gains that damp; for the direct loop DriftGains has all others.

    The sum of the squares of w = kp*e + ki*j and y = ki*j, where j is how far the integrator is
    from cancelling the drift, falls on every cycle: by a factor on an unsaturated one, by a
    fixed amount on one at the clamp, of which there can then be only so many. */
module DriftLock {
  import opened RealArithmetic
  import opened DcPhaseLock

  // ----- arithmetic of one cycle, in those coordinates -----

  lemma Squares(x: real, y: real, z: real)
    ensures Times(x, x) >= 0.0 && Times(y, y) >= 0.0 && Times(z, z) >= 0.0
  {
    Square(x, x * x);
    Square(y, y * y);
    Square(z, z * z);
  }

  lemma NominalIdentity(al: real, be: real, w: real, y: real, a: real, b: real, s: real, f: real, g: real)
    requires s == al - be && a == w - s * w - be * y && b == y + be * (w - y)
    requires f == s * (w * w) + be * (y * y) && g == be * (al - 2.0 * be)
    ensures a * a + b * b == w * w + y * y - (2.0 - al) * f - g * ((w - y) * (w - y))
  {}

  lemma NominalSigns(al: real, be: real, ww: real, yy: real, dd: real, f: real, g: real)
    requires 0.0 < be && 2.0 * be <= al <= 1.0 && ww >= 0.0 && yy >= 0.0 && dd >= 0.0
    requires f == (al - be) * ww + be * yy && g == be * (al - 2.0 * be)
    ensures Times(be, ww + yy) <= (2.0 - al) * f && 0.0 <= g * dd
  {
    MulNonNegative(be, al - 2.0 * be, g);
    MulNonNegative(g, dd, g * dd);
    var bw := Name(be * ww);
    var bb := Name(be * yy);
    MulMono(ww, be, al - be, bw, (al - be) * ww);
    MulNonNegative(be, ww, bw);
    MulNonNegative(be, yy, bb);
    MulMono(f, 1.0, 2.0 - al, f, (2.0 - al) * f);
    assert Times(be, ww + yy) == bw + bb;
  }

  lemma NominalSum(al: real, be: real, w: real, y: real, a: real, b: real, f: real, g: real)
    requires a == w - Times(al, w) + Times(be, w - y) && b == y + Times(be, w - y)
    requires f == (al - be) * Times(w, w) + be * Times(y, y) && g == be * (al - 2.0 * be)
    ensures Times(a, a) + Times(b, b) == Times(w, w) + Times(y, y) - (2.0 - al) * f - g * Times(w - y, w - y)
  {
    NominalIdentity(al, be, w, y, a, b, al - be, f, g);
  }

  /** A cycle of the loop without latency, below the clamp. */
  lemma Nominal(al: real, be: real, w: real, y: real, a: real, b: real)
    requires 0.0 < be && 2.0 * be <= al <= 1.0
    requires a == w - Times(al, w) + Times(be, w - y) && b == y + Times(be, w - y)
    ensures Times(a, a) + Times(b, b) <= Times(w, w) + Times(y, y) - Times(be, Times(w, w) + Times(y, y))
  {
    var f := Name((al - be) * Times(w, w) + be * Times(y, y));
    var g := Name(be * (al - 2.0 * be));
    NominalSum(al, be, w, y, a, b, f, g);
    hide Times;
    Squares(w, y, w - y);
    NominalSigns(al, be, Times(w, w), Times(y, y), Times(w - y, w - y), f, g);
  }

  /** A disturbance of the coordinates by small multiples of m. */
  lemma DisturbedIdentity(be: real, s: real, a: real, b: real, m: real, n: real, k: real, x: real, r: real)
    requires n == a * a + b * b && r == s * s + be * be && k == s * a - be * b && x == s * b + be * a
    ensures k * k + x * x == r * n
    ensures (a + s * m) * (a + s * m) + (b - be * m) * (b - be * m) == n + 2.0 * (m * k) + r * (m * m)
  {}

  lemma Cross(m: real, k: real, mm: real, kk: real)
    requires mm == m * m && kk == k * k
    ensures 4.0 * (m * k) <= 4.0 * kk + mm
  {
    Square(2.0 * k - m, (2.0 * k - m) * (2.0 * k - m));
  }

  lemma Disturbed(be: real, s: real, a: real, b: real, m: real, n: real, r: real)
    requires n == Times(a, a) + Times(b, b) && r == Times(s, s) + Times(be, be) && 8.0 * r <= be
    ensures Times(a + Times(s, m), a + Times(s, m)) + Times(b - Times(be, m), b - Times(be, m))
            <= n + 0.25 * Times(be, n) + 0.5 * Times(m, m) + Times(r, Times(m, m))
  {
    var k := Name(s * a - be * b);
    var x := Name(s * b + be * a);
    DisturbedIdentity(be, s, a, b, m, n, k, x, r);
    Square(x, x * x);
    Square(a, a * a);
    Square(b, b * b);
    Cross(m, k, m * m, k * k);
    MulMono(n, 8.0 * r, be, 8.0 * r * n, be * n);
    assert 8.0 * r * n == 8.0 * (r * n);
  }

  lemma NextMove(w: real, m: real, ww: real, mm: real, uu: real)
    requires ww == w * w && mm == m * m && uu == (w - m) * (w - m)
    ensures uu <= 2.0 * ww + 2.0 * mm
  {
    Square(w + m, (w + m) * (w + m));
  }

  predicate Gains(al: real, be: real) { 0.0 < al && 2.0 * be <= al && 8.0 * Times(al, al) <= be }

  lemma GainsAreSmall(al: real, be: real)
    requires Gains(al, be)
    ensures al <= 0.0625 && 0.0 < be <= 0.03125
  {
    MulPositive(al, al, al * al);
    if al > 0.0625 { MulMono(al, 0.0625, al, 0.0625 * al, al * al); }
  }

  lemma SumOfFactors(al: real, be: real, s: real, r: real)
    requires Gains(al, be) && s == al - be && r == Times(s, s) + Times(be, be)
    ensures 0.0 <= r && 8.0 * r <= be && r <= 0.015625
  {
    GainsAreSmall(al, be);
    MulNonNegative(s, be, s * be);
    assert al * al == r + 2.0 * (s * be);
    Square(s, s * s);
    Square(be, be * be);
  }

  lemma MoveBound(al: real, be: real, uu: real, x: real, bx: real)
    requires 8.0 * (al * al) <= be && uu <= 2.0 * x && 0.0 <= x && bx == be * x
    ensures al * al * uu <= 0.25 * bx
  {
    var aa := Name(al * al);
    Square(al, aa);
    MulMono(aa, uu, 2.0 * x, aa * uu, aa * (2.0 * x));
    var f := Name(8.0 * aa);
    MulMono(x, f, be, f * x, bx);
    assert f * x == 8.0 * (aa * x) && aa * (2.0 * x) == 2.0 * (aa * x);
  }

  lemma Slack(be: real, v: real, mm: real, n: real, r: real)
    requires 0.0 < be <= 0.0625 && v >= 0.0 && mm >= 0.0 && r <= 0.015625 && n <= v - Times(be, v)
    ensures n + 0.25 * Times(be, n) + 0.5 * mm + Times(r, mm) <= v + mm - 0.75 * (Times(be, v) + Times(be, mm))
  {
    MulNonNegative(be, v, be * v);
    MulMono(be, n, v, be * n, be * v);
    MulMono(mm, r, 0.015625, r * mm, 0.015625 * mm);
    MulMono(mm, be, 0.0625, be * mm, 0.0625 * mm);
  }

  /** The coordinates after a cycle, as the nominal ones disturbed by the pending move. */
  lemma Moves(al: real, be: real, w: real, y: real, m: real, w1: real, y1: real, m1: real, s: real, a: real, b: real)
    requires w1 == w - Times(al, w - m) + Times(be, w - m - y) && y1 == y + Times(be, w - m - y) && m1 == -Times(al, w - m)
    requires s == al - be && a == w - Times(al, w) + Times(be, w - y) && b == y + Times(be, w - y)
    ensures w1 == a + Times(s, m) && y1 == b - Times(be, m) && Times(m1, m1) == Times(Times(al, al), Times(w - m, w - m))
  {}

  lemma NextPending(al: real, be: real, w: real, y: real, m: real, v: real)
    requires Gains(al, be) && v == Times(w, w) + Times(y, y) + Times(m, m)
    ensures Times(Times(al, al), Times(w - m, w - m)) <= 0.25 * Times(be, v) && 0.0 <= Times(m, m)
    ensures Times(be, v) == Times(be, Times(w, w) + Times(y, y)) + Times(be, Times(m, m))
  {
    Squares(w, y, m);
    NextMove(w, m, w * w, m * m, (w - m) * (w - m));
    MoveBound(al, be, (w - m) * (w - m), v, be * v);
  }

  lemma Shrunk(al: real, be: real, m: real, s: real, a: real, b: real, n: real, u: real)
    requires Gains(al, be) && s == al - be && n == Times(a, a) + Times(b, b) && n <= u - Times(be, u) && u >= 0.0
    ensures Times(a + Times(s, m), a + Times(s, m)) + Times(b - Times(be, m), b - Times(be, m))
            <= u + Times(m, m) - 0.75 * (Times(be, u) + Times(be, Times(m, m)))
  {
    var r := Times(s, s) + Times(be, be);
    GainsAreSmall(al, be);
    SumOfFactors(al, be, s, r);
    Square(m, Times(m, m));
    hide Times, Gains;
    Disturbed(be, s, a, b, m, n, r);
    Slack(be, u, Times(m, m), n, r);
  }

  /** One unsaturated cycle in the coordinates of the loop takes be/2 off the sum of squares. */
  lemma Linear(al: real, be: real, w: real, y: real, m: real, w1: real, y1: real, m1: real, v: real)
    requires Gains(al, be) && v == Times(w, w) + Times(y, y) + Times(m, m)
    requires w1 == w - Times(al, w - m) + Times(be, w - m - y) && y1 == y + Times(be, w - m - y) && m1 == -Times(al, w - m)
    ensures Times(w1, w1) + Times(y1, y1) + Times(m1, m1) <= v - 0.5 * Times(be, v)
  {
    hide Times, Gains;
    var s := al - be;
    var a, b := w - Times(al, w) + Times(be, w - y), y + Times(be, w - y);
    var u := Times(w, w) + Times(y, y);
    Moves(al, be, w, y, m, w1, y1, m1, s, a, b);
    GainsAreSmall(al, be);
    HalfOfGains(al, be, w, y);
    Nominal(al, be, w, y, a, b);
    NextPending(al, be, w, y, m, v);
    Shrunk(al, be, m, s, a, b, Times(a, a) + Times(b, b), u);
  }

  lemma HalfOfGains(al: real, be: real, w: real, y: real)
    requires Gains(al, be)
    ensures 2.0 * be <= al && 0.0 <= Times(w, w) + Times(y, y)
  {
    Squares(w, y, 0.0);
  }

  /** A move by k at the clamp: no more than the command asked for, no less than the pending one. */
  predicate Move(al: real, w: real, m: real, k: real) {
    (k > 0.0 && k <= Times(al, w - m) && -k <= m) || (k < 0.0 && Times(al, w - m) <= k && m <= -k)
  }

  lemma Clamped(al: real, w: real, m: real, k: real)
    requires 0.0 < al <= 0.0625 && Move(al, w, m, k)
    ensures Times(w - k, w - k) + Times(k, k) <= Times(w, w) + Times(m, m) - Times(k, k)
    decreases k < 0.0
  {
    if k < 0.0 {
      Clamped(al, -w, -m, -k);
    } else {
      var u := Name(w - m);
      var au := Name(al * u);
      if u < 0.0 { MulMono(al, u, 0.0, au, 0.0); }
      MulMono(u, al, 0.0625, au, 0.0625 * u);
      assert w >= 15.0 * k;
      ClampedSquares(w, m, k);
    }
  }

  lemma ClampedSquares(w: real, m: real, k: real)
    requires k > 0.0 && w >= 15.0 * k
    ensures Times(w - k, w - k) + Times(k, k) <= Times(w, w) + Times(m, m) - Times(k, k)
  {
    MulNonNegative(k, 2.0 * w - 3.0 * k, k * (2.0 * w - 3.0 * k));
    Square(m, m * m);
  }

  // ----- gains -----

  /** Gains that damp: all positive, the integral part at most half of what the square of the
      proportional one allows, and a cycle no longer than the proportional time. */
  predicate Damped(p: Params) {
    p.dtSec > 0.0 && p.kp > 0.0 && p.ki > 0.0 && 2.0 * p.ki <= p.kp * p.kp && p.kp * p.dtSec <= 1.0
  }

  function Al(p: Params): real { p.kp * p.dtSec }

  /** ... and with room for one cycle of latency: 8*kp^3*dt <= ki. */
  predicate Tame(p: Params) { Damped(p) && 8.0 * Times(Al(p), Al(p)) * p.kp <= p.ki * p.dtSec }

  /** The default gains are tame, and stable, at every loop rate from 100 Hz up. */
  lemma DefaultsAreTame(p: Params)
    requires p.kp == 2.5 && p.ki == 1.6 && 0.0 < p.dtSec <= 0.01
    ensures Tame(p) && Stable(p)
  {
    MulMono(p.dtSec, p.dtSec, 0.01, p.dtSec * p.dtSec, 0.01 * p.dtSec);
  }

  function Be(p: Params): real
    requires p.kp > 0.0
  {
    p.ki * p.dtSec / p.kp
  }

  lemma DampedGains(p: Params)
    requires Damped(p)
    ensures 0.0 < Be(p) && 2.0 * Be(p) <= Al(p) <= 1.0 && Be(p) * p.kp == p.ki * p.dtSec
  {
    var be := Name(Be(p));
    var kd := Name(p.ki * p.dtSec);
    assert be * p.kp == kd;
    MulPositive(p.ki, p.dtSec, kd);
    if be <= 0.0 { MulMono(p.kp, be, 0.0, be * p.kp, 0.0); }
    MulMono(p.dtSec, 2.0 * p.ki, p.kp * p.kp, 2.0 * kd, p.kp * Al(p));
    Cancel(p.kp, 2.0 * be, Al(p), 2.0 * kd, p.kp * Al(p));
  }

  lemma TameGains(p: Params)
    requires Tame(p)
    ensures Gains(Al(p), Be(p))
  {
    DampedGains(p);
    hide Al, Be, Damped, Times;
    var a := Name(8.0 * Times(Al(p), Al(p)));
    var kd := Name(p.ki * p.dtSec);
    Cancel(p.kp, a, Be(p), p.kp * a, kd);
    GainsAre(Al(p), Be(p));
  }

  lemma GainsAre(al: real, be: real)
    requires 0.0 < be && 2.0 * be <= al && 8.0 * Times(al, al) <= be
    ensures Gains(al, be)
  {}

  // ----- the loop with its cycle of latency -----

  /** The control loop reads the phase after its exchange and trims the cycle after: the
      error the compensator sees is the one before last. */
  datatype Delayed = Delayed(e: real, last: real, integ: real)

  function DelayedCycle(p: Params, drift: real, s: Delayed): Delayed {
    var u := Respond(p, FRESH.(integ := s.integ, primed := true), s.last);
    Delayed(s.e + drift + u.lastTrim, s.e, u.integ)
  }

  function DelayedSettle(p: Params, drift: real, s: Delayed, n: nat): Delayed {
    if n == 0 then s else DelayedCycle(p, drift, DelayedSettle(p, drift, s, n - 1))
  }

  function Seen(s: Delayed): Plant { Plant(s.last, s.integ) }

  /** The last move came from a trim inside the clamp, as every move of the loop does. */
  predicate Moved(p: Params, drift: real, s: Delayed) {
    Abs(s.e - s.last - drift) <= p.maxTrimNs as real
  }

  datatype Coords = Coords(w: real, y: real, m: real)

  function At(p: Params, drift: real, s: Delayed): Coords
    requires Loopable(p)
  {
    var y := Times(p.ki, Offset(p, drift, Seen(s)));
    Coords(Times(p.kp, s.e) + y, y, Times(p.kp, s.e - s.last))
  }

  function Size(c: Coords): real { Times(c.w, c.w) + Times(c.y, c.y) + Times(c.m, c.m) }

  /** The least that a cycle at the clamp takes off. */
  function Drop(p: Params, drift: real): real {
    Times(Times(p.kp, p.maxTrimNs as real - Abs(drift)), Times(p.kp, p.maxTrimNs as real - Abs(drift)))
  }

  /** A cycle at the clamp moves the error by the difference of clamp and drift, which is less
      than the command asked for, and leaves the integrator. */
  lemma AtClamp(p: Params, drift: real, s: Delayed, u: real) returns (x: real)
    requires Damped(p) && Saturated(p, Seen(s)) && Abs(drift) < p.maxTrimNs as real
    requires u == Times(p.kp, s.last) + Times(p.ki, Offset(p, drift, Seen(s)))
    ensures DelayedCycle(p, drift, s) == Delayed(s.e - x, s.e, s.integ)
    ensures (x == p.maxTrimNs as real - drift && x <= Times(p.dtSec, u)) || (x == -(p.maxTrimNs as real) - drift && Times(p.dtSec, u) <= x)
  {
    AroundDrift(p, drift, s, u);
    hide Times, Offset, Demand;
    x := -drift - PiStep(p, s.integ, s.last).trim;
  }

  lemma ClampedCoords(p: Params, drift: real, s: Delayed) returns (k: real)
    requires Damped(p) && Saturated(p, Seen(s)) && Abs(drift) < p.maxTrimNs as real && Moved(p, drift, s)
    ensures var c := At(p, drift, s);
            && At(p, drift, DelayedCycle(p, drift, s)) == Coords(c.w - k, c.y, -k)
            && Move(Al(p), c.w, c.m, k) && Drop(p, drift) <= Times(k, k)
  {
    hide Times;
    var j := Offset(p, drift, Seen(s));
    var u := Times(p.kp, s.last) + Times(p.ki, j);
    var x := AtClamp(p, drift, s, u);
    assert Offset(p, drift, Seen(DelayedCycle(p, drift, s))) == j;
    k := Times(p.kp, x);
    hide DelayedCycle, Damped, Offset, Saturated, Al, Be, PiStep;
    ClampedMove(p, s.e - s.last, x, Times(p.dtSec, u), p.maxTrimNs as real - Abs(drift));
    ScaledCommand(p, u);
    Distributed(p, s.e, s.last, j, x, 0.0);
  }

  lemma ClampedMove(p: Params, gap: real, x: real, du: real, least: real)
    requires p.kp > 0.0 && least > 0.0 && Abs(x) >= least
    requires (x > 0.0 && x <= du && -x <= gap) || (x < 0.0 && du <= x && gap <= -x)
    ensures var k := Times(p.kp, x);
            && ((k > 0.0 && k <= Times(p.kp, du) && -k <= Times(p.kp, gap)) || (k < 0.0 && Times(p.kp, du) <= k && Times(p.kp, gap) <= -k))
            && Times(Times(p.kp, least), Times(p.kp, least)) <= Times(k, k)
  {
    var k, kl := Times(p.kp, x), Times(p.kp, least);
    MulPositive(p.kp, least, kl);
    hide Times;
    TimesNegated(p.kp, x);
    if x > 0.0 {
      LessTimes(p.kp, x, du);
      LessTimes(p.kp, -x, gap);
      LessTimes(p.kp, least, x);
    } else {
      LessTimes(p.kp, du, x);
      LessTimes(p.kp, gap, -x);
      LessTimes(p.kp, least, -x);
    }
    AtLeastSquares(k, kl);
  }

  lemma LinearCoords(p: Params, drift: real, s: Delayed)
    requires Damped(p) && !Saturated(p, Seen(s))
    ensures var c := At(p, drift, s); var t := At(p, drift, DelayedCycle(p, drift, s));
            && t.w == c.w - Times(Al(p), c.w - c.m) + Times(Be(p), c.w - c.m - c.y)
            && t.y == c.y + Times(Be(p), c.w - c.m - c.y) && t.m == -Times(Al(p), c.w - c.m)
  {
    var j := Offset(p, drift, Seen(s));
    var u := Times(p.kp, s.last) + Times(p.ki, j);
    NextState(p, drift, s, u);
    DampedGains(p);
    hide Times, DelayedCycle, Damped, Al, Be, Offset, Saturated;
    Rescaled(p, Be(p), s.last, u);
    Distributed(p, s.e, s.last, j, Times(p.dtSec, u), Times(p.dtSec, s.last));
  }

  lemma NextState(p: Params, drift: real, s: Delayed, u: real)
    requires Damped(p) && !Saturated(p, Seen(s)) && u == Times(p.kp, s.last) + Times(p.ki, Offset(p, drift, Seen(s)))
    ensures var t := DelayedCycle(p, drift, s);
            && t.e == s.e - Times(p.dtSec, u) && t.last == s.e
            && Offset(p, drift, Seen(t)) == Offset(p, drift, Seen(s)) + Times(p.dtSec, s.last)
  {
    AroundDrift(p, drift, s, u);
    var dl := Name(Times(p.dtSec, s.last));
    assert dl == s.last * p.dtSec;
    hide Times, Demand;
  }

  /** What an unsaturated cycle asks for, in the command about the drift. */
  lemma AroundDrift(p: Params, drift: real, s: Delayed, u: real)
    requires Damped(p) && u == Times(p.kp, s.last) + Times(p.ki, Offset(p, drift, Seen(s)))
    ensures Demand(p, s.integ, s.last) == -Times(p.dtSec, u) - drift
  {
    hide Offset, Demand;
    DemandAroundDrift(p, drift, Seen(s), u);
  }

  lemma ScaledCommand(p: Params, u: real)
    ensures Times(p.kp, Times(p.dtSec, u)) == Times(Al(p), u)
  {}

  lemma Rescaled(p: Params, be: real, last: real, u: real)
    requires be * p.kp == p.ki * p.dtSec
    ensures Times(p.kp, Times(p.dtSec, u)) == Times(Al(p), u)
    ensures Times(p.ki, Times(p.dtSec, last)) == Times(be, Times(p.kp, last))
  {
    assert be * (p.kp * last) == (be * p.kp) * last;
  }

  lemma Distributed(p: Params, e: real, last: real, j: real, du: real, dl: real)
    ensures Times(p.kp, e - du) == Times(p.kp, e) - Times(p.kp, du) && Times(p.ki, j + dl) == Times(p.ki, j) + Times(p.ki, dl)
    ensures Times(p.kp, e - du - e) == -Times(p.kp, du) && Times(p.kp, e - last) == Times(p.kp, e) - Times(p.kp, last)
  {}

  function Whole(p: Params, drift: real, s: Delayed): real
    requires Loopable(p)
  {
    Size(At(p, drift, s))
  }

  lemma WholeIsPositive(p: Params, drift: real, s: Delayed)
    requires Loopable(p)
    ensures Whole(p, drift, s) >= 0.0
  {
    var c := At(p, drift, s);
    Squares(c.w, c.y, c.m);
  }

  /** A cycle a cycle late, from any state: at the clamp it takes a fixed amount off, and
      below the clamp a fixed part. */
  lemma DelayedContraction(p: Params, drift: real, s: Delayed)
    requires Tame(p) && Abs(drift) < p.maxTrimNs as real && Moved(p, drift, s)
    ensures var t := DelayedCycle(p, drift, s);
            && Moved(p, drift, t)
            && Whole(p, drift, t) <= Whole(p, drift, s)
                 - if Saturated(p, Seen(s)) then Drop(p, drift) else Times(0.5 * Be(p), Whole(p, drift, s))
  {
    var c := At(p, drift, s);
    var t := At(p, drift, DelayedCycle(p, drift, s));
    MovesStay(p, drift, s);
    TameGains(p);
    GainsAreSmall(Al(p), Be(p));
    if Saturated(p, Seen(s)) {
      var k := ClampedCoords(p, drift, s);
      hide At, Times, Drop, DelayedCycle, Tame, Gains, Saturated, Moved, Al, Be;
      Clamped(Al(p), c.w, c.m, k);
    } else {
      LinearCoords(p, drift, s);
      hide At, DelayedCycle, Tame, Saturated, Moved, Al, Be;
      Linear(Al(p), Be(p), c.w, c.y, c.m, t.w, t.y, t.m, Size(c));
      assert Times(0.5 * Be(p), Size(c)) == 0.5 * Times(Be(p), Size(c));
    }
  }

  lemma MovesStay(p: Params, drift: real, s: Delayed)
    requires p.maxTrimNs >= 0
    ensures Moved(p, drift, DelayedCycle(p, drift, s))
  {
    hide Demand;
  }

  // ----- exactly the drifts below the clamp -----

  ghost predicate DelayedSettledFrom(p: Params, drift: real, s: Delayed, tol: real, settled: nat) {
    forall n: nat :: n >= settled ==> Abs(DelayedSettle(p, drift, s, n).e) < tol
  }

  ghost predicate DelayedSettles(p: Params, drift: real, s: Delayed, tol: real) {
    exists settled: nat :: DelayedSettledFrom(p, drift, s, tol, settled)
  }

  ghost predicate DelayedLocksOut(p: Params, drift: real, s: Delayed) {
    forall tol: real :: tol > 0.0 ==> DelayedSettles(p, drift, s, tol)
  }

  /** A size below which the error is below the tolerance. */
  function Low(p: Params, tol: real): real { 0.5 * Times(p.kp * tol, p.kp * tol) }

  lemma ErrorOf(p: Params, drift: real, s: Delayed, tol: real)
    requires Loopable(p) && p.kp > 0.0 && tol > 0.0 && Whole(p, drift, s) < Low(p, tol)
    ensures Abs(s.e) < tol
  {
    var c := At(p, drift, s);
    if Abs(s.e) >= tol {
      hide Times;
      SquareOfDifference(c.w, c.y, c.m);
      ScaledError(p.kp, s.e, tol);
    }
  }

  lemma ScaledError(k: real, e: real, tol: real)
    requires k > 0.0 && tol > 0.0 && Abs(e) >= tol
    ensures Times(k * tol, k * tol) <= Times(Times(k, e), Times(k, e))
  {
    var x := Name(Times(k, e));
    MulPositive(k, tol, k * tol);
    MulAbs(k, e, x);
    MulMono(k, tol, Abs(e), k * tol, Abs(x));
    hide Times;
    AtLeastSquares(x, k * tol);
  }

  lemma SquareOfDifference(w: real, y: real, m: real)
    ensures Times(w - y, w - y) <= 2.0 * (Times(w, w) + Times(y, y) + Times(m, m))
  {
    Square(w + y, (w + y) * (w + y));
    Square(m, m * m);
  }

  /** What every step takes off while the size is not below the bound. */
  function Gain(p: Params, drift: real, rate: real, low: real): real { Min(Times(rate, low), Drop(p, drift)) }

  lemma GainIsPositive(p: Params, drift: real, rate: real, tol: real)
    requires p.kp > 0.0 && Abs(drift) < p.maxTrimNs as real && rate > 0.0 && tol > 0.0
    ensures Low(p, tol) > 0.0 && Gain(p, drift, rate, Low(p, tol)) > 0.0 && Drop(p, drift) > 0.0
  {
    var k := Name(p.kp * tol);
    var x := Name(p.kp * (p.maxTrimNs as real - Abs(drift)));
    MulPositive(p.kp, tol, k);
    MulPositive(k, k, k * k);
    MulPositive(p.kp, p.maxTrimNs as real - Abs(drift), x);
    MulPositive(x, x, x * x);
    hide Drop;
    MulPositive(rate, Low(p, tol), rate * Low(p, tol));
  }

  lemma {:induction false} WholeDown(p: Params, drift: real, s: Delayed, tol: real, n: nat)
    requires Tame(p) && Abs(drift) < p.maxTrimNs as real && Moved(p, drift, s) && tol > 0.0
    ensures var t := DelayedSettle(p, drift, s, n);
            Moved(p, drift, t) && Down(Whole(p, drift, t), Whole(p, drift, s), Gain(p, drift, 0.5 * Be(p), Low(p, tol)), Low(p, tol), n)
  {
    if n > 0 {
      WholeDown(p, drift, s, tol, n - 1);
      var t := DelayedSettle(p, drift, s, n - 1);
      DelayedContraction(p, drift, t);
      WholeIsPositive(p, drift, t);
      TameGains(p);
      GainsAreSmall(Al(p), Be(p));
      GainIsPositive(p, drift, 0.5 * Be(p), tol);
      hide Tame, Gains, Whole, Al, Be, DelayedCycle, Moved, Times, Down, Low, Drop, Saturated;
      DownOne(Whole(p, drift, t), Whole(p, drift, DelayedCycle(p, drift, t)), Whole(p, drift, s),
              Gain(p, drift, 0.5 * Be(p), Low(p, tol)), 0.5 * Be(p), Drop(p, drift), Low(p, tol), n - 1);
    }
  }

  lemma DelayedLocked(p: Params, drift: real, s: Delayed, tol: real)
    requires Tame(p) && Abs(drift) < p.maxTrimNs as real && Moved(p, drift, s) && tol > 0.0
    ensures DelayedSettles(p, drift, s, tol)
  {
    TameGains(p);
    GainsAreSmall(Al(p), Be(p));
    var rate := 0.5 * Be(p);
    GainIsPositive(p, drift, rate, tol);
    WholeIsPositive(p, drift, s);
    var gain := Gain(p, drift, rate, Low(p, tol));
    var settled := Enough(Whole(p, drift, s), gain);
    forall n: nat | n >= settled ensures Abs(DelayedSettle(p, drift, s, n).e) < tol {
      var t := DelayedSettle(p, drift, s, n);
      WholeDown(p, drift, s, tol, n);
      WholeIsPositive(p, drift, t);
      hide Whole, Gain, Tame, Gains, Moved, Down, Low, Be, Al;
      DownEnough(Whole(p, drift, t), Whole(p, drift, s), gain, Low(p, tol), n);
      ErrorOf(p, drift, t, tol);
    }
    assert DelayedSettledFrom(p, drift, s, tol, settled);
  }

  /** A drift no smaller than the clamp, met with a command beyond it: the error never shrinks. */
  predicate Runaway(p: Params, drift: real, s: Delayed, x: real) {
    && s.integ == 0.0 && x >= 1.0
    && (if drift >= 0.0 then s.last >= x && s.e - s.last == drift - p.maxTrimNs as real
        else s.last <= -x && s.e - s.last == drift + p.maxTrimNs as real)
  }

  lemma FullTrim(p: Params, drift: real, last: real, x: real)
    requires p.kp > 0.0 && p.dtSec > 0.0 && x > 0.0 && Times(Al(p), x) > p.maxTrimNs as real >= 0.0
    ensures last >= x ==> PiStep(p, 0.0, last).trim == -(p.maxTrimNs as real) && PiStep(p, 0.0, last).integ == 0.0
    ensures last <= -x ==> PiStep(p, 0.0, last).trim == p.maxTrimNs as real && PiStep(p, 0.0, last).integ == 0.0
  {
    var al := Name(Al(p));
    var d := Name(al * last);
    assert Demand(p, 0.0, last) == -d;
    MulPositive(p.kp, p.dtSec, al);
    if last >= x { MulMono(al, x, last, Times(al, x), d); }
    if last <= -x { MulMono(al, last, -x, d, -Times(al, x)); }
  }

  lemma {:induction false} RunsAway(p: Params, drift: real, s: Delayed, x: real, n: nat)
    requires Damped(p) && Abs(drift) >= p.maxTrimNs as real >= 0.0 && Times(Al(p), x) > p.maxTrimNs as real && Runaway(p, drift, s, x)
    ensures Runaway(p, drift, DelayedSettle(p, drift, s, n), x)
  {
    if n > 0 {
      RunsAway(p, drift, s, x, n - 1);
      FullTrim(p, drift, DelayedSettle(p, drift, s, n - 1).last, x);
    }
  }

  function RunawayStart(p: Params, drift: real, x: real): Delayed {
    if drift >= 0.0 then Delayed(x + drift - p.maxTrimNs as real, x, 0.0)
    else Delayed(-x + drift + p.maxTrimNs as real, -x, 0.0)
  }

  lemma BeyondTheClamp(p: Params) returns (x: real)
    requires p.kp > 0.0 && p.dtSec > 0.0
    ensures x >= 1.0 && Times(Al(p), x) > p.maxTrimNs as real
  {
    var al := Name(Al(p));
    MulPositive(p.kp, p.dtSec, al);
    var m := Name(Abs(p.maxTrimNs as real));
    var q := Name(m / al);
    assert q * al == m;
    DivBound(0.0, m, al, 0.0, q);
    x := q + 1.0;
    assert al * x == m + al;
  }

  lemma NeverLocks(p: Params, drift: real) returns (s: Delayed)
    requires Damped(p) && Abs(drift) >= p.maxTrimNs as real >= 0.0
    ensures Moved(p, drift, s) && !DelayedSettles(p, drift, s, 1.0)
  {
    var x := BeyondTheClamp(p);
    s := RunawayStart(p, drift, x);
    forall n: nat ensures Abs(DelayedSettle(p, drift, s, n).e) >= 1.0 {
      RunsAway(p, drift, s, x, n);
    }
    forall settled: nat ensures !DelayedSettledFrom(p, drift, s, 1.0, settled) {
      assert Abs(DelayedSettle(p, drift, s, settled).e) >= 1.0;
    }
  }

  /** How far the error has gone the drift's way. */
  function Along(drift: real, e: real): real { if drift >= 0.0 then e else -e }

  lemma {:induction false} RunsAlong(p: Params, drift: real, s: Delayed, n: nat)
    requires p.maxTrimNs >= 0
    ensures Along(drift, DelayedSettle(p, drift, s, n).e)
            >= Along(drift, s.e) + Times(Abs(drift) - p.maxTrimNs as real, n as real)
  {
    var gap := Abs(drift) - p.maxTrimNs as real;
    if n == 0 {
      assert Times(gap, 0.0) == 0.0;
    } else {
      RunsAlong(p, drift, s, n - 1);
      MovesStay(p, drift, DelayedSettle(p, drift, s, n - 1));
      OneMore(gap, n);
      hide Times, PiStep;
    }
  }

  lemma OneMore(gap: real, n: nat)
    requires n > 0
    ensures Times(gap, n as real) == Times(gap, (n - 1) as real) + gap
  {
    assert n as real == (n - 1) as real + 1.0;
  }

  lemma FarEnough(from: real, gap: real, to: real, n: nat)
    requires gap > 0.0 && to >= from + Times(gap, n as real) && n >= Enough(Abs(from) + 1.0, gap)
    ensures to >= 1.0
  {
    if to < 1.0 {
      DownEnough(0.0, Abs(from) + 1.0, gap, 0.0, n);
    }
  }

  /** Beyond the clamp there is no state at all from which the drift is locked out. */
  lemma NothingLocks(p: Params, drift: real, s: Delayed)
    requires Abs(drift) > p.maxTrimNs as real >= 0.0
    ensures !DelayedLocksOut(p, drift, s)
  {
    var gap := Abs(drift) - p.maxTrimNs as real;
    forall settled: nat ensures !DelayedSettledFrom(p, drift, s, 1.0, settled) {
      var n := settled + Enough(Abs(Along(drift, s.e)) + 1.0, gap);
      RunsAlong(p, drift, s, n);
      FarEnough(Along(drift, s.e), gap, Along(drift, DelayedSettle(p, drift, s, n).e), n);
      assert Abs(DelayedSettle(p, drift, s, n).e) >= 1.0;
    }
    assert !DelayedSettles(p, drift, s, 1.0);
  }

  ghost predicate DelayedLocksEverything(p: Params, drift: real) {
    forall s: Delayed :: Moved(p, drift, s) ==> DelayedLocksOut(p, drift, s)
  }

  /** The loop as it runs, a cycle late: from every state its moves can have left, whatever the
      integrator, a constant drift is locked out exactly when it is smaller than the clamp. */
  lemma DelayedLocksExactly(p: Params, drift: real)
    requires Tame(p) && p.maxTrimNs >= 0
    ensures DelayedLocksEverything(p, drift) <==> Abs(drift) < p.maxTrimNs as real
  {
    if Abs(drift) < p.maxTrimNs as real {
      forall s: Delayed | Moved(p, drift, s) ensures DelayedLocksOut(p, drift, s) {
        forall tol: real | tol > 0.0 ensures DelayedSettles(p, drift, s, tol) {
          DelayedLocked(p, drift, s, tol);
        }
      }
    } else {
      var s := NeverLocks(p, drift);
      assert !DelayedLocksOut(p, drift, s);
    }
  }

  // ----- the same without the latency -----

  /** A state of the direct loop, as one of the delayed loop that has nothing pending. */
  function Still(s: Plant): Delayed { Delayed(s.e, s.e, s.integ) }

  /** One cycle of the two is the same, up to what is then pending. */
  lemma CycleOfStill(p: Params, drift: real, s: Plant)
    requires Loopable(p)
    ensures var t := Cycle(p, drift, s); var u := DelayedCycle(p, drift, Still(s));
            && t == Plant(u.e, u.integ)
            && At(p, drift, Still(s)).m == 0.0
            && At(p, drift, Still(t)) == At(p, drift, u).(m := 0.0)
  {
    assert s.e - s.e == 0.0;
  }

  lemma ClampedDirect(al: real, w: real, k: real)
    requires 0.0 < al <= 1.0 && Move(al, w, 0.0, k)
    ensures Times(w - k, w - k) <= Times(w, w) - Times(k, k)
    decreases k < 0.0
  {
    if k < 0.0 {
      ClampedDirect(al, -w, -k);
    } else {
      var aw := Name(al * w);
      if w < 0.0 { MulMono(al, w, 0.0, aw, 0.0); }
      MulMono(w, al, 1.0, aw, w);
      MulNonNegative(k, w - k, k * (w - k));
    }
  }

  function Direct(p: Params, drift: real, s: Plant): real
    requires Loopable(p)
  {
    Whole(p, drift, Still(s))
  }

  /** A cycle of the direct loop, from any state: at the clamp it takes a fixed amount off, and
      below the clamp a fixed part. */
  lemma DirectContraction(p: Params, drift: real, s: Plant)
    requires Damped(p) && Abs(drift) < p.maxTrimNs as real
    ensures Direct(p, drift, Cycle(p, drift, s))
            <= Direct(p, drift, s) - if Saturated(p, s) then Drop(p, drift) else Times(Be(p), Direct(p, drift, s))
  {
    var d := Still(s);
    var c := At(p, drift, d);
    var t := At(p, drift, DelayedCycle(p, drift, d));
    CycleOfStill(p, drift, s);
    DampedGains(p);
    assert Times(0.0, 0.0) == 0.0 && Seen(d) == s;
    if Saturated(p, s) {
      var k := ClampedCoords(p, drift, d);
      hide At, Times, Drop, DelayedCycle, Damped, Saturated, Al, Be, Cycle;
      ClampedDirect(Al(p), c.w, k);
    } else {
      LinearCoords(p, drift, d);
      hide At, Times, DelayedCycle, Damped, Saturated, Al, Be, Cycle;
      Nominal(Al(p), Be(p), c.w, c.y, t.w, t.y);
    }
  }

  lemma {:induction false} DirectDown(p: Params, drift: real, s: Plant, tol: real, n: nat)
    requires Damped(p) && Abs(drift) < p.maxTrimNs as real && tol > 0.0
    ensures Down(Direct(p, drift, Settle(p, drift, s, n)), Direct(p, drift, s), Gain(p, drift, Be(p), Low(p, tol)), Low(p, tol), n)
  {
    if n > 0 {
      DirectDown(p, drift, s, tol, n - 1);
      var t := Settle(p, drift, s, n - 1);
      DirectContraction(p, drift, t);
      WholeIsPositive(p, drift, Still(t));
      DampedGains(p);
      GainIsPositive(p, drift, Be(p), tol);
      hide Damped, Whole, Al, Be, Cycle, Times, Down, Low, Drop, Saturated;
      DownOne(Direct(p, drift, t), Direct(p, drift, Cycle(p, drift, t)), Direct(p, drift, s),
              Gain(p, drift, Be(p), Low(p, tol)), Be(p), Drop(p, drift), Low(p, tol), n - 1);
    }
  }

  lemma DirectLocked(p: Params, drift: real, s: Plant, tol: real)
    requires Damped(p) && Abs(drift) < p.maxTrimNs as real && tol > 0.0
    ensures Settles(p, drift, s, tol)
  {
    DampedGains(p);
    GainIsPositive(p, drift, Be(p), tol);
    WholeIsPositive(p, drift, Still(s));
    var gain := Gain(p, drift, Be(p), Low(p, tol));
    var settled := Enough(Direct(p, drift, s), gain);
    forall n: nat | n >= settled ensures Abs(Settle(p, drift, s, n).e) < tol {
      var t := Settle(p, drift, s, n);
      DirectDown(p, drift, s, tol, n);
      WholeIsPositive(p, drift, Still(t));
      hide Whole, Gain, Damped, Down, Low, Be, Al;
      DownEnough(Direct(p, drift, t), Direct(p, drift, s), gain, Low(p, tol), n);
      ErrorOf(p, drift, Still(t), tol);
    }
    assert SettledFrom(p, drift, s, tol, settled);
  }

  lemma {:induction false} PlantRunsAway(p: Params, drift: real, s: Plant, x: real, n: nat)
    requires p.kp > 0.0 && p.dtSec > 0.0
    requires Abs(drift) >= p.maxTrimNs as real >= 0.0 && Times(Al(p), x) > p.maxTrimNs as real && x >= 1.0
    requires s.integ == 0.0 && Along(drift, s.e) >= x
    ensures Settle(p, drift, s, n).integ == 0.0 && Along(drift, Settle(p, drift, s, n).e) >= x
  {
    if n > 0 {
      PlantRunsAway(p, drift, s, x, n - 1);
      FullTrim(p, drift, Settle(p, drift, s, n - 1).e, x);
    }
  }

  ghost predicate LocksEverything(p: Params, drift: real) {
    forall s: Plant :: LocksOut(p, drift, s)
  }

  lemma TooMuchDrift(p: Params, drift: real)
    requires p.kp > 0.0 && p.dtSec > 0.0 && Abs(drift) >= p.maxTrimNs as real >= 0.0
    ensures !LocksEverything(p, drift)
  {
    var x := BeyondTheClamp(p);
    var s := Plant(if drift >= 0.0 then x else -x, 0.0);
    forall settled: nat ensures !SettledFrom(p, drift, s, 1.0, settled) {
      PlantRunsAway(p, drift, s, x, settled);
      assert Abs(Settle(p, drift, s, settled).e) >= 1.0;
    }
    assert !Settles(p, drift, s, 1.0);
    assert !LocksOut(p, drift, s);
  }

  /** Without the latency, from every state, damped gains lock every drift below the clamp out. */
  lemma DampedLocks(p: Params, drift: real)
    requires Damped(p) && Abs(drift) < p.maxTrimNs as real
    ensures LocksEverything(p, drift)
  {
    forall s: Plant ensures LocksOut(p, drift, s) {
      forall tol: real | tol > 0.0 ensures Settles(p, drift, s, tol) {
        DirectLocked(p, drift, s, tol);
      }
    }
  }
}
