/** What the gauge and the estimator keep, exactly. */
module CommandGaugeExact {
  import opened RealArithmetic
  import opened CommandConditioner
  import opened CommandSafety

  // ----- the gauge -----

  /** A latched peak: it takes over the reading or stays, whichever is more. */
  predicate Latches(before: real, after: real, reading: real) {
    after >= before && after >= reading && (after == before || after == reading)
  }

  lemma SpanRounds(x: real, dt: real, w: int)
    requires dt > 0.0 && x * dt == 0.020 && w == RoundHalfUp(x)
    ensures -0.5 * dt < w as real * dt - 0.020 <= 0.5 * dt
  {
    var r := w as real;
    MulMono(dt, r - x, 0.5, dt * (r - x), 0.5 * dt);
    MulPositive(dt, r - x + 0.5, dt * (r - x + 0.5));
  }

  lemma BelowOne(x: real, dt: real)
    requires dt > 0.0 && x * dt == 0.020 && RoundHalfUp(x) < 1
    ensures 0.020 < 0.5 * dt
  {
    MulPositive(dt, 0.5 - x, dt * (0.5 - x));
  }

  lemma AboveAll(x: real, dt: real)
    requires dt > 0.0 && x * dt == 0.020 && RoundHalfUp(x) > 128
    ensures 0.020 >= 128.5 * dt
  {
    MulMono(dt, 128.5, x, 128.5 * dt, x * dt);
  }

  /** The window is the whole number of cycles nearest to 20 ms, at least one and at most 128. */
  lemma WindowIsTwentyMs(dt: real)
    requires dt > 0.0
    ensures var w := Window(dt);
      && 1 <= w <= 128
      && (-0.5 * dt < w as real * dt - 0.020 <= 0.5 * dt || (w == 1 && 0.020 < 0.5 * dt) || (w == 128 && 0.020 >= 128.5 * dt))
  {
    var x := Name(0.020 / dt);
    assert x * dt == 0.020;
    var n := RoundHalfUp(x);
    if n < 1 {
      BelowOne(x, dt);
    } else if n > 128 {
      AboveAll(x, dt);
    } else {
      SpanRounds(x, dt, n);
    }
    hide RoundHalfUp;
  }

  /** The demand is the acceleration asked for in units of the limit. `step`: amax*dt. */
  lemma DemandIsTheShare(vel: real, candidate: real, l: Limits, step: real)
    requires l.dt > 0.0 && step == l.amax * l.dt && l.amax >= 0.0
    ensures l.amax > 0.0 ==> Times(Demand(vel, candidate, l), step) == Abs(candidate - vel)
    ensures l.amax > 0.0 ==> (Demand(vel, candidate, l) > 1.0 <==> Abs(candidate - vel) > step)
    ensures l.amax == 0.0 ==> Demand(vel, candidate, l) == 0.0
  {
    if l.amax > 0.0 {
      var r := Name(Rate(candidate - vel, l.dt));
      assert r * l.dt == candidate - vel;
      MulAbs(r, l.dt, candidate - vel);
      var d := Name(Demand(vel, candidate, l));
      assert d * l.amax == Abs(r);
      var ad := Name(Abs(candidate - vel));
      assert Abs(r) * l.dt == ad;
      ShareOfStep(d, l.amax, l.dt, step, Abs(r), ad);
    }
  }

  lemma ShareOfStep(d: real, a: real, dt: real, step: real, r: real, x: real)
    requires a > 0.0 && dt > 0.0 && step == a * dt && d * a == r && r * dt == x
    ensures Times(d, step) == x && (d > 1.0 <==> x > step)
  {
    assert d * step == x;
    MulPositive(a, dt, step);
    if d > 1.0 {
      MulPositive(step, d - 1.0, step * (d - 1.0));
    } else {
      MulMono(step, d, 1.0, step * d, step);
    }
  }

  /** A cycle in the statistics: one cycle more; one more that asked beyond the limit, when it
      did; one more the brake took hold of, when it did. The peaks latch: the acceleration put
      out where the brake did not bind, the demand, the window's mean once there is a window; and
      of a bind, what it took off and the largest error of the prediction, with the velocity the
      target had then. */
  lemma GaugeLatches(g: Gauge, vel: real, e: Estimator, candidate: real, err: real, root: real, l: Limits)
    requires l.dt > 0.0
    ensures var n := GuardStats(g, vel, e, candidate, err, root, l); var out := Guard(vel, e.targetVel, candidate, err, root, l);
      && n.n.total == g.n.total + 1
      && n.n.clip == (if Demand(vel, candidate, l) > 1.0 then g.n.clip + 1 else g.n.clip)
      && n.n.bind == (if out.braked then g.n.bind + 1 else g.n.bind)
      && (if out.braked then n.p.cmd == g.p.cmd else Latches(g.p.cmd, n.p.cmd, Abs(Rate(out.vel - vel, l.dt))))
      && Latches(g.p.demand, n.p.demand, Demand(vel, candidate, l))
      && (if |g.hist| < Window(l.dt) then n.p.win == g.p.win else Latches(g.p.win, n.p.win, WindowReading(g.hist, out.vel, l.dt)))
      && (if !out.braked then n.b == g.b else
            && Latches(g.b.clamp, n.b.clamp, Abs(Clamped(vel, candidate, l) - Cap(e.targetVel, err, root)))
            && Latches(g.b.vtErr, n.b.vtErr, e.predErr) && n.b.vtAtErr == (if n.b.vtErr > g.b.vtErr then e.targetVel else g.b.vtAtErr))
      && n.hist == g.hist + [Past(out.vel, out.braked)]
  {
    hide Rate, Window, WindowReading, Demand, Guard, Clamped, Cap;
  }

  // ----- the estimator from its start -----

  /** The first frame after a seed, or one whose interval is not known, only anchors; the first
      move gives a velocity and judges no prediction; every later one does. */
  lemma EstimateBegins(e: Estimator, t0: real, t1: real, t2: real, dt: real, frameSec: real)
    requires !e.have && frameSec > 0.0 && t1 != t0 && t2 != t1
    ensures var a := Estimate(e, t0, dt, frameSec); var b := Estimate(a, t1, dt, frameSec); var c := Estimate(b, t2, dt, frameSec);
      && a.targetVel == 0.0 && a.lastTarget == t0 && a.holdSec == 0.0 && a.predErr == 0.0
      && b.targetVel * frameSec == t1 - t0 && b.holdSec == 0.0 && b.predErr == 0.0
      && c.targetVel * frameSec == t2 - t1 && c.predErr == Abs(c.targetVel - b.targetVel)
    ensures Estimate(e, t0, dt, frameSec) == Estimate(e, t0, dt, 0.0)
  {}

  /** A seed hands the position and the velocity over, at no acceleration; a target that is not
      finite is the seed's position, and the estimate starts anew. */
  lemma SeedHandsOver(p: real, v: real, i: Input, dt: real)
    ensures var c := Seeded(p, v);
      && c.m.pos == p && c.m.vel == v && c.m.accel == 0.0 && !c.e.have
      && (i.target.NotFinite? ==> Error(c, i) == 0.0) && Aim(c, i, dt).targetVel == 0.0
      && Aim(c, i, dt) == Estimate(Estimator(0.0, 0.0, 0.0, false, 0.0, false), Effective(c.m, i.target), dt, i.frameSec)
  {}
}
