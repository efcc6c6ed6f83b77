/** The command conditioner: three modes choose a candidate velocity, one guard chain
    (acceleration clamp, velocity clamp, target-velocity-aware braking) limits it.

    Doubles are modelled as reals. The square root in the braking clamp is the parameter
    `root` of a cycle, a non-negative number whose square is 2*amax*|error|; a target that is
    not finite is `NotFinite`; the decay exp(-wn*dt) of Filter is a parameter of the mode. */
module CommandConditioner {
  import opened RealArithmetic

  datatype Mode = Bypass | Interpolate | Filter(wn: real, decay: real)

  datatype Target = NotFinite | At(x: real)

  /** The limits a step is called with. */
  datatype Limits = Limits(dt: real, vmax: real, amax: real, brakeEps: real)

  predicate Sane(l: Limits) { l.dt > 0.0 && l.vmax >= 0.0 && l.amax >= 0.0 && l.brakeEps >= 0.0 }

  /** What one cycle is given. */
  datatype Input = Input(mode: Mode, target: Target, frameSec: real, root: real)

  /** The commanded state. */
  datatype Motion = Motion(pos: real, vel: real, accel: real, lastValidTarget: real)

  /** The estimate of the target's velocity from the frame stream. */
  datatype Estimator = Estimator(targetVel: real, lastTarget: real, holdSec: real, have: bool,
                                 predErr: real, predHave: bool)

  /** Everything the command output depends on. */
  datatype Command = Command(m: Motion, e: Estimator)

  /** One cycle as the acceleration gauge remembers it. */
  datatype Past = Past(vel: real, braked: bool)

  datatype Peaks = Peaks(cmd: real, demand: real, win: real)
  datatype Counts = Counts(total: nat, clip: nat, bind: nat)
  datatype Bound = Bound(clamp: real, vtErr: real, vtAtErr: real)

  /** The session statistics. `hist`: every cycle since the gauge was last restarted. */
  datatype Gauge = Gauge(p: Peaks, n: Counts, b: Bound, hist: seq<Past>)

  // ----- the target -----

  function Effective(m: Motion, t: Target): real { if t.At? then t.x else m.lastValidTarget }

  /** The target-velocity estimate from the frame stream. */
  function Estimate(e: Estimator, target: real, dt: real, frameSec: real): Estimator {
    if frameSec <= 0.0 || !e.have then Estimator(0.0, target, 0.0, true, 0.0, false)
    else if target != e.lastTarget then
      var realized := (target - e.lastTarget) / frameSec;
      Estimator(realized, target, 0.0, true, if e.predHave then Abs(realized - e.targetVel) else e.predErr, true)
    else
      e.(holdSec := e.holdSec + dt,
         targetVel := if e.holdSec + dt > 2.0 * frameSec then 0.0 else e.targetVel)
  }

  function Candidate(m: Mode, err: real, vel: real, dt: real, frameSec: real): real
    requires dt > 0.0
  {
    match m
    case Bypass => err / dt
    case Interpolate => if frameSec > dt then err / frameSec else err / dt
    case Filter(wn, decay) => decay * wn * wn * dt * err + decay * (1.0 - wn * dt) * vel
  }

  // ----- the guard chain -----

  /** The acceleration of a velocity step. */
  function Rate(dv: real, dt: real): real
    requires dt > 0.0
  {
    dv / dt
  }

  function Travel(vel: real, dt: real): real { vel * dt }

  /** (1) the acceleration clamp, on the demanded acceleration. */
  function AccelClamp(vel: real, candidate: real, dt: real, amax: real): real
    requires dt > 0.0
  {
    var demand := Rate(candidate - vel, dt);
    var high := if demand > amax then vel + amax * dt else candidate;
    if demand < -amax then vel - amax * dt else high
  }

  /** (2) the velocity clamp. */
  function VelClamp(v: real, vmax: real): real {
    var high := if v > vmax then vmax else v;
    if high < -vmax then -vmax else high
  }

  /** What the first two clamps leave of the candidate. */
  function Clamped(vel: real, candidate: real, l: Limits): real
    requires l.dt > 0.0
  {
    VelClamp(AccelClamp(vel, candidate, l.dt, l.amax), l.vmax)
  }

  function Cap(vt: real, err: real, root: real): real { if err > 0.0 then vt + root else vt - root }

  /** (3) whether the braking clamp binds. */
  predicate Binds(v: real, vt: real, err: real, root: real, brakeEps: real) {
    Abs(err) > brakeEps && (if err > 0.0 then v > Cap(vt, err, root) else v < Cap(vt, err, root))
  }

  /** The most the acceleration limit lets the velocity change in a cycle. */
  function MaxStep(l: Limits): real { l.amax * l.dt }

  /** What it cuts the velocity to: to a stop at once, past it only by one step of the
      acceleration limit, and never beyond vmax. */
  function Brake(prev: real, cap: real, err: real, step: real, vmax: real): real {
    var forward := if err > 0.0 && cap < 0.0 then Max(cap, Min(0.0, prev - step)) else cap;
    var backward := if err < 0.0 && forward > 0.0 then Min(forward, Max(0.0, prev + step)) else forward;
    VelClamp(backward, vmax)
  }

  datatype Guarded = Guarded(vel: real, braked: bool)

  function Guard(vel: real, vt: real, candidate: real, err: real, root: real, l: Limits): Guarded
    requires l.dt > 0.0
  {
    var v := Clamped(vel, candidate, l);
    if Binds(v, vt, err, root, l.brakeEps) then
      Guarded(Brake(vel, Cap(vt, err, root), err, MaxStep(l), l.vmax), true)
    else Guarded(v, false)
  }

  function GuardMotion(m: Motion, vt: real, candidate: real, err: real, root: real, l: Limits): Motion
    requires l.dt > 0.0
  {
    var vel := Guard(m.vel, vt, candidate, err, root, l).vel;
    Motion(m.pos + Travel(vel, l.dt), vel, Rate(AccelClamp(m.vel, candidate, l.dt, l.amax) - m.vel, l.dt), m.lastValidTarget)
  }

  // ----- the statistics -----

  const WINDOW_CAP: nat := 128

  function RoundHalfUp(x: real): int { (x + 0.5).Floor }

  /** The gauge's window in cycles: about 20 ms, at most the ring's capacity. */
  function Window(dt: real): (w: nat)
    requires dt > 0.0
    ensures 1 <= w <= WINDOW_CAP
  {
    var w := RoundHalfUp(0.020 / dt);
    if w < 1 then 1 else if w > WINDOW_CAP then WINDOW_CAP else w
  }

  function WindowRate(dv: real, w: nat, dt: real): real
    requires dt > 0.0 && w > 0
  {
    dv / (w as real * dt)
  }

  /** The mean acceleration over the window that ends with velocity `vel`. */
  function WindowReading(hist: seq<Past>, vel: real, dt: real): real
    requires dt > 0.0 && |hist| >= Window(dt)
  {
    Abs(WindowRate(vel - hist[|hist| - Window(dt)].vel, Window(dt), dt))
  }

  /** The latched peak of the windowed acceleration. */
  function WindowPeak(peak: real, hist: seq<Past>, vel: real, dt: real): real
    requires dt > 0.0
  {
    if |hist| >= Window(dt) then Max(peak, WindowReading(hist, vel, dt)) else peak
  }

  function Demand(vel: real, candidate: real, l: Limits): real
    requires l.dt > 0.0
  {
    if l.amax > 0.0 then Abs(Rate(candidate - vel, l.dt)) / l.amax else 0.0
  }

  function Count(n: Counts, demand: real, braked: bool): Counts {
    Counts(n.total + 1, if demand > 1.0 then n.clip + 1 else n.clip, if braked then n.bind + 1 else n.bind)
  }

  function BoundBy(b: Bound, e: Estimator, removed: real): Bound {
    Bound(Max(b.clamp, removed), Max(b.vtErr, e.predErr), if e.predErr > b.vtErr then e.targetVel else b.vtAtErr)
  }

  /** The statistics after a guarded cycle. */
  function GuardStats(g: Gauge, vel: real, e: Estimator, candidate: real, err: real, root: real, l: Limits): Gauge
    requires l.dt > 0.0
  {
    var demand := Demand(vel, candidate, l);
    var out := Guard(vel, e.targetVel, candidate, err, root, l);
    var removed := Abs(Clamped(vel, candidate, l) - Cap(e.targetVel, err, root));
    Gauge(
      Peaks(if out.braked then g.p.cmd else Max(g.p.cmd, Abs(Rate(out.vel - vel, l.dt))),
            Max(g.p.demand, demand),
            WindowPeak(g.p.win, g.hist, out.vel, l.dt)),
      Count(g.n, demand, out.braked),
      if out.braked then BoundBy(g.b, e, removed) else g.b,
      g.hist + [Past(out.vel, out.braked)])
  }

  const NO_STATS: Gauge := Gauge(Peaks(0.0, 0.0, 0.0), Counts(0, 0, 0), Bound(0.0, 0.0, 0.0), [])

  // ----- one cycle -----

  function Error(c: Command, i: Input): real { Effective(c.m, i.target) - c.m.pos }

  function Aim(c: Command, i: Input, dt: real): Estimator {
    Estimate(c.e, Effective(c.m, i.target), dt, i.frameSec)
  }

  function Wanted(c: Command, i: Input, dt: real): real
    requires dt > 0.0
  {
    Candidate(i.mode, Error(c, i), c.m.vel, dt, i.frameSec)
  }

  /** The command state after a cycle: a function of the command state and the inputs only. */
  function Next(c: Command, i: Input, l: Limits): Command
    requires l.dt > 0.0
  {
    var e := Aim(c, i, l.dt);
    var m := c.m.(lastValidTarget := Effective(c.m, i.target));
    Command(GuardMotion(m, e.targetVel, Wanted(c, i, l.dt), Error(c, i), i.root, l), e)
  }

  /** The statistics after a cycle. */
  function Measure(g: Gauge, c: Command, i: Input, l: Limits): Gauge
    requires l.dt > 0.0
  {
    GuardStats(g, c.m.vel, Aim(c, i, l.dt), Wanted(c, i, l.dt), Error(c, i), i.root, l)
  }

  function Seeded(p: real, v: real): Command {
    Command(Motion(p, v, 0.0, p), Estimator(0.0, p, 0.0, false, 0.0, false))
  }

  // ----- the ring -----

  /** The ring slot `k` cycles back from the next write. */
  function Slot(head: nat, k: nat): nat
    requires head < WINDOW_CAP && k <= WINDOW_CAP
  {
    if head >= k then head - k else head + WINDOW_CAP - k
  }

  /** The ring holds the velocities of the last (up to 128) cycles, each in the slot as far
      back from the head as the cycle is in the past. */
  predicate Holds(ring: seq<real>, head: nat, count: nat, hist: seq<Past>) {
    && |ring| == WINDOW_CAP && head < WINDOW_CAP
    && count == (if |hist| < WINDOW_CAP then |hist| else WINDOW_CAP)
    && forall k :: 1 <= k <= count ==> Slot(head, k) < WINDOW_CAP && ring[Slot(head, k)] == hist[|hist| - k].vel
  }

  lemma PushHolds(ring: seq<real>, head: nat, count: nat, hist: seq<Past>, p: Past)
    requires Holds(ring, head, count, hist)
    ensures Holds(ring[head := p.vel], if head + 1 >= WINDOW_CAP then 0 else head + 1,
                  if count < WINDOW_CAP then count + 1 else count, hist + [p])
  {
    var newHead := if head + 1 >= WINDOW_CAP then 0 else head + 1;
    var newCount := if count < WINDOW_CAP then count + 1 else count;
    var newHist := hist + [p];
    forall k | 1 <= k <= newCount
      ensures Slot(newHead, k) < WINDOW_CAP && ring[head := p.vel][Slot(newHead, k)] == newHist[|newHist| - k].vel
    {
      if k > 1 {
        assert Slot(newHead, k) == Slot(head, k - 1) != head;
        assert newHist[|newHist| - k] == hist[|hist| - (k - 1)];
      }
    }
  }

  // ----- the object -----

  /** The conditioner's fields, grouped into the records above. */
  class Conditioner {
    var m: Motion
    var e: Estimator
    var p: Peaks
    var n: Counts
    var b: Bound
    const velHist: array<real>   // ring of recent commanded velocities
    var velHistHead: nat         // next write index
    var velHistCount: nat        // valid samples

    /** Every cycle since the ring was last restarted. */
    ghost var hist: seq<Past>

    ghost predicate Valid()
      reads this, velHist
    {
      Holds(velHist[..], velHistHead, velHistCount, hist)
    }

    ghost function Commanded(): Command
      reads this
    {
      Command(m, e)
    }

    ghost function Stats(): Gauge
      reads this
    {
      Gauge(p, n, b, hist)
    }

    constructor ()
      ensures Valid() && fresh(velHist)
      ensures Commanded() == Seeded(0.0, 0.0) && Stats() == NO_STATS
    {
      m, e := Motion(0.0, 0.0, 0.0, 0.0), Estimator(0.0, 0.0, 0.0, false, 0.0, false);
      p, n, b := Peaks(0.0, 0.0, 0.0), Counts(0, 0, 0), Bound(0.0, 0.0, 0.0);
      velHist := new real[WINDOW_CAP](_ => 0.0);
      velHistHead, velHistCount, hist := 0, 0, [];
    }

    method ResetGuardStats()
      requires Valid()
      modifies this
      ensures Valid() && Stats() == NO_STATS && Commanded() == old(Commanded())
    {
      p, n, b := Peaks(0.0, 0.0, 0.0), Counts(0, 0, 0), Bound(0.0, 0.0, 0.0);
      velHistHead, velHistCount, hist := 0, 0, [];
    }

    /** The latched statistics outlive a seed; the window does not. */
    method SeedState(pos: real, vel: real)
      requires Valid()
      modifies this
      ensures Valid() && Commanded() == Seeded(pos, vel) && Stats() == old(Stats()).(hist := [])
    {
      m := Motion(pos, vel, 0.0, pos);
      e := Estimator(0.0, pos, 0.0, false, 0.0, false);
      velHistHead, velHistCount, hist := 0, 0, [];
    }

    method UpdateTargetVel(target: real, dt: real, frameSec: real)
      modifies this`e
      ensures e == Estimate(old(e), target, dt, frameSec)
    {
      if frameSec <= 0.0 {
        e := Estimator(0.0, target, 0.0, true, 0.0, false);
        return;
      }
      if !e.have {
        e := Estimator(0.0, target, 0.0, true, 0.0, false);
        return;
      }
      if target != e.lastTarget {
        var realized := (target - e.lastTarget) / frameSec;
        if e.predHave { e := e.(predErr := Abs(realized - e.targetVel)); }
        e := e.(predHave := true);
        e := e.(targetVel := realized);
        e := e.(lastTarget := target);
        e := e.(holdSec := 0.0);
      } else {
        e := e.(holdSec := e.holdSec + dt);
        if e.holdSec > 2.0 * frameSec { e := e.(targetVel := 0.0); }
      }
    }

    static method WindowCycles(dt: real) returns (w: nat)
      requires dt > 0.0
      ensures w == Window(dt)
    {
      var rounded := RoundHalfUp(0.020 / dt);
      w := if rounded < 1 then 1 else if rounded > WINDOW_CAP then WINDOW_CAP else rounded;
    }

    /** The windowed acceleration gauge reads the velocity of W cycles ago. */
    method ReadWindow(dt: real)
      requires Valid() && dt > 0.0
      modifies this`p
      ensures p == old(p).(win := WindowPeak(old(p).win, hist, m.vel, dt))
    {
      hide RoundHalfUp, Window, WindowRate;
      var w := WindowCycles(dt);
      if velHistCount >= w {
        var idx := velHistHead - w;
        if idx < 0 { idx := idx + WINDOW_CAP; }
        assert idx == Slot(velHistHead, w) && velHist[..][idx] == hist[|hist| - w].vel;
        var winAccel := WindowRate(m.vel - velHist[idx], w, dt);
        if Abs(winAccel) > p.win { p := p.(win := Abs(winAccel)); }
      }
    }

    method PushWindow(ghost braked: bool)
      requires Valid()
      modifies this`velHistHead, this`velHistCount, this`hist, velHist
      ensures Valid() && hist == old(hist) + [Past(m.vel, braked)]
    {
      PushHolds(velHist[..], velHistHead, velHistCount, hist, Past(m.vel, braked));
      velHist[velHistHead] := m.vel;
      assert velHist[..] == old(velHist[..])[velHistHead := m.vel];
      velHistHead := velHistHead + 1;
      if velHistHead >= WINDOW_CAP { velHistHead := 0; }
      if velHistCount < WINDOW_CAP { velHistCount := velHistCount + 1; }
      hist := hist + [Past(m.vel, braked)];
    }

    /** The demand statistics of a cycle; they do not affect the command. */
    method NoteDemand(aeff: real, amax: real)
      modifies this`p, this`n
      ensures var demand := if amax > 0.0 then Abs(aeff) / amax else 0.0;
        && p == old(p).(demand := Max(old(p).demand, demand))
        && n == Count(old(n), demand, false)
    {
      var demandFrac := if amax > 0.0 then Abs(aeff) / amax else 0.0;
      n := n.(total := n.total + 1);
      if demandFrac > p.demand { p := p.(demand := demandFrac); }
      if demandFrac > 1.0 { n := n.(clip := n.clip + 1); }
    }

    /** The braking clamp takes hold: `velPrev` is the velocity before the cycle. */
    method BrakeTo(cap: real, err: real, velPrev: real, l: Limits)
      modifies this`m, this`n, this`b
      ensures m == old(m).(vel := Brake(velPrev, cap, err, MaxStep(l), l.vmax))
      ensures n == old(n).(bind := old(n).bind + 1) && b == BoundBy(old(b), e, Abs(old(m).vel - cap))
    {
      hide MaxStep;
      var removed := Abs(m.vel - cap);
      n := n.(bind := n.bind + 1);
      if removed > b.clamp { b := b.(clamp := removed); }
      if e.predErr > b.vtErr { b := b.(vtErr := e.predErr, vtAtErr := e.targetVel); }
      m := m.(vel := cap);
      if err > 0.0 && m.vel < 0.0 { m := m.(vel := Max(m.vel, Min(0.0, velPrev - MaxStep(l)))); }
      if err < 0.0 && m.vel > 0.0 { m := m.(vel := Min(m.vel, Max(0.0, velPrev + MaxStep(l)))); }
      if m.vel > l.vmax { m := m.(vel := l.vmax); }
      if m.vel < -l.vmax { m := m.(vel := -l.vmax); }
    }

    /** The acceleration and the velocity clamp. */
    method ClampTo(candidateVel: real, l: Limits)
      requires l.dt > 0.0
      modifies this`m
      ensures m == old(m).(accel := Rate(AccelClamp(old(m).vel, candidateVel, l.dt, l.amax) - old(m).vel, l.dt),
                           vel := Clamped(old(m).vel, candidateVel, l))
    {
      hide Rate;
      var candidate := candidateVel;
      var aeff := Rate(candidate - m.vel, l.dt);
      if aeff > l.amax { candidate := m.vel + l.amax * l.dt; }
      if aeff < -l.amax { candidate := m.vel - l.amax * l.dt; }
      assert candidate == AccelClamp(m.vel, candidateVel, l.dt, l.amax);
      m := m.(accel := Rate(candidate - m.vel, l.dt));
      m := m.(vel := candidate);
      if m.vel > l.vmax { m := m.(vel := l.vmax); }
      if m.vel < -l.vmax { m := m.(vel := -l.vmax); }
    }

    /** The guard chain. `root` is the square root the braking clamp takes. */
    method ApplyGuard(candidateVel: real, err: real, root: real, l: Limits)
      requires Valid() && l.dt > 0.0
      modifies this, velHist
      ensures Valid() && e == old(e)
      ensures m == GuardMotion(old(m), e.targetVel, candidateVel, err, root, l)
      ensures Stats() == GuardStats(old(Stats()), old(m.vel), e, candidateVel, err, root, l)
    {
      hide Rate, Travel, Window, WindowPeak, Clamped, AccelClamp, Brake, BoundBy, MaxStep;
      var velPrev := m.vel;
      NoteDemand(Rate(candidateVel - m.vel, l.dt), l.amax);
      ClampTo(candidateVel, l);
      var braked := false;
      if Abs(err) > l.brakeEps {
        var cap := if err > 0.0 then e.targetVel + root else e.targetVel - root;
        var over := if err > 0.0 then m.vel > cap else m.vel < cap;
        if over {
          braked := true;
          assert Binds(m.vel, e.targetVel, err, root, l.brakeEps) && cap == Cap(e.targetVel, err, root);
          BrakeTo(cap, err, velPrev, l);
        }
      }
      assert Guarded(m.vel, braked) == Guard(velPrev, e.targetVel, candidateVel, err, root, l);
      if !braked {
        var cmdAccel := Rate(m.vel - velPrev, l.dt);
        if Abs(cmdAccel) > p.cmd { p := p.(cmd := Abs(cmdAccel)); }
      }
      m := m.(pos := m.pos + Travel(m.vel, l.dt));
      ReadWindow(l.dt);
      PushWindow(braked);
    }

    method StepBypass(target: Target, frameSec: real, root: real, l: Limits)
      requires Valid() && l.dt > 0.0
      modifies this, velHist
      ensures Valid() && Commanded() == Next(old(Commanded()), Input(Bypass, target, frameSec, root), l)
      ensures Stats() == Measure(old(Stats()), old(Commanded()), Input(Bypass, target, frameSec, root), l)
    {
      var x := TakeTarget(target);
      UpdateTargetVel(x, l.dt, frameSec);
      var err := x - m.pos;
      ApplyGuard(err / l.dt, err, root, l);
    }

    method StepInterpolate(target: Target, frameSec: real, root: real, l: Limits)
      requires Valid() && l.dt > 0.0
      modifies this, velHist
      ensures Valid() && Commanded() == Next(old(Commanded()), Input(Interpolate, target, frameSec, root), l)
      ensures Stats() == Measure(old(Stats()), old(Commanded()), Input(Interpolate, target, frameSec, root), l)
    {
      var x := TakeTarget(target);
      UpdateTargetVel(x, l.dt, frameSec);
      var err := x - m.pos;
      var candidateVel := if frameSec > l.dt then err / frameSec else err / l.dt;
      ApplyGuard(candidateVel, err, root, l);
    }

    method StepFilter(target: Target, frameSec: real, wn: real, decay: real, root: real, l: Limits)
      requires Valid() && l.dt > 0.0
      modifies this, velHist
      ensures Valid() && Commanded() == Next(old(Commanded()), Input(Filter(wn, decay), target, frameSec, root), l)
      ensures Stats() == Measure(old(Stats()), old(Commanded()), Input(Filter(wn, decay), target, frameSec, root), l)
    {
      var x := TakeTarget(target);
      UpdateTargetVel(x, l.dt, frameSec);
      var err := x - m.pos;
      var candidateVel := decay * wn * wn * l.dt * err + decay * (1.0 - wn * l.dt) * m.vel;
      assert candidateVel == Candidate(Filter(wn, decay), err, m.vel, l.dt, frameSec);
      hide Candidate, Estimate, GuardMotion, GuardStats;
      ApplyGuard(candidateVel, err, root, l);
    }

    /** A target that is not finite is replaced by the last one that was. */
    method TakeTarget(target: Target) returns (x: real)
      modifies this`m
      ensures x == Effective(old(m), target) && m == old(m).(lastValidTarget := x)
    {
      if target.At? {
        m := m.(lastValidTarget := target.x);
      }
      x := m.lastValidTarget;
    }
  }
}
