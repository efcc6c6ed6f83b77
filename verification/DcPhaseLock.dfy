/** The DC phase-lock compensator: a clamped PI that trims the master's period so that its
    cycle keeps a constant phase to the drives' reference clock.

    Doubles are modelled as reals, 64-bit nanosecond counts as integers. The `Lock` value and
    `Update` function say what one cycle computes; the class does it in place. */
module DcPhaseLock {
  import opened RealArithmetic

  datatype Sample = NoSample | Phase(ns: int)

  datatype Params = Params(
    cycleNs: int, nominalCounts: int, dtSec: real, kp: real, ki: real,
    maxTrimNs: int, targetNs: int, warmupCycles: int)

  datatype Lock = Lock(integ: real, cycles: int, primed: bool, target: int, lastErr: real, lastTrim: real)

  const FRESH: Lock := Lock(0.0, 0, false, 0, 0.0, 0.0)

  /** llround: to the nearest integer, halves away from zero. */
  function Round(x: real): int {
    if x >= 0.0 then (x + 0.5).Floor else -((-x + 0.5).Floor)
  }

  function CountsPerNs(p: Params): real {
    if p.cycleNs > 0 then p.nominalCounts as real / p.cycleNs as real else 1.0
  }

  /** Integer division by two as C++ rounds it, toward zero. */
  function Half(c: int): int { if c >= 0 then c / 2 else -((-c) / 2) }

  function CircularError(phase: int, target: int, cycle: int): int {
    var d := phase - target;
    var e := if d > Half(cycle) then d - cycle else d;
    if e < -Half(cycle) then e + cycle else e
  }

  datatype Pi = Pi(trim: real, clamped: bool, integ: real)

  /** The frequency command of the PI, in ns per second. */
  function Command(p: Params, integ: real, e: real): real { p.kp * e + p.ki * integ }

  /** The trim asked for, before the clamp. */
  function Demand(p: Params, integ: real, e: real): real { -p.dtSec * Command(p, integ, e) }

  /** The period in platform counts for a trim. */
  function Trimmed(nominal: int, trim: real, countsPerNs: real): int { nominal + Round(trim * countsPerNs) }

  /** The compensator proper: the trim for a phase error, and the integrator after it. */
  function PiStep(p: Params, integ: real, e: real): Pi {
    var raw := Demand(p, integ, e);
    var maxT := p.maxTrimNs as real;
    var high := if raw > maxT then maxT else raw;
    var trim := if high < -maxT then -maxT else high;
    var clamped := raw > maxT || high < -maxT;
    Pi(trim, clamped, if clamped then integ else integ + e * p.dtSec)
  }

  datatype Updated = Updated(lock: Lock, period: int)

  /** What a locked compensator does about a phase error. */
  function Respond(p: Params, s: Lock, e: real): Lock {
    var u := PiStep(p, s.integ, e);
    s.(integ := u.integ, lastErr := e, lastTrim := u.trim)
  }

  function Update(p: Params, s: Lock, x: Sample): Updated {
    match x
    case NoSample => Updated(s, p.nominalCounts)
    case Phase(ns) =>
      if s.cycles < p.warmupCycles then Updated(s.(cycles := s.cycles + 1), p.nominalCounts) else
      var t := if s.primed then s else s.(target := if p.targetNs >= 0 then p.targetNs else ns, primed := true, integ := 0.0);
      var u := Respond(p, t, CircularError(ns, t.target, p.cycleNs) as real);
      Updated(u, Trimmed(p.nominalCounts, u.lastTrim, CountsPerNs(p)))
  }

  class Compensator {
    var params: Params
    var enabled: bool
    var countsPerNs: real
    var integ: real
    var cycles: int
    var primed: bool
    var target: int
    var lastErr: real
    var lastTrim: real

    ghost predicate Valid() reads this { countsPerNs == CountsPerNs(params) }

    ghost function State(): Lock reads this { Lock(integ, cycles, primed, target, lastErr, lastTrim) }

    constructor ()
      ensures !enabled
    {
      params := Params(2000000, 0, 0.002, 2.5, 1.6, 10000, -1, 500);
      enabled := false;
      countsPerNs := 1.0;
      integ, cycles, primed, target, lastErr, lastTrim := 0.0, 0, false, 0, 0.0, 0.0;
    }

    method Configure(p: Params)
      modifies this
      ensures Valid() && params == p && State() == FRESH && enabled == old(enabled)
    {
      params := p;
      countsPerNs := if p.cycleNs > 0 then p.nominalCounts as real / p.cycleNs as real else 1.0;
      Reset();
    }

    method Reset()
      modifies this
      ensures State() == FRESH
      ensures params == old(params) && enabled == old(enabled) && countsPerNs == old(countsPerNs)
    {
      integ, cycles, primed, target, lastErr, lastTrim := 0.0, 0, false, 0, 0.0, 0.0;
    }

    method SetEnabled(e: bool)
      modifies `enabled
      ensures enabled == e
    {
      enabled := e;
    }

    /** The period for the next cycle; without a sample it is nominal and nothing advances. */
    method Next(x: Sample) returns (period: int)
      requires Valid()
      modifies this
      ensures Valid() && params == old(params) && enabled == old(enabled)
      ensures Updated(State(), period) == Update(params, old(State()), x)
    {
      if x.NoSample? { return params.nominalCounts; }
      if cycles < params.warmupCycles {
        cycles := cycles + 1;
        return params.nominalCounts;
      }
      if !primed {
        target := if params.targetNs >= 0 then params.targetNs else x.ns;
        primed := true;
        integ := 0.0;
      }
      var e := x.ns - target;
      var half := if params.cycleNs >= 0 then params.cycleNs / 2 else -((-params.cycleNs) / 2);
      if e > half { e := e - params.cycleNs; }
      if e < -half { e := e + params.cycleNs; }
      lastErr := e as real;
      lastTrim := Compensate(lastErr);
      period := Trimmed(params.nominalCounts, lastTrim, countsPerNs);
    }

    /** The clamped PI: the trim for an error, the integrator held while it is clamped. */
    method Compensate(e: real) returns (trim: real)
      modifies `integ
      ensures PiStep(params, old(integ), e) == Pi(trim, PiStep(params, old(integ), e).clamped, integ)
    {
      var u := params.kp * e + params.ki * integ;
      trim := -params.dtSec * u;
      var maxT := params.maxTrimNs as real;
      var clamped := false;
      if trim > maxT { trim := maxT; clamped := true; }
      if trim < -maxT { trim := -maxT; clamped := true; }
      if !clamped { integ := integ + e * params.dtSec; }
    }
  }

  // ----- the circular error -----

  /** The error is the phase difference up to whole cycles; it lies within half a cycle
      either way exactly when the difference is at most a cycle and a half, as it is for
      two phases of one cycle; and no other representative is nearer to zero. */
  lemma CircularErrorIsNearest(phase: int, target: int, cycle: int)
    requires cycle > 0
    ensures var e := CircularError(phase, target, cycle);
            && (phase - target - e) % cycle == 0
            && (-(cycle / 2) <= e <= cycle / 2 <==> -(cycle + cycle / 2) <= phase - target <= cycle + cycle / 2)
            && (0 <= phase < cycle && 0 <= target < cycle ==>
                -(cycle / 2) <= e <= cycle / 2 && e <= phase - target + cycle && phase - target - cycle <= e)
  {
    var d := phase - target;
    var e := CircularError(phase, target, cycle);
    assert d - e == 0 || d - e == cycle || d - e == -cycle;
    assert cycle % cycle == 0 && (-cycle) % cycle == 0 by { assert -cycle == (-1) * cycle; }
  }

  // ----- every run -----

  predicate Sane(p: Params) {
    p.cycleNs > 0 && p.dtSec > 0.0 && p.maxTrimNs >= 0 && p.nominalCounts >= 0 && p.targetNs < p.cycleNs
  }

  /** Samples as the callers take them: none, or a phase within the cycle. */
  predicate InCycle(p: Params, x: Sample) { x.Phase? ==> 0 <= x.ns < p.cycleNs }
  predicate AllInCycle(p: Params, xs: seq<Sample>) { forall x :: x in xs ==> InCycle(p, x) }

  function HalfCycle(p: Params): real { (p.cycleNs / 2) as real }

  /** The largest command an unclamped trim can come from, and the largest integrator
      behind it, by the products that define them. */
  datatype Limits = Limits(command: real, reach: real)

  predicate AreLimits(p: Params, m: Limits) {
    && m.command >= 0.0 && m.reach >= 0.0
    && p.dtSec * m.command == p.maxTrimNs as real
    && Abs(p.ki) * m.reach == m.command + Abs(p.kp) * HalfCycle(p)
  }

  /** ... and one more accumulation on top. */
  function IntegBound(p: Params, m: Limits): real { m.reach + HalfCycle(p) * p.dtSec }

  function Run(p: Params, s: Lock, xs: seq<Sample>): Lock
    decreases |xs|
  {
    if xs == [] then s else Run(p, Update(p, s, xs[0]).lock, xs[1..])
  }

  /** The time the run's periods add up to. */
  function Elapsed(p: Params, s: Lock, xs: seq<Sample>): int
    decreases |xs|
  {
    if xs == [] then 0 else Update(p, s, xs[0]).period + Elapsed(p, Update(p, s, xs[0]).lock, xs[1..])
  }

  predicate Bounded(p: Params, m: Limits, s: Lock) {
    (s.primed ==> 0 <= s.target < p.cycleNs) && Abs(s.integ) <= IntegBound(p, m)
  }

  /** An unclamped trim bounds the command it comes from. */
  lemma UnclampedCommand(p: Params, m: Limits, integ: real, e: real)
    requires p.dtSec > 0.0 && AreLimits(p, m) && !PiStep(p, integ, e).clamped
    ensures Abs(Command(p, integ, e)) <= m.command
    ensures PiStep(p, integ, e).integ == integ + e * p.dtSec
  {
    var c := Name(Command(p, integ, e));
    var maxT := Name(p.maxTrimNs as real);
    assert -maxT <= -p.dtSec * c <= maxT;
    Cancel(p.dtSec, c, m.command, p.dtSec * c, maxT);
    Cancel(p.dtSec, -c, m.command, p.dtSec * -c, maxT);
  }

  lemma OtherTerm(k: real, e: real, half: real, x: real, y: real, sum: real, w: real, kh: real)
    requires x == k * e && sum == x + y && Abs(sum) <= w && Abs(e) <= half && kh == Abs(k) * half
    ensures Abs(y) <= w + kh
  {
    var ax := Name(Abs(x));
    var ak := Name(Abs(k));
    MulAbs(k, e, x);
    assert Abs(y) <= w + ax;
    MulMono(ak, Abs(e), half, ax, kh);
  }

  lemma Factor(k: real, i: real, y: real, reach: real, kr: real)
    requires k != 0.0 && y == k * i && kr == Abs(k) * reach && Abs(y) <= kr
    ensures Abs(i) <= reach
  {
    var ak := Name(Abs(k));
    MulAbs(k, i, y);
    Cancel(ak, Abs(i), reach, Abs(y), kr);
  }

  lemma TermWithin(p: Params, m: Limits, integ: real, e: real, y: real, kh: real)
    requires y == p.ki * integ && kh == Abs(p.kp) * HalfCycle(p)
    requires Abs(Command(p, integ, e)) <= m.command && Abs(e) <= HalfCycle(p)
    ensures Abs(y) <= m.command + kh
  {
    var x := Name(p.kp * e);
    OtherTerm(p.kp, e, HalfCycle(p), x, y, Command(p, integ, e), m.command, kh);
  }

  /** A bounded command with a bounded error comes from a bounded integrator. */
  lemma IntegBehindCommand(p: Params, m: Limits, integ: real, e: real)
    requires p.ki != 0.0 && AreLimits(p, m)
    requires Abs(Command(p, integ, e)) <= m.command && Abs(e) <= HalfCycle(p)
    ensures Abs(integ) <= m.reach
  {
    hide Command, HalfCycle;
    var y := Name(p.ki * integ);
    var kr := Name(Abs(p.ki) * m.reach);
    TermWithin(p, m, integ, e, y, kr - m.command);
    Factor(p.ki, integ, y, m.reach, kr);
  }

  lemma Accumulated(integ: real, e: real, dt: real, reach: real, half: real, ed: real, hd: real)
    requires dt > 0.0 && Abs(integ) <= reach && Abs(e) <= half && ed == e * dt && hd == half * dt
    ensures Abs(integ + ed) <= reach + hd
  {
    MulMono(dt, e, half, ed, hd);
    MulMono(dt, -half, e, -hd, ed);
  }

  /** One accumulation cannot leave the bound, however large the error gain: a clamped trim
      accumulates nothing, and an unclamped one comes from an integrator well inside it. */
  lemma PiStepBounded(p: Params, m: Limits, integ: real, e: real)
    requires Sane(p) && p.ki != 0.0 && AreLimits(p, m)
    requires Abs(integ) <= IntegBound(p, m) && Abs(e) <= HalfCycle(p)
    ensures Abs(PiStep(p, integ, e).integ) <= IntegBound(p, m)
  {
    if !PiStep(p, integ, e).clamped {
      UnclampedCommand(p, m, integ, e);
      IntegBehindCommand(p, m, integ, e);
      hide PiStep, Command, HalfCycle, AreLimits, Abs;
      var hd := Name(HalfCycle(p) * p.dtSec);
      Accumulated(integ, e, p.dtSec, m.reach, HalfCycle(p), e * p.dtSec, hd);
    }
  }

  lemma UpdateBounded(p: Params, m: Limits, s: Lock, x: Sample)
    requires Sane(p) && p.ki != 0.0 && AreLimits(p, m) && Bounded(p, m, s) && InCycle(p, x)
    ensures Bounded(p, m, Update(p, s, x).lock)
  {
    MulNonNegative(HalfCycle(p), p.dtSec, HalfCycle(p) * p.dtSec);
    if x.Phase? && s.cycles >= p.warmupCycles {
      var t := if s.primed then s else s.(target := if p.targetNs >= 0 then p.targetNs else x.ns, primed := true, integ := 0.0);
      CircularErrorIsNearest(x.ns, t.target, p.cycleNs);
      PiStepBounded(p, m, t.integ, CircularError(x.ns, t.target, p.cycleNs) as real);
    }
  }

  lemma {:induction false} RunBounded(p: Params, m: Limits, s: Lock, xs: seq<Sample>)
    requires Sane(p) && p.ki != 0.0 && AreLimits(p, m) && Bounded(p, m, s) && AllInCycle(p, xs)
    ensures Bounded(p, m, Run(p, s, xs))
    decreases |xs|
  {
    if xs != [] {
      assert xs[0] in xs;
      UpdateBounded(p, m, s, xs[0]);
      RunBounded(p, m, Update(p, s, xs[0]).lock, xs[1..]);
    }
  }

  lemma LimitsExist(p: Params) returns (m: Limits)
    requires Sane(p) && p.ki != 0.0
    ensures AreLimits(p, m)
    ensures m == Limits(p.maxTrimNs as real / p.dtSec,
                        (p.maxTrimNs as real / p.dtSec + Abs(p.kp) * HalfCycle(p)) / Abs(p.ki))
  {
    var c := p.maxTrimNs as real / p.dtSec;
    DivBound(0.0, p.maxTrimNs as real, p.dtSec, 0.0, c);
    MulNonNegative(Abs(p.kp), HalfCycle(p), Abs(p.kp) * HalfCycle(p));
    m := Limits(c, (c + Abs(p.kp) * HalfCycle(p)) / Abs(p.ki));
    DivBound(0.0, c + Abs(p.kp) * HalfCycle(p), Abs(p.ki), 0.0, m.reach);
  }

  /** On every run from a reset, whatever the phases, the integrator stays within
      (maxTrim/dt + |kp|*half)/|ki| + half*dt, half being half a cycle. */
  lemma IntegratorBounded(p: Params, xs: seq<Sample>)
    requires Sane(p) && p.ki != 0.0 && AllInCycle(p, xs)
    ensures Abs(Run(p, FRESH, xs).integ)
            <= (p.maxTrimNs as real / p.dtSec + Abs(p.kp) * HalfCycle(p)) / Abs(p.ki) + HalfCycle(p) * p.dtSec
  {
    var m := LimitsExist(p);
    MulNonNegative(HalfCycle(p), p.dtSec, HalfCycle(p) * p.dtSec);
    RunBounded(p, m, FRESH, xs);
  }

  // ----- warming up and priming -----

  /** The phases among the samples. */
  function Phases(xs: seq<Sample>): seq<int>
  {
    if xs == [] then [] else Phases(xs[..|xs| - 1]) + (match xs[|xs| - 1] case NoSample => [] case Phase(ns) => [ns])
  }

  function RunTo(p: Params, xs: seq<Sample>): Lock {
    if xs == [] then FRESH else Update(p, RunTo(p, xs[..|xs| - 1]), xs[|xs| - 1]).lock
  }

  /** Over every sequence of samples from a reset: the first `warmupCycles` phases change nothing
      but their count, the one after them sets the target, to the configured one or else to
      itself, and no later one moves it; a cycle without a sample changes nothing. */
  lemma {:induction false} PrimesAfterTheWarmup(p: Params, xs: seq<Sample>)
    requires p.warmupCycles >= 0
    ensures var n := |Phases(xs)|; var s := RunTo(p, xs);
      && s.cycles == (if n < p.warmupCycles then n else p.warmupCycles) && (s.primed <==> n > p.warmupCycles)
      && (n <= p.warmupCycles ==> s == FRESH.(cycles := n))
      && (n > p.warmupCycles ==> s.target == if p.targetNs >= 0 then p.targetNs else Phases(xs)[p.warmupCycles])
      && (n > p.warmupCycles ==> s.lastErr == CircularError(Phases(xs)[n - 1], s.target, p.cycleNs) as real)
  {
    hide PiStep, CircularError, Trimmed, CountsPerNs;
    if xs != [] {
      PrimesAfterTheWarmup(p, xs[..|xs| - 1]);
    }
  }

  /** And what the period is meanwhile: nominal through the warm-up and without a sample. */
  lemma NominalUntilPrimed(p: Params, xs: seq<Sample>, x: Sample)
    requires p.warmupCycles >= 0 && (x.NoSample? || |Phases(xs)| < p.warmupCycles)
    ensures Update(p, RunTo(p, xs), x).period == p.nominalCounts
    ensures x.NoSample? ==> Update(p, RunTo(p, xs), x).lock == RunTo(p, xs)
  {
    PrimesAfterTheWarmup(p, xs);
  }

  function MaxStep(p: Params): int { Trimmed(0, p.maxTrimNs as real, CountsPerNs(p)) }

  lemma RoundMono(a: real, b: real)
    requires a <= b
    ensures Round(a) <= Round(b) && Round(-a) == -Round(a)
  {}

  lemma TrimWithinClamp(p: Params, s: Lock, ns: int)
    requires p.maxTrimNs >= 0 && s.cycles >= p.warmupCycles
    ensures var r := Update(p, s, Phase(ns));
            && -(p.maxTrimNs as real) <= r.lock.lastTrim <= p.maxTrimNs as real
            && r.period == Trimmed(p.nominalCounts, r.lock.lastTrim, CountsPerNs(p))
  {
    hide CountsPerNs, Trimmed, Demand;
  }

  lemma TrimmedWithin(nominal: int, trim: real, maxT: real, k: real)
    requires k >= 0.0 && -maxT <= trim <= maxT
    ensures -Trimmed(0, maxT, k) <= Trimmed(nominal, trim, k) - nominal <= Trimmed(0, maxT, k)
  {
    var x := Name(trim * k);
    var y := Name(maxT * k);
    MulMono(k, trim, maxT, x, y);
    MulMono(k, -maxT, trim, -y, x);
    RoundMono(x, y);
    RoundMono(-y, x);
    RoundMono(y, y);
  }

  /** The period never leaves nominal by more than the rounded clamp, whatever the gains. */
  lemma PeriodWithinClamp(p: Params, s: Lock, x: Sample)
    requires p.cycleNs > 0 && p.maxTrimNs >= 0 && p.nominalCounts >= 0
    ensures -MaxStep(p) <= Update(p, s, x).period - p.nominalCounts <= MaxStep(p)
  {
    DivBound(0.0, p.nominalCounts as real, p.cycleNs as real, 0.0, CountsPerNs(p));
    hide CountsPerNs, Trimmed, Demand;
    TrimmedWithin(0, 0.0, p.maxTrimNs as real, CountsPerNs(p));
    if x.Phase? && s.cycles >= p.warmupCycles {
      TrimWithinClamp(p, s, x.ns);
      TrimmedWithin(p.nominalCounts, Update(p, s, x).lock.lastTrim, p.maxTrimNs as real, CountsPerNs(p));
    }
  }

  /** The period is the trim in counts, to the nearest and a half away from nominal: lengthened by a positive one, shortened
      by a negative one. */
  lemma PeriodIsTheTrim(p: Params, s: Lock, ns: int)
    requires p.cycleNs > 0 && p.maxTrimNs >= 0 && p.nominalCounts >= 0 && s.cycles >= p.warmupCycles
    ensures var r := Update(p, s, Phase(ns)); var off := (r.period - p.nominalCounts) as real - r.lock.lastTrim * CountsPerNs(p);
      && (r.lock.lastTrim >= 0.0 ==> r.period >= p.nominalCounts && -0.5 < off <= 0.5)
      && (r.lock.lastTrim <= 0.0 ==> r.period <= p.nominalCounts && -0.5 <= off < 0.5)
  {
    DivBound(0.0, p.nominalCounts as real, p.cycleNs as real, 0.0, CountsPerNs(p));
    TrimWithinClamp(p, s, ns);
    hide Update, CountsPerNs, Round;
    TrimmedIsNear(p.nominalCounts, Update(p, s, Phase(ns)).lock.lastTrim, CountsPerNs(p));
    hide Trimmed;
  }

  lemma TrimmedIsNear(nominal: int, trim: real, k: real)
    requires k >= 0.0
    ensures var off := (Trimmed(nominal, trim, k) - nominal) as real - trim * k;
      && (trim >= 0.0 ==> Trimmed(nominal, trim, k) >= nominal && -0.5 < off <= 0.5)
      && (trim <= 0.0 ==> Trimmed(nominal, trim, k) <= nominal && -0.5 <= off < 0.5)
  {
    var x := Name(trim * k);
    SameSign(k, trim, x);
    RoundNear(x);
    hide Round;
  }

  /** To the nearest, and a half away from zero. */
  lemma RoundNear(x: real)
    ensures x >= 0.0 ==> Round(x) >= 0 && -0.5 < Round(x) as real - x <= 0.5
    ensures x <= 0.0 ==> Round(x) <= 0 && -0.5 <= Round(x) as real - x < 0.5
  {}

  /** The counts of a period of `cycleNs`, or one a nanosecond for want of one. */
  lemma CountsScale(p: Params)
    ensures p.cycleNs > 0 ==> CountsPerNs(p) * p.cycleNs as real == p.nominalCounts as real
    ensures p.cycleNs <= 0 ==> CountsPerNs(p) == 1.0
  {}

  /** The trim works against what the error and its integral ask for: it is minus dt times the
      command, up to the clamp, and so a phase behind the target lengthens the period and one
      ahead of it shortens it as soon as the integrator does not outweigh it. */
  lemma PeriodPullsBack(p: Params, s: Lock, ns: int)
    requires Sane(p) && p.kp >= 0.0 && s.primed && s.cycles >= p.warmupCycles
    ensures var r := Update(p, s, Phase(ns)); var e := CircularError(ns, s.target, p.cycleNs) as real;
      var asked := -Times(p.dtSec, Times(p.kp, e) + Times(p.ki, s.integ)); var maxT := p.maxTrimNs as real;
      && r.lock.lastTrim == Max(-maxT, Min(maxT, asked)) && r.lock.lastErr == e
      && r.lock.integ == (if -maxT <= asked <= maxT then s.integ + e * p.dtSec else s.integ)
      && (Times(p.ki, s.integ) <= 0.0 && e <= 0.0 ==> r.period >= p.nominalCounts)
      && (Times(p.ki, s.integ) >= 0.0 && e >= 0.0 ==> r.period <= p.nominalCounts)
  {
    PeriodIsTheTrim(p, s, ns);
    var e := CircularError(ns, s.target, p.cycleNs) as real;
    hide Trimmed, CircularError, CountsPerNs, Demand, Times;
    DemandSign(p, s.integ, e);
  }

  lemma DemandSign(p: Params, integ: real, e: real)
    requires p.dtSec > 0.0 && p.kp >= 0.0
    ensures Demand(p, integ, e) == -Times(p.dtSec, Times(p.kp, e) + Times(p.ki, integ))
    ensures Times(p.ki, integ) <= 0.0 && e <= 0.0 ==> Demand(p, integ, e) >= 0.0
    ensures Times(p.ki, integ) >= 0.0 && e >= 0.0 ==> Demand(p, integ, e) <= 0.0
  {
    var ke := Name(p.kp * e);
    var ki := Name(p.ki * integ);
    var asked := Name(p.dtSec * (ke + ki));
    SameSign(p.kp, e, ke);
    SameSign(p.dtSec, ke + ki, asked);
  }

  lemma SameSign(a: real, b: real, ab: real)
    requires a >= 0.0 && ab == a * b
    ensures (b >= 0.0 ==> ab >= 0.0) && (b <= 0.0 ==> ab <= 0.0)
  {
    if b >= 0.0 { MulNonNegative(a, b, ab); }
    if b <= 0.0 { MulNonNegative(a, -b, -ab); }
  }

  /** Over n cycles the accumulated period differs from n nominal periods by at most n
      rounded clamps: the loop cannot run the period away, whatever it is fed. */
  lemma {:induction false} ElapsedWithinClamp(p: Params, s: Lock, xs: seq<Sample>)
    requires p.cycleNs > 0 && p.maxTrimNs >= 0 && p.nominalCounts >= 0
    ensures -(|xs| * MaxStep(p)) <= Elapsed(p, s, xs) - |xs| * p.nominalCounts <= |xs| * MaxStep(p)
    decreases |xs|
  {
    hide Update, MaxStep;
    if xs != [] {
      PeriodWithinClamp(p, s, xs[0]);
      ElapsedWithinClamp(p, Update(p, s, xs[0]).lock, xs[1..]);
      assert |xs| * MaxStep(p) == |xs[1..]| * MaxStep(p) + MaxStep(p);
      assert |xs| * p.nominalCounts == |xs[1..]| * p.nominalCounts + p.nominalCounts;
    }
  }

  // ----- the closed loop -----

  /** The phase error and the integrator, with the error a real: the drives' clock moves
      `drift` against the master's every cycle, and the trim moves it back. */
  datatype Plant = Plant(e: real, integ: real)

  function Cycle(p: Params, drift: real, s: Plant): Plant {
    var u := Respond(p, FRESH.(integ := s.integ, primed := true), s.e);
    Plant(s.e + drift + u.lastTrim, u.integ)
  }

  function Settle(p: Params, drift: real, s: Plant, n: nat): Plant {
    if n == 0 then s else Cycle(p, drift, Settle(p, drift, s, n - 1))
  }

  // ----- ... is the operation's own -----

  /** The circular error of a phase that need not be a whole number of nanoseconds. */
  function Wrapped(d: real, cycle: int): real {
    var half := Half(cycle) as real;
    var e := if d > half then d - cycle as real else d;
    if e < -half then e + cycle as real else e
  }

  /** The lock, and the phase of the drives' clock as it goes on past whole cycles. */
  datatype Looped = Looped(lock: Lock, phase: real)

  /** A cycle of the operation, and the clocks move on: the drift, and the trim against it. */
  function LoopCycle(p: Params, drift: real, x: Looped): Looped {
    var lock := Respond(p, x.lock, Wrapped(x.phase - x.lock.target as real, p.cycleNs));
    Looped(lock, x.phase + drift + lock.lastTrim)
  }

  function LoopRun(p: Params, drift: real, x: Looped, n: nat): Looped {
    if n == 0 then x else LoopCycle(p, drift, LoopRun(p, drift, x, n - 1))
  }

  /** On whole nanoseconds the response is that of the operation. */
  lemma UpdateIsTheResponse(p: Params, s: Lock, ns: int)
    requires p.cycleNs > 0 && s.primed && s.cycles >= p.warmupCycles
    ensures Update(p, s, Phase(ns)).lock == Respond(p, s, Wrapped(ns as real - s.target as real, p.cycleNs))
  {
    var d := ns - s.target;
    assert d as real == ns as real - s.target as real;
    assert CircularError(ns, s.target, p.cycleNs) as real == Wrapped(d as real, p.cycleNs);
    hide Respond;
  }

  /** The plant of the results that follow is this loop, for as long as the error stays within
      half a cycle. */
  lemma {:induction false} LoopIsThePlant(p: Params, drift: real, x: Looped, n: nat)
    requires p.cycleNs > 0
    requires var s := Plant(x.phase - x.lock.target as real, x.lock.integ);
      forall k: nat :: k < n ==> Abs(Settle(p, drift, s, k).e) <= Half(p.cycleNs) as real
    ensures var s := Settle(p, drift, Plant(x.phase - x.lock.target as real, x.lock.integ), n); var y := LoopRun(p, drift, x, n);
      y.phase - y.lock.target as real == s.e && y.lock.integ == s.integ && y.lock.target == x.lock.target
  {
    if n > 0 {
      LoopIsThePlant(p, drift, x, n - 1);
      hide PiStep, Trimmed, CountsPerNs;
    }
  }

  predicate Loopable(p: Params) { p.dtSec > 0.0 && p.ki > 0.0 }

  /** How far the integrator is from the value that cancels the drift. */
  function Offset(p: Params, drift: real, s: Plant): real
    requires Loopable(p)
  {
    s.integ - drift / (p.dtSec * p.ki)
  }

  function Form(p: Params, e: real, j: real): real { e * e + p.kp * e * j + p.ki * j * j }

  function Energy(p: Params, drift: real, s: Plant): real
    requires Loopable(p)
  {
    Form(p, s.e, Offset(p, drift, s))
  }

  /** What one unsaturated cycle multiplies the energy by. */
  function Rate(p: Params): real { 1.0 - p.kp * p.dtSec + p.ki * p.dtSec * p.dtSec }

  predicate Saturated(p: Params, s: Plant) { PiStep(p, s.integ, s.e).clamped }

  lemma CycleIsLinear(p: Params, drift: real, s: Plant)
    requires Loopable(p) && !Saturated(p, s)
    ensures var j := Offset(p, drift, s); var t := Cycle(p, drift, s);
            && t.e == s.e - p.dtSec * (p.kp * s.e + p.ki * j)
            && Offset(p, drift, t) == j + p.dtSec * s.e
  {
    var j := Offset(p, drift, s);
    var u := Name(Command(p, j, s.e));
    DemandAroundDrift(p, drift, s, u);
    var du := Name(p.dtSec * u);
    var de := Name(p.dtSec * s.e);
    assert s.e * p.dtSec == de;
    hide Demand;
    assert Cycle(p, drift, s) == Plant(s.e - du, s.integ + de);
    assert u == p.kp * s.e + p.ki * j;
  }

  lemma FormScales(p: Params, e: real, j: real, e1: real, j1: real)
    requires e1 == e - p.dtSec * (p.kp * e + p.ki * j) && j1 == j + p.dtSec * e
    ensures Form(p, e1, j1) == Times(Rate(p), Form(p, e, j))
  {}

  /** The exact contraction law: an unsaturated cycle multiplies the energy by
      1 - kp*dt + ki*dt^2. */
  lemma Contraction(p: Params, drift: real, s: Plant)
    requires Loopable(p) && !Saturated(p, s)
    ensures Energy(p, drift, Cycle(p, drift, s)) == Times(Rate(p), Energy(p, drift, s))
  {
    var t := Cycle(p, drift, s);
    CycleIsLinear(p, drift, s);
    hide Cycle, Offset, Saturated, Rate, Form, Times;
    FormScales(p, s.e, Offset(p, drift, s), t.e, Offset(p, drift, t));
  }

  // ----- a constant drift is locked out -----

  /** The gains damp (kp^2 < 4*ki makes the energy positive definite) and the cycle is short
      enough for them. The defaults at every loop rate from 100 Hz up are. */
  predicate Stable(p: Params) {
    p.dtSec > 0.0 && p.ki > 0.0 && p.kp * p.kp < 4.0 * p.ki && p.ki * p.dtSec < p.kp
  }

  lemma RateInUnit(p: Params)
    requires Stable(p)
    ensures 0.0 < Rate(p) < 1.0
  {
    var x := 2.0 * p.ki * p.dtSec - p.kp;
    assert 4.0 * p.ki * Rate(p) == x * x + (4.0 * p.ki - p.kp * p.kp);
    Square(x, x * x);
    MulPositive(p.dtSec, p.kp - p.ki * p.dtSec, p.dtSec * (p.kp - p.ki * p.dtSec));
  }

  /** The energy bounds the phase error: it is positive definite. */
  lemma FormDominatesError(p: Params, e: real, j: real, d: real, dee: real, form: real)
    requires p.ki > 0.0 && d == 4.0 * p.ki - p.kp * p.kp > 0.0 && dee == d * (e * e)
    requires form == Form(p, e, j)
    ensures 0.0 <= dee <= 4.0 * p.ki * form && form >= 0.0
  {
    var x := 2.0 * p.ki * j + p.kp * e;
    assert 4.0 * p.ki * form - dee == x * x;
    Square(x, x * x);
    Square(e, e * e);
    MulNonNegative(d, e * e, dee);
  }

  /** ... and the command. */
  lemma FormDominatesCommand(p: Params, e: real, j: real, d: real, c: real, dcc: real, form: real)
    requires p.ki > 0.0 && d == 4.0 * p.ki - p.kp * p.kp && c == Command(p, j, e) && dcc == d * (c * c)
    requires form == Form(p, e, j)
    ensures dcc <= 4.0 * p.ki * p.ki * form
  {
    var y := (2.0 * p.ki - p.kp * p.kp) * e - p.kp * p.ki * j;
    assert 4.0 * p.ki * p.ki * form - dcc == y * y;
    Square(y, y * y);
  }

  /** `w` bounds the command at energy `v`, and the trim it asks for on top of the drift is
      inside the clamp. */
  predicate Headroom(p: Params, drift: real, v: real, w: real) {
    && w >= 0.0
    && 4.0 * p.ki * p.ki * v <= (4.0 * p.ki - p.kp * p.kp) * (w * w)
    && Abs(drift) + p.dtSec * w <= p.maxTrimNs as real
  }

  lemma CommandWithin(p: Params, e: real, j: real, v: real, w: real, c: real)
    requires Stable(p) && Form(p, e, j) <= v && c == Command(p, j, e)
    requires w >= 0.0 && 4.0 * p.ki * p.ki * v <= (4.0 * p.ki - p.kp * p.kp) * (w * w)
    ensures -w <= c <= w
  {
    var d := Name(4.0 * p.ki - p.kp * p.kp);
    var cc := Name(c * c);
    var ww := Name(w * w);
    var kk := Name(4.0 * p.ki * p.ki);
    FormDominatesCommand(p, e, j, d, c, d * cc, Form(p, e, j));
    hide Form, Command;
    MulMono(kk, Form(p, e, j), v, kk * Form(p, e, j), kk * v);
    Cancel(d, cc, ww, d * cc, d * ww);
    SquareRootMono(c, w, cc, ww);
  }

  lemma DemandAroundDrift(p: Params, drift: real, s: Plant, c: real)
    requires Loopable(p) && c == Command(p, Offset(p, drift, s), s.e)
    ensures Demand(p, s.integ, s.e) == -(p.dtSec * c) - drift
  {
    var q := p.dtSec * p.ki;
    assert q * (drift / q) == drift;
    assert q * s.integ == q * Offset(p, drift, s) + drift;
  }

  lemma DemandWithin(p: Params, drift: real, c: real, w: real, demand: real, dc: real, dw: real)
    requires p.dtSec > 0.0 && -w <= c <= w && dc == p.dtSec * c && dw == p.dtSec * w
    requires demand == -dc - drift && Abs(drift) + dw <= p.maxTrimNs as real
    ensures -(p.maxTrimNs as real) <= demand <= p.maxTrimNs as real
  {
    MulMono(p.dtSec, c, w, dc, dw);
    MulMono(p.dtSec, -w, c, -dw, dc);
  }

  /** Small energy, small command: with headroom the clamp is not reached. */
  lemma Unsaturated(p: Params, drift: real, s: Plant, v: real, w: real)
    requires Stable(p) && Energy(p, drift, s) <= v && Headroom(p, drift, v, w)
    ensures !Saturated(p, s)
  {
    var c := Name(Command(p, Offset(p, drift, s), s.e));
    CommandWithin(p, s.e, Offset(p, drift, s), v, w, c);
    DemandAroundDrift(p, drift, s, c);
    hide Command, Offset, Demand, Energy;
    DemandWithin(p, drift, c, w, Demand(p, s.integ, s.e), p.dtSec * c, p.dtSec * w);
  }

  function Pow(q: real, n: nat): real { if n == 0 then 1.0 else q * Pow(q, n - 1) }

  ghost predicate NeverSaturated(p: Params, drift: real, s: Plant) {
    forall n: nat :: !Saturated(p, Settle(p, drift, s, n))
  }

  lemma EnergyIsPositive(p: Params, drift: real, s: Plant)
    requires Stable(p)
    ensures Energy(p, drift, s) >= 0.0
  {
    var d := 4.0 * p.ki - p.kp * p.kp;
    FormDominatesError(p, s.e, Offset(p, drift, s), d, d * (s.e * s.e), Energy(p, drift, s));
  }

  /** Over cycles that do not saturate, the energy after n of them is exactly the n-th power of
      the rate times what it was. */
  lemma {:induction false} EnergyAfter(p: Params, drift: real, s: Plant, n: nat)
    requires Loopable(p) && forall k: nat :: k < n ==> !Saturated(p, Settle(p, drift, s, k))
    ensures Energy(p, drift, Settle(p, drift, s, n)) == Times(Pow(Rate(p), n), Energy(p, drift, s))
  {
    if n == 0 {
      assert Times(1.0, Energy(p, drift, s)) == Energy(p, drift, s);
    } else {
      EnergyAfter(p, drift, s, n - 1);
      var t := Settle(p, drift, s, n - 1);
      hide Rate, Energy, Cycle, Saturated;
      Contraction(p, drift, t);
      var next := Energy(p, drift, Cycle(p, drift, t));
      NextPower(Rate(p), Pow(Rate(p), n - 1), Energy(p, drift, s), Energy(p, drift, t), next, Pow(Rate(p), n));
    }
  }

  lemma NextPower(q: real, r: real, v: real, now: real, next: real, qr: real)
    requires now == Times(r, v) && next == Times(q, now) && qr == q * r
    ensures next == Times(qr, v)
  {}

  /** Headroom at the start is enough for a run that never saturates. */
  lemma {:induction false} HeadroomSuffices(p: Params, drift: real, s: Plant, w: real, n: nat)
    requires Stable(p) && Headroom(p, drift, Energy(p, drift, s), w)
    ensures !Saturated(p, Settle(p, drift, s, n)) && Energy(p, drift, Settle(p, drift, s, n)) <= Energy(p, drift, s)
  {
    if n > 0 {
      var t := Settle(p, drift, s, n - 1);
      HeadroomSuffices(p, drift, s, w, n - 1);
      EnergyStep(p, drift, t);
      assert Settle(p, drift, s, n) == Cycle(p, drift, t);
    }
    hide Energy, Headroom, Saturated, Settle;
    Unsaturated(p, drift, Settle(p, drift, s, n), Energy(p, drift, s), w);
  }

  /** An unsaturated cycle takes its part of the energy off. */
  lemma EnergyStep(p: Params, drift: real, t: Plant)
    requires Stable(p) && !Saturated(p, t)
    ensures 0.0 <= Energy(p, drift, t) && 0.0 < Rate(p) < 1.0
    ensures Energy(p, drift, Cycle(p, drift, t)) <= Energy(p, drift, t) - Times(1.0 - Rate(p), Energy(p, drift, t))
    ensures Energy(p, drift, Cycle(p, drift, t)) <= Energy(p, drift, t)
  {
    assert Loopable(p);
    hide Energy, Rate, Cycle, Stable, Saturated, Times;
    EnergyIsPositive(p, drift, t);
    RateInUnit(p);
    Contraction(p, drift, t);
    PartOff(Rate(p), Energy(p, drift, t), Energy(p, drift, Cycle(p, drift, t)));
  }

  lemma PartOff(q: real, v: real, next: real)
    requires q < 1.0 && v >= 0.0 && next == Times(q, v)
    ensures next == v - Times(1.0 - q, v) && next <= v
  {
    MulNonNegative(1.0 - q, v, Times(1.0 - q, v));
  }

  /** What falls by a part of itself or by a fixed amount at every step is below any positive
      bound from some step on, and this many steps are enough. */
  function Enough(size: real, gain: real): nat
    requires size >= 0.0 && gain > 0.0
  {
    DivBound(0.0, size, gain, 0.0, size / gain);
    (size / gain).Floor + 1
  }

  /** After n steps of at least `gain` from `size`: below the bound, or that much further down. */
  predicate Down(now: real, size: real, gain: real, low: real, n: nat) {
    now < low || now + Times(gain, n as real) <= size
  }

  lemma DownOne(now: real, next: real, size: real, gain: real, rate: real, drop: real, low: real, n: nat)
    requires Down(now, size, gain, low, n) && rate >= 0.0 && drop >= 0.0 && now >= 0.0
    requires gain <= Times(rate, low) && gain <= drop
    requires next <= now - Times(rate, now) || next <= now - drop
    ensures Down(next, size, gain, low, n + 1)
  {
    MulNonNegative(rate, now, Times(rate, now));
    if now >= low {
      MulMono(rate, low, now, rate * low, Times(rate, now));
      assert Times(gain, (n + 1) as real) == Times(gain, n as real) + gain;
    }
  }

  lemma DownEnough(now: real, size: real, gain: real, low: real, n: nat)
    requires size >= 0.0 && gain > 0.0 && now >= 0.0 && Down(now, size, gain, low, n) && n >= Enough(size, gain)
    ensures now < low
  {
    var q := Name(size / gain);
    assert q * gain == size;
    var m := Name(n as real);
    assert q < m;
    MulPositive(gain, m - q, gain * (m - q));
    assert Times(gain, n as real) == gain * m;
  }

  lemma {:induction false} EnergyDown(p: Params, drift: real, s: Plant, gain: real, low: real, n: nat)
    requires Stable(p) && NeverSaturated(p, drift, s) && gain == Times(1.0 - Rate(p), low) >= 0.0
    ensures Down(Energy(p, drift, Settle(p, drift, s, n)), Energy(p, drift, s), gain, low, n)
  {
    if n > 0 {
      var t := Settle(p, drift, s, n - 1);
      EnergyDown(p, drift, s, gain, low, n - 1);
      EnergyStep(p, drift, t);
      assert Settle(p, drift, s, n) == Cycle(p, drift, t);
      hide Energy, Rate, Cycle, Settle, Stable, NeverSaturated;
      var now, rate := Energy(p, drift, t), 1.0 - Rate(p);
      DownOne(now, Energy(p, drift, Cycle(p, drift, t)), Energy(p, drift, s), gain, rate, gain, low, n - 1);
    }
  }

  ghost predicate SettledFrom(p: Params, drift: real, s: Plant, tol: real, settled: nat) {
    forall n: nat :: n >= settled ==> Abs(Settle(p, drift, s, n).e) < tol
  }

  ghost predicate Settles(p: Params, drift: real, s: Plant, tol: real) {
    exists settled: nat :: SettledFrom(p, drift, s, tol, settled)
  }

  /** For every tolerance, the phase error is below it from some cycle on. */
  ghost predicate LocksOut(p: Params, drift: real, s: Plant) {
    forall tol: real :: tol > 0.0 ==> Settles(p, drift, s, tol)
  }

  function Gap(p: Params): real { 4.0 * p.ki - p.kp * p.kp }

  /** The least energy that an error of the tolerance can have. */
  predicate IsBound(p: Params, tol: real, low: real) {
    Times(4.0 * p.ki, low) == Times(Gap(p), Times(tol, tol))
  }

  lemma EnergyDominatesError(p: Params, drift: real, t: Plant)
    requires Stable(p)
    ensures Times(Gap(p), Times(t.e, t.e)) <= Times(4.0 * p.ki, Energy(p, drift, t)) && Gap(p) > 0.0 && p.ki > 0.0
  {
    var d := 4.0 * p.ki - p.kp * p.kp;
    FormDominatesError(p, t.e, Offset(p, drift, t), d, d * (t.e * t.e), Energy(p, drift, t));
  }

  lemma TimesExceeds(k: real, d: real, tt: real, ee: real, low: real, v: real)
    requires k > 0.0 && d > 0.0 && Times(k, low) == Times(d, tt) && tt <= ee && Times(d, ee) <= Times(k, v)
    ensures low <= v
  {
    MulMono(d, tt, ee, d * tt, d * ee);
    Cancel(k, low, v, k * low, k * v);
  }

  lemma ErrorBelow(p: Params, drift: real, t: Plant, tol: real, low: real)
    requires Stable(p) && tol > 0.0 && IsBound(p, tol, low) && Energy(p, drift, t) < low
    ensures Abs(t.e) < tol
  {
    EnergyDominatesError(p, drift, t);
    hide Energy, Times, Gap, Stable;
    if Abs(t.e) >= tol {
      AtLeastSquares(t.e, tol);
      TimesExceeds(4.0 * p.ki, Gap(p), Times(tol, tol), Times(t.e, t.e), low, Energy(p, drift, t));
    }
  }

  lemma AtLeastSquares(x: real, w: real)
    requires w > 0.0 && Abs(x) >= w
    ensures Times(w, w) <= Times(x, x)
  {
    MulMono(w, w, Abs(x), w * w, w * Abs(x));
    MulMono(Abs(x), w, Abs(x), w * Abs(x), x * x);
  }

  lemma Bound(p: Params, tol: real) returns (low: real)
    requires Stable(p) && tol > 0.0
    ensures low > 0.0 && IsBound(p, tol, low)
  {
    var d := Name(4.0 * p.ki - p.kp * p.kp);
    var tt := Name(tol * tol);
    MulPositive(tol, tol, tt);
    MulPositive(d, tt, d * tt);
    low := d * tt / (4.0 * p.ki);
    assert 4.0 * p.ki * low == d * tt;
    if low <= 0.0 { MulMono(4.0 * p.ki, low, 0.0, 4.0 * p.ki * low, 0.0); }
  }

  /** The compensator's purpose: a run that never reaches the clamp locks the drift out,
      whatever it starts from. */
  lemma DriftLockedOut(p: Params, drift: real, s: Plant)
    requires Stable(p) && NeverSaturated(p, drift, s)
    ensures LocksOut(p, drift, s)
  {
    forall tol: real | tol > 0.0 ensures Settles(p, drift, s, tol) {
      var low := Bound(p, tol);
      RateInUnit(p);
      EnergyIsPositive(p, drift, s);
      var gain := Times(1.0 - Rate(p), low);
      MulPositive(1.0 - Rate(p), low, gain);
      var settled := Enough(Energy(p, drift, s), gain);
      forall n: nat | n >= settled ensures Abs(Settle(p, drift, s, n).e) < tol {
        hide Times, Rate, Energy, Stable, IsBound;
        var t := Settle(p, drift, s, n);
        EnergyDown(p, drift, s, gain, low, n);
        EnergyIsPositive(p, drift, t);
        DownEnough(Energy(p, drift, t), Energy(p, drift, s), gain, low, n);
        ErrorBelow(p, drift, t, tol, low);
      }
      assert SettledFrom(p, drift, s, tol, settled);
    }
  }
}
