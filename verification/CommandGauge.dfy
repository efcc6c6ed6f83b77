/** The statistics beside the command: what the windowed acceleration gauge can read, and that
    no statistic ever reaches the command. */
module CommandGauge {
  import opened RealArithmetic
  import opened CommandConditioner
  import opened CommandSafety

  datatype Event = Cycle(i: Input) | ResetStats | Seed(pos: real, vel: real)

  datatype Session = Session(c: Command, g: Gauge)

  function After(s: Session, ev: Event, l: Limits): Session
    requires l.dt > 0.0
  {
    match ev
    case Cycle(i) => Session(Next(s.c, i, l), Measure(s.g, s.c, i, l))
    case ResetStats => Session(s.c, NO_STATS)
    case Seed(pos, vel) => Session(Seeded(pos, vel), s.g.(hist := []))
  }

  function Run(s: Session, events: seq<Event>, l: Limits): Session
    requires l.dt > 0.0
    decreases |events|
  {
    if events == [] then s else Run(After(s, events[0], l), events[1..], l)
  }

  // ----- the statistics are a side channel -----

  function WithoutResets(events: seq<Event>): seq<Event>
    decreases |events|
  {
    if events == [] then []
    else if events[0].ResetStats? then WithoutResets(events[1..])
    else [events[0]] + WithoutResets(events[1..])
  }

  /** Two runs of the same cycles and seeds, from statistics that differ and with statistics
      resets at different moments, command the same. */
  lemma {:induction false} StatsNeverReachTheCommand(s: Session, s': Session, events: seq<Event>, events': seq<Event>, l: Limits)
    requires l.dt > 0.0 && s.c == s'.c && WithoutResets(events) == WithoutResets(events')
    ensures Run(s, events, l).c == Run(s', events', l).c
    decreases |events| + |events'|
  {
    hide Next, Measure;
    if events != [] && events[0].ResetStats? {
      StatsNeverReachTheCommand(After(s, events[0], l), s', events[1..], events', l);
    } else if events' != [] && events'[0].ResetStats? {
      StatsNeverReachTheCommand(s, After(s', events'[0], l), events, events'[1..], l);
    } else if events != [] {
      assert events[0] == WithoutResets(events)[0] == WithoutResets(events')[0] == events'[0];
      assert WithoutResets(events[1..]) == WithoutResets(events)[1..];
      assert WithoutResets(events'[1..]) == WithoutResets(events')[1..];
      StatsNeverReachTheCommand(After(s, events[0], l), After(s', events'[0], l), events[1..], events'[1..], l);
    }
  }

  // ----- what the gauge reads -----

  /** The remembered velocities end with the current one, all lie within vmax, and follow each
      other by at most one step of the acceleration limit wherever the brake did not bind. */
  predicate Linked(s: Session, l: Limits) {
    var h := s.g.hist;
    && (h != [] ==> h[|h| - 1].vel == s.c.m.vel)
    && (forall k :: 0 <= k < |h| ==> Abs(h[k].vel) <= l.vmax)
    && (forall k :: 0 < k < |h| && !h[k].braked ==> Abs(h[k].vel - h[k - 1].vel) <= MaxStep(l))
  }

  /** The velocity of a cycle, and whether the brake bound. */
  function Outcome(s: Session, i: Input, l: Limits): Past
    requires l.dt > 0.0
  {
    var out := Guard(s.c.m.vel, Aim(s.c, i, l.dt).targetVel, Wanted(s.c, i, l.dt), Error(s.c, i), i.root, l);
    Past(out.vel, out.braked)
  }

  lemma CycleOutcome(s: Session, i: Input, l: Limits)
    requires l.dt > 0.0
    ensures After(s, Cycle(i), l).c.m.vel == Outcome(s, i, l).vel
    ensures After(s, Cycle(i), l).g.hist == s.g.hist + [Outcome(s, i, l)]
    ensures After(s, Cycle(i), l).g.p.win == WindowPeak(s.g.p.win, s.g.hist, Outcome(s, i, l).vel, l.dt)
  {
    hide Guard, WindowPeak;
  }

  lemma OutcomeBounds(s: Session, i: Input, l: Limits)
    requires Sane(l)
    ensures Abs(Outcome(s, i, l).vel) <= l.vmax
    ensures !Outcome(s, i, l).braked && Abs(s.c.m.vel) <= l.vmax ==> Abs(Outcome(s, i, l).vel - s.c.m.vel) <= MaxStep(l)
  {
    VelocityBounds(s.c.m.vel, Aim(s.c, i, l.dt).targetVel, Wanted(s.c, i, l.dt), Error(s.c, i), i.root, l);
    hide Guard, MaxStep;
  }

  lemma StepKeepsLinked(s: Session, ev: Event, l: Limits)
    requires Sane(l) && Linked(s, l)
    ensures Linked(After(s, ev, l), l)
  {
    if ev.Cycle? {
      CycleOutcome(s, ev.i, l);
      OutcomeBounds(s, ev.i, l);
      hide After, Outcome, MaxStep;
    }
  }

  lemma {:induction false} RunKeepsLinked(s: Session, events: seq<Event>, l: Limits)
    requires Sane(l) && Linked(s, l)
    ensures Linked(Run(s, events, l), l)
    decreases |events|
  {
    hide Linked, After;
    if events != [] {
      StepKeepsLinked(s, events[0], l);
      RunKeepsLinked(After(s, events[0], l), events[1..], l);
    }
  }

  /** No braking bind in the last `w` cycles. */
  predicate Quiet(h: seq<Past>, w: nat) {
    forall k :: 0 <= k < |h| && |h| - w <= k ==> !h[k].braked
  }

  /** The sum of the steps telescopes. */
  lemma {:induction false} Telescope(h: seq<Past>, step: real, w: nat, total: real)
    requires w < |h| && Quiet(h, w) && total == w as real * step
    requires forall k :: 0 < k < |h| && !h[k].braked ==> Abs(h[k].vel - h[k - 1].vel) <= step
    ensures Abs(h[|h| - 1].vel - h[|h| - 1 - w].vel) <= total
  {
    if w > 0 {
      Telescope(h, step, w - 1, total - step) by { assert total - step == (w - 1) as real * step; }
      assert !h[|h| - w].braked;
    }
  }

  lemma RateWithin(dv: real, w: nat, l: Limits, total: real)
    requires l.dt > 0.0 && w > 0 && Abs(dv) <= total && total == w as real * MaxStep(l)
    ensures Abs(WindowRate(dv, w, l.dt)) <= l.amax
  {
    var n := Name(w as real);
    var span := Name(n * l.dt);
    var rate := Name(WindowRate(dv, w, l.dt));
    MulPositive(n, l.dt, span);
    TotalIs(n, l, total, span);
    assert rate == dv / span;
    hide WindowRate, MaxStep;
    RateBetween(dv, span, l.amax, total, rate);
  }

  lemma TotalIs(n: real, l: Limits, total: real, span: real)
    requires total == n * MaxStep(l) && span == n * l.dt
    ensures total == l.amax * span
  {}

  lemma RateBetween(dv: real, span: real, a: real, total: real, rate: real)
    requires span > 0.0 && rate == dv / span && total == a * span && Abs(dv) <= total
    ensures Abs(rate) <= a
  {
    QuotientIsOdd(dv, span);
    DivBound(-a, dv, span, -total, rate);
    DivBound(-a, -dv, span, -total, -rate);
  }

  lemma WindowRateIsOdd(dv: real, w: nat, dt: real)
    requires dt > 0.0 && w > 0
    ensures WindowRate(-dv, w, dt) == -WindowRate(dv, w, dt)
  {
    MulPositive(w as real, dt, w as real * dt);
    QuotientIsOdd(dv, w as real * dt);
  }

  lemma QuietReading(h: seq<Past>, out: Past, w: nat, l: Limits)
    requires Sane(l) && 0 < w <= |h| && Quiet(h + [out], w)
    requires forall k :: 0 < k <= |h| && !(h + [out])[k].braked ==> Abs((h + [out])[k].vel - (h + [out])[k - 1].vel) <= MaxStep(l)
    ensures Abs(WindowRate(out.vel - h[|h| - w].vel, w, l.dt)) <= l.amax
  {
    var total := Name(w as real * MaxStep(l));
    hide MaxStep, WindowRate;
    Telescope(h + [out], MaxStep(l), w, total);
    assert (h + [out])[|h| - w] == h[|h| - w];
    RateWithin(out.vel - h[|h| - w].vel, w, l, total);
  }

  /** Over a window with no braking bind the gauge reads at most amax: after any run, a cycle
      whose window is quiet raises the latched peak to amax at most. */
  lemma QuietWindowReadsTheLimit(s: Session, events: seq<Event>, i: Input, l: Limits)
    requires Sane(l) && Linked(s, l)
    ensures var before, after := Run(s, events, l), After(Run(s, events, l), Cycle(i), l);
      Quiet(after.g.hist, Window(l.dt)) ==> after.g.p.win <= Max(before.g.p.win, l.amax)
  {
    hide Window, Outcome, After, Run, MaxStep, WindowRate, Quiet;
    RunKeepsLinked(s, events, l);
    var before := Run(s, events, l);
    var h := before.g.hist;
    var out := Outcome(before, i, l);
    CycleOutcome(before, i, l);
    StepKeepsLinked(before, Cycle(i), l);
    var w := Window(l.dt);
    if Quiet(h + [out], w) && |h| >= w {
      QuietReading(h, out, w, l);
    }
  }
}
