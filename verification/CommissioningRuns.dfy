/** What holds of the commissioning engine on every run: any waves, aborts and cancels at any
    cycle. */
module CommissioningRuns {
  import opened RealArithmetic
  import opened Commissioning

  datatype Event = Cycle(w: Wave) | Abort | Cancel

  predicate Plausible(w: Wave) { 0.0 <= w.k <= 1.0 && 0.0 <= w.env <= 1.0 && -1.0 <= w.sin <= 1.0 }

  function After(e: Engine, s: Setup, ev: Event): Engine
    requires Shaped(s) && Fits(e, s)
  {
    match ev
    case Cycle(w) => StepOf(e, s, w).0
    case Abort => AbortOf(e)
    case Cancel => CancelOf(e)
  }

  /** A run: the engine's states, the first as a start leaves it. */
  predicate Run(es: seq<Engine>, s: Setup, evs: seq<Event>, returnT: real) {
    && Shaped(s) && |es| == |evs| + 1 && es[0] == Started(s.axes, returnT)
    && (forall j :: 0 <= j <= |evs| ==> Fits(es[j], s))
    && forall j :: 0 <= j < |evs| ==> (evs[j].Cycle? ==> Plausible(evs[j].w)) && es[j + 1] == After(es[j], s, evs[j])
  }

  /** The plan as a start derated it, on axes with sensible facts. */
  predicate Planned(s: Setup, asked: seq<Segment>, dt: real) {
    && (forall j :: 0 <= j < |asked| ==> |asked[j].amp| == |s.axes|) && IsStart(s.axes, asked, dt, s)
    && forall i :: 0 <= i < |s.axes| ==> s.axes[i].halfStroke >= 0.0 && s.axes[i].maxVel >= 0.0 && s.axes[i].maxAccel >= 0.0
  }

  // ----- derating -----

  lemma QuotientBudget(b: real, w: real, q: real, a: real, aw: real)
    requires w > 0.0 && q == b / w && a <= q && aw == a * w
    ensures aw <= b
  {
    var qw := Name(q * w);
    assert qw == b;
    MulMono(w, a, q, aw, qw);
  }

  lemma QuotientSign(b: real, w: real)
    requires w > 0.0 && b >= 0.0
    ensures b / w >= 0.0
  {
    var q := Name(b / w);
    assert q * w == b;
    if q < 0.0 {
      MulPositive(-q, w, -b);
    }
  }

  lemma CapBudgets(sg: Segment, a: Axis, w: real, ww: real)
    requires a.halfStroke >= 0.0 && a.maxVel >= 0.0 && a.maxAccel >= 0.0 && w == AngularFreq(sg) && ww == w * w
    ensures w > 0.0 && ww > 0.0 && 0.0 <= Cap(sg, a) <= 0.9 * a.halfStroke
    ensures !sg.hold ==> Cap(sg, a) <= VelCap(a, w) && Cap(sg, a) <= AccelCap(a, ww)
  {
    AngularFreqIsPositive(sg);
    hide AngularFreq;
    MulPositive(w, w, ww);
    QuotientSign(0.8 * a.maxVel, w);
    QuotientSign(0.8 * a.maxAccel, ww);
  }

  lemma VelBudget(a: Axis, w: real, amp: real, aw: real)
    requires w > 0.0 && 0.0 <= amp <= VelCap(a, w) && aw == amp * w
    ensures aw <= 0.8 * a.maxVel
  {
    QuotientBudget(0.8 * a.maxVel, w, VelCap(a, w), amp, aw);
  }

  lemma AccelBudget(a: Axis, ww: real, amp: real, aww: real)
    requires ww > 0.0 && 0.0 <= amp <= AccelCap(a, ww) && aww == amp * ww
    ensures aww <= 0.8 * a.maxAccel
  {
    QuotientBudget(0.8 * a.maxAccel, ww, AccelCap(a, ww), amp, aww);
  }

  /** A derated sine keeps within the stroke, and its peak velocity A*w and acceleration A*w*w
      within four fifths of the axis's; nothing is cut that fits, and what is cut keeps its
      sign and ends on the cap. `aw` and `aww` name the products. */
  lemma DeratingFits(sg: Segment, a: Axis, amp: real, w: real, ww: real, aw: real, aww: real)
    requires a.enabled && a.halfStroke >= 0.0 && a.maxVel >= 0.0 && a.maxAccel >= 0.0 && w == AngularFreq(sg) && ww == w * w
    requires aw == Abs(DeratedAmp(sg, a, amp)) * w && aww == Abs(DeratedAmp(sg, a, amp)) * ww
    ensures var d := DeratedAmp(sg, a, amp);
      && Abs(d) <= 0.9 * a.halfStroke && Abs(d) <= Abs(amp)
      && (!sg.hold ==> aw <= 0.8 * a.maxVel && aww <= 0.8 * a.maxAccel)
      && (d != amp ==> Abs(d) == Cap(sg, a) < Abs(amp) && (amp < 0.0 ==> d <= 0.0) && (amp > 0.0 ==> d >= 0.0))
      && (Abs(amp) <= Cap(sg, a) ==> d == amp)
  {
    hide Cap, AngularFreq, VelCap, AccelCap;
    CapBudgets(sg, a, w, ww);
    var d := Name(DeratedAmp(sg, a, amp));
    if !sg.hold {
      VelBudget(a, w, Abs(d), aw);
      AccelBudget(a, ww, Abs(d), aww);
    }
  }

  // ----- outputs stay within bounds -----

  function Limit(a: Axis): real { Max(Abs(a.startOffset), 0.9 * a.halfStroke) }

  predicate Bounded(vals: seq<real>, axes: seq<Axis>) {
    |vals| == |axes| && forall i :: 0 <= i < |axes| ==> if axes[i].enabled then Abs(vals[i]) <= Limit(axes[i]) else vals[i] == 0.0
  }

  lemma ScaledDown(v: real, k: real, limit: real)
    requires Abs(v) <= limit && -1.0 <= k <= 1.0
    ensures Abs(Times(v, k)) <= limit
  {
    var vk := Name(v * k);
    MulAbs(v, k, vk);
    var p := Name(Abs(v) * Abs(k));
    MulMono(Abs(v), Abs(k), 1.0, p, Abs(v));
  }

  lemma ScaledIsBounded(axes: seq<Axis>, vals: seq<real>, k: real)
    requires |vals| == |axes| && -1.0 <= k <= 1.0
    requires forall i :: 0 <= i < |axes| && axes[i].enabled ==> Abs(vals[i]) <= Limit(axes[i])
    ensures Bounded(Scaled(axes, vals, k), axes)
  {
    hide Times, Limit;
    forall i | 0 <= i < |axes| && axes[i].enabled ensures Abs(Scaled(axes, vals, k)[i]) <= Limit(axes[i]) {
      ScaledDown(vals[i], k, Limit(axes[i]));
    }
  }

  lemma PlanIsBounded(s: Setup, asked: seq<Segment>, dt: real, j: nat)
    requires Planned(s, asked, dt) && j < |s.segs|
    ensures |s.segs[j].amp| == |s.axes| && Bounded(s.segs[j].amp, s.axes)
  {
    assert IsDerated(asked[j], s.axes, s.segs[j]);
    hide Cap;
    forall i | 0 <= i < |s.axes| && s.axes[i].enabled ensures Abs(s.segs[j].amp[i]) <= Limit(s.axes[i]) {
      CapBudgets(asked[j], s.axes[i], AngularFreq(asked[j]), AngularFreq(asked[j]) * AngularFreq(asked[j]));
    }
  }

  /** What is remembered is bounded. */
  predicate Calm(e: Engine, axes: seq<Axis>) { Bounded(e.lastOut, axes) && Bounded(e.returnFrom, axes) }

  lemma StepIsBounded(e: Engine, s: Setup, asked: seq<Segment>, dt: real, w: Wave)
    requires Shaped(s) && Fits(e, s) && Planned(s, asked, dt) && Plausible(w) && Calm(e, s.axes)
    ensures Calm(StepOf(e, s, w).0, s.axes) && Bounded(StepOf(e, s, w).1, s.axes)
  {
    MulNonNegativeLimits(s.axes);
    assert Bounded(Zeros(|s.axes|), s.axes);
    match e.phase
    case Centering => ScaledIsBounded(s.axes, Offsets(s.axes), w.k);
    case Returning => ScaledIsBounded(s.axes, e.returnFrom, w.k);
    case Running =>
      if e.segIdx < |s.segs| {
        PlanIsBounded(s, asked, dt, e.segIdx);
        ScaledDown(w.env, w.sin, 1.0);
        ScaledIsBounded(s.axes, s.segs[e.segIdx].amp, if s.segs[e.segIdx].hold then 1.0 else Times(w.env, w.sin));
      }
      hide Planned, Scaled, Bounded, ReturnTime, Times;
    case _ =>
  }

  lemma MulNonNegativeLimits(axes: seq<Axis>)
    ensures forall i :: 0 <= i < |axes| ==> Limit(axes[i]) >= 0.0
  {}

  lemma {:induction false} RunIsCalm(es: seq<Engine>, s: Setup, evs: seq<Event>, returnT: real, asked: seq<Segment>, dt: real, k: nat)
    requires Run(es, s, evs, returnT) && Planned(s, asked, dt) && k < |es|
    ensures Calm(es[k], s.axes)
  {
    if k == 0 {
      MulNonNegativeLimits(s.axes);
    } else {
      RunIsCalm(es, s, evs, returnT, asked, dt, k - 1);
      assert es[k - 1 + 1] == After(es[k - 1], s, evs[k - 1]);
      hide Planned, Bounded, StepOf, ReturnTime;
      if evs[k - 1].Cycle? {
        StepIsBounded(es[k - 1], s, asked, dt, evs[k - 1].w);
      }
    }
  }

  /** On every run every output of an axis stays within its start offset or nine tenths of its
      half stroke, whichever is more, and an axis that takes no part stays at zero. */
  lemma OutputsStayWithinLimits(es: seq<Engine>, s: Setup, evs: seq<Event>, returnT: real, asked: seq<Segment>, dt: real, k: nat)
    requires Run(es, s, evs, returnT) && Planned(s, asked, dt) && k < |evs| && evs[k].Cycle?
    ensures Bounded(StepOf(es[k], s, evs[k].w).1, s.axes)
  {
    RunIsCalm(es, s, evs, returnT, asked, dt, k);
    hide Planned, Bounded;
    StepIsBounded(es[k], s, asked, dt, evs[k].w);
  }

  // ----- the phase only moves forward -----

  function Rank(p: Phase): nat {
    match p case Idle => 0 case Centering => 1 case Running => 2 case Returning => 3 case Done => 4
  }

  lemma PhaseMovesForward(e: Engine, s: Setup, ev: Event)
    requires Shaped(s) && Fits(e, s)
    ensures var n := After(e, s, ev);
      && Rank(n.phase) >= Rank(e.phase)
      && (e.phase == Running && n.phase == Running ==> n.segIdx == e.segIdx || (n.segIdx == e.segIdx + 1 < |s.segs|))
      && (n.phase == Done && ev.Cycle? ==> StepOf(e, s, ev.w).1 == Zeros(|s.axes|))
  {
    hide Scaled, ReturnTime;
  }

  // ----- done in time -----

  function Ceil(x: real): int { -((-x).Floor) }

  /** Steps until a clock at `t` that advances by `dt` a step reaches `end`: at least one. */
  function StepsLeft(end: real, t: real, dt: real): (n: int)
    requires dt > 0.0
    ensures n >= 1
  {
    if Ceil((end - t) / dt) < 1 then 1 else Ceil((end - t) / dt)
  }

  lemma StepsLeftFalls(end: real, t: real, dt: real)
    requires dt > 0.0
    ensures t + dt >= end ==> StepsLeft(end, t, dt) == 1
    ensures t + dt < end ==> StepsLeft(end, t + dt, dt) == StepsLeft(end, t, dt) - 1
  {
    var gap := end - t;
    var q, r := QuotientLess(gap, dt);
    assert gap - dt == end - (t + dt);
  }

  /** A quotient, and the one of a dividend smaller by the divisor. */
  lemma QuotientLess(x: real, d: real) returns (q: real, r: real)
    requires d > 0.0
    ensures q == x / d && r == (x - d) / d && r == q - 1.0 && (q <= 1.0 <==> x <= d)
  {
    q := x / d;
    r := (x - d) / d;
    var qd := Name(q * d);
    assert qd == x;
    var rd := Name(r * d);
    assert rd == x - d;
    assert (q - 1.0 - r) * d == 0.0;
    if q - 1.0 - r > 0.0 {
      MulPositive(q - 1.0 - r, d, 0.0);
    } else if q - 1.0 - r < 0.0 {
      MulPositive(r - q + 1.0, d, 0.0);
    }
    if q > 1.0 {
      MulPositive(q - 1.0, d, qd - d);
    } else {
      MulMono(d, q, 1.0, qd, d);
    }
  }

  lemma StepsLeftMono(a: real, b: real, dt: real)
    requires dt > 0.0 && a <= b
    ensures StepsLeft(a, 0.0, dt) <= StepsLeft(b, 0.0, dt)
  {
    var p := Name(a / dt);
    var q := Name(b / dt);
    assert p * dt == a && q * dt == b;
    if p > q {
      MulPositive(p - q, dt, a - b);
    }
    assert a - 0.0 == a && b - 0.0 == b;
  }

  /** The steps of the segments from `j` on. */
  function SegmentSteps(s: Setup, j: nat): (n: int)
    requires s.dt > 0.0 && j <= |s.segs|
    ensures n >= 0
    decreases |s.segs| - j
  {
    if j == |s.segs| then 0 else StepsLeft(s.segs[j].duration, 0.0, s.dt) + SegmentSteps(s, j + 1)
  }

  /** The longest return. */
  function HomeSteps(s: Setup): (n: int)
    requires s.dt > 0.0
    ensures n >= 1
  {
    StepsLeft(3.0, 0.0, s.dt)
  }

  /** Steps from the entry of segment `j` to Done; a plan without segments takes one to notice. */
  function BodySteps(s: Setup, j: nat): (n: int)
    requires s.dt > 0.0
    ensures n >= 1
  {
    if j >= |s.segs| then 1 + HomeSteps(s) else SegmentSteps(s, j) + HomeSteps(s)
  }

  /** A bound on the steps left to Done when nothing is aborted, computed from the plan. */
  function Left(e: Engine, s: Setup): (n: int)
    requires s.dt > 0.0
    ensures n >= 0 && (n > 0 <==> Moving(e.phase))
  {
    match e.phase
    case Idle => 0
    case Done => 0
    case Centering => StepsLeft(s.centerT, e.t, s.dt) + BodySteps(s, 0)
    case Running =>
      if e.segIdx >= |s.segs| then 1 + HomeSteps(s)
      else StepsLeft(s.segs[e.segIdx].duration, e.t, s.dt) + SegmentSteps(s, e.segIdx + 1) + HomeSteps(s)
    case Returning => StepsLeft(e.returnT, e.t, s.dt)
  }

  lemma ReturnIsShort(s: Setup, from: seq<real>)
    requires s.dt > 0.0
    ensures StepsLeft(ReturnTime(from), 0.0, s.dt) <= HomeSteps(s) && StepsLeft(0.3, 0.0, s.dt) <= HomeSteps(s)
  {
    StepsLeftMono(ReturnTime(from), 3.0, s.dt);
    StepsLeftMono(0.3, 3.0, s.dt);
  }

  /** Each step of a moving engine brings Done at least one step closer; an abort leaves the
      longest return at most. */
  lemma LeftFalls(e: Engine, s: Setup, ev: Event)
    requires Shaped(s) && Fits(e, s)
    ensures var n := After(e, s, ev);
      && (ev.Cycle? ==> if Moving(e.phase) then Left(n, s) <= Left(e, s) - 1 else Left(n, s) == 0)
      && (ev.Abort? ==> if e.phase == Centering || e.phase == Running then Left(n, s) <= HomeSteps(s) else n == e)
      && (ev.Cancel? ==> Left(n, s) == 0)
  {
    ReturnIsShort(s, e.lastOut);
    match e.phase
    case Centering => StepsLeftFalls(s.centerT, e.t, s.dt);
    case Running =>
      if e.segIdx < |s.segs| {
        StepsLeftFalls(s.segs[e.segIdx].duration, e.t, s.dt);
      }
    case Returning => StepsLeftFalls(e.returnT, e.t, s.dt);
    case _ =>
    hide StepsLeft, ReturnTime, Scaled;
  }

  function Cycles(evs: seq<Event>, from: nat, k: nat): nat
    requires from <= k <= |evs|
  {
    if k == from then 0 else Cycles(evs, from, k - 1) + (if evs[k - 1].Cycle? then 1 else 0)
  }

  /** What is left, and the longest return while an abort could still ask for it. */
  function Potential(e: Engine, s: Setup): int
    requires s.dt > 0.0
  {
    Left(e, s) + (if e.phase == Centering || e.phase == Running then HomeSteps(s) else 0)
  }

  lemma PotentialFalls(e: Engine, s: Setup, ev: Event)
    requires Shaped(s) && Fits(e, s)
    ensures var n := After(e, s, ev);
      && Potential(n, s) >= 0 && Potential(n, s) <= Potential(e, s)
      && (ev.Cycle? && Potential(e, s) > 0 ==> Potential(n, s) <= Potential(e, s) - 1)
  {
    LeftFalls(e, s, ev);
    PhaseMovesForward(e, s, ev);
    hide Left, StepOf, ReturnTime;
  }

  lemma {:induction false} PotentialOverRun(es: seq<Engine>, s: Setup, evs: seq<Event>, returnT: real, from: nat, k: nat)
    requires Run(es, s, evs, returnT) && from <= k <= |evs|
    ensures 0 <= Potential(es[k], s) && (Potential(es[k], s) == 0 || Potential(es[k], s) <= Potential(es[from], s) - Cycles(evs, from, k))
    decreases k
  {
    if from < k {
      PotentialOverRun(es, s, evs, returnT, from, k - 1);
      PotentialFalls(es[k - 1], s, evs[k - 1]);
      assert es[k - 1 + 1] == After(es[k - 1], s, evs[k - 1]);
      hide Potential, StepOf, AbortOf, CancelOf;
    }
  }

  lemma {:induction false} NeverIdleAgain(es: seq<Engine>, s: Setup, evs: seq<Event>, returnT: real, k: nat)
    requires Run(es, s, evs, returnT) && k < |es|
    ensures es[k].phase != Idle
  {
    if k > 0 {
      NeverIdleAgain(es, s, evs, returnT, k - 1);
      assert es[k - 1 + 1] == After(es[k - 1], s, evs[k - 1]);
      PhaseMovesForward(es[k - 1], s, evs[k - 1]);
    }
  }

  /** However it is aborted: the engine is done within the steps of the plan and one longest
      return. */
  lemma DoneInTime(es: seq<Engine>, s: Setup, evs: seq<Event>, returnT: real, k: nat)
    requires Run(es, s, evs, returnT) && k <= |evs|
    requires Cycles(evs, 0, k) >= StepsLeft(s.centerT, 0.0, s.dt) + BodySteps(s, 0) + HomeSteps(s)
    ensures es[k].phase == Done
  {
    hide StepsLeft, BodySteps;
    NeverIdleAgain(es, s, evs, returnT, k);
    PotentialOverRun(es, s, evs, returnT, 0, k);
    hide Run;
  }

  /** An abort that finds the engine centering or running is over within one longest return:
      three seconds' worth of steps. */
  lemma DoneAfterAbort(es: seq<Engine>, s: Setup, evs: seq<Event>, returnT: real, j: nat, k: nat)
    requires Run(es, s, evs, returnT) && j < k <= |evs| && evs[j].Abort?
    requires es[j].phase == Centering || es[j].phase == Running
    requires Cycles(evs, j + 1, k) >= HomeSteps(s)
    ensures es[k].phase == Done
  {
    hide StepsLeft, BodySteps;
    NeverIdleAgain(es, s, evs, returnT, k);
    assert es[j + 1] == After(es[j], s, evs[j]);
    LeftFalls(es[j], s, evs[j]);
    AbortIsReturning(es[j], s);
    PotentialOverRun(es, s, evs, returnT, j + 1, k);
    hide Run, AbortOf;
  }

  lemma AbortIsReturning(e: Engine, s: Setup)
    requires s.dt > 0.0
    ensures AbortOf(e).phase != Centering && AbortOf(e).phase != Running
  {}

  /** Without an abort the plan alone bounds the run. */
  lemma {:induction false} DoneByThePlan(es: seq<Engine>, s: Setup, evs: seq<Event>, returnT: real, k: nat)
    requires Run(es, s, evs, returnT) && k <= |evs| && forall m :: 0 <= m < k ==> evs[m].Cycle?
    ensures Left(es[k], s) == 0 || Left(es[k], s) <= StepsLeft(s.centerT, 0.0, s.dt) + BodySteps(s, 0) - k
  {
    if k > 0 {
      DoneByThePlan(es, s, evs, returnT, k - 1);
      assert es[k - 1 + 1] == After(es[k - 1], s, evs[k - 1]);
      LeftFalls(es[k - 1], s, evs[k - 1]);
      hide Left, StepOf;
    }
  }

  // ----- where the return starts -----

  /** A completed plan goes home from the outputs of the cycle before the last, not of the
      last. */
  lemma ReturnsFromTheCycleBefore(e: Engine, s: Setup, w: Wave)
    requires Shaped(s) && Fits(e, s) && e.phase == Running && e.segIdx + 1 == |s.segs|
    requires e.t + s.dt >= s.segs[e.segIdx].duration
    ensures StepOf(e, s, w).0.phase == Returning && StepOf(e, s, w).0.returnFrom == e.lastOut
  {
    hide Scaled, ReturnTime;
  }

  /** In the middle of a segment at least one cycle has passed and the end has not come; and
      what a held one last put out is its amplitude. */
  predicate Held(e: Engine, s: Setup)
    requires Shaped(s) && Fits(e, s)
  {
    e.phase == Running && e.segIdx < |s.segs| && e.t != 0.0 ==>
      var sg := s.segs[e.segIdx];
      s.dt <= e.t < sg.duration && (sg.hold ==> e.lastOut == Scaled(s.axes, sg.amp, 1.0))
  }

  lemma StepKeepsHeld(e: Engine, s: Setup, ev: Event)
    requires Shaped(s) && Fits(e, s) && Held(e, s) && (e.phase == Running ==> e.t >= 0.0)
    ensures var n := After(e, s, ev); Fits(n, s) && Held(n, s) && (n.phase == Running ==> n.t >= 0.0)
  {
    hide Scaled, ReturnTime;
  }

  lemma {:induction false} RunIsHeld(es: seq<Engine>, s: Setup, evs: seq<Event>, returnT: real, k: nat)
    requires Run(es, s, evs, returnT) && k < |es|
    ensures Held(es[k], s) && (es[k].phase == Running ==> es[k].t >= 0.0)
  {
    if k > 0 {
      RunIsHeld(es, s, evs, returnT, k - 1);
      assert es[k - 1 + 1] == After(es[k - 1], s, evs[k - 1]);
      StepKeepsHeld(es[k - 1], s, evs[k - 1]);
      hide Held, StepOf, AbortOf, CancelOf;
    }
  }

  /** Cycle `k` of a run completes the plan. */
  predicate Completes(es: seq<Engine>, s: Setup, evs: seq<Event>, returnT: real, k: nat) {
    && Run(es, s, evs, returnT) && k < |evs| && evs[k].Cycle?
    && es[k].phase == Running && es[k].segIdx + 1 == |s.segs| && es[k].t + s.dt >= s.segs[es[k].segIdx].duration
  }

  /** Where the outputs go home from, against where they are: the return starts somewhere else
      exactly when the last two cycles of the plan put out different values. For a held last
      segment that takes a hold of a single cycle, no longer than `dt`; for a sine whose
      envelope has closed, a cycle before that was not yet at zero. */
  lemma ReturnJumps(es: seq<Engine>, s: Setup, evs: seq<Event>, returnT: real, k: nat)
    requires Completes(es, s, evs, returnT, k)
    ensures var e, sg := es[k], s.segs[es[k].segIdx];
      var jumps := es[k + 1].returnFrom != StepOf(e, s, evs[k].w).1;
      && (jumps <==> e.lastOut != Excitation(sg, s.axes, evs[k].w))
      && (sg.hold ==> (jumps <==> sg.duration <= s.dt && e.lastOut != Scaled(s.axes, sg.amp, 1.0)))
      && (!sg.hold && evs[k].w.env == 0.0 ==> (jumps <==> e.lastOut != Zeros(|s.axes|)))
  {
    RunIsHeld(es, s, evs, returnT, k);
    ReturnsFromTheCycleBefore(es[k], s, evs[k].w);
    if !s.segs[es[k].segIdx].hold && evs[k].w.env == 0.0 {
      ClosedEnvelope(s.segs[es[k].segIdx], s.axes, evs[k].w);
    }
    hide Scaled, ReturnTime, Times;
  }

  lemma ClosedEnvelope(sg: Segment, axes: seq<Axis>, w: Wave)
    requires |sg.amp| == |axes| && !sg.hold && w.env == 0.0
    ensures Excitation(sg, axes, w) == Zeros(|axes|)
  {}

  // ----- cancelling -----

  /** A cancel is final: from it on, whatever follows, the engine is done and does not change,
      and every cycle puts out zeros. */
  lemma {:induction false} CancelIsFinal(es: seq<Engine>, s: Setup, evs: seq<Event>, returnT: real, j: nat, k: nat)
    requires Run(es, s, evs, returnT) && j < k <= |evs| && evs[j].Cancel?
    ensures es[k].phase == Done && es[k] == es[j + 1] && (if es[j].phase == Done then es[j + 1] == es[j] else es[k].aborted)
    ensures es[k].lastOut == es[j].lastOut
    ensures k < |evs| && evs[k].Cycle? ==> StepOf(es[k], s, evs[k].w).1 == Zeros(|s.axes|)
    decreases k
  {
    assert es[k - 1 + 1] == After(es[k - 1], s, evs[k - 1]);
    if k == j + 1 {
      NeverIdleAgain(es, s, evs, returnT, j);
    } else {
      CancelIsFinal(es, s, evs, returnT, j, k - 1);
    }
  }
}
