/** How fast the commissioning engine moves the axes: the ease in, the waves, the way home, and
    how long each stage lasts. */
module CommissioningPace {
  import opened RealArithmetic
  import opened Commissioning
  import opened CommissioningRuns

  // ----- the furthest axis sets the time -----

  lemma {:induction false} MaxAbsIsTheFurthest(vals: seq<real>, n: nat)
    requires n <= |vals|
    ensures forall i :: 0 <= i < n ==> Abs(vals[i]) <= MaxAbs(vals, n)
    ensures MaxAbs(vals, n) == 0.0 || exists i :: 0 <= i < n && Abs(vals[i]) == MaxAbs(vals, n)
  {
    if n > 0 {
      MaxAbsIsTheFurthest(vals, n - 1);
    }
  }

  lemma {:induction false} MaxStartIsTheFurthest(axes: seq<Axis>, n: nat)
    requires n <= |axes|
    ensures forall i :: 0 <= i < n && axes[i].enabled ==> Abs(axes[i].startOffset) <= MaxStart(axes, n)
    ensures MaxStart(axes, n) == 0.0 || exists i :: 0 <= i < n && axes[i].enabled && Abs(axes[i].startOffset) == MaxStart(axes, n)
  {
    if n > 0 {
      MaxStartIsTheFurthest(axes, n - 1);
    }
  }

  /** No axis is further from home than 20 units a second allow, except at the longest return;
      and some axis is exactly that far, except at the shortest and the longest. */
  predicate HomeInTime(from: seq<real>, returnT: real) {
    && 0.3 <= returnT <= 3.0
    && (returnT < 3.0 ==> forall i :: 0 <= i < |from| ==> Abs(from[i]) <= 20.0 * returnT)
    && (0.3 < returnT < 3.0 ==> exists i :: 0 <= i < |from| && Abs(from[i]) == 20.0 * returnT)
    && (returnT == 3.0 ==> exists i :: 0 <= i < |from| && Abs(from[i]) >= 60.0)
  }

  lemma ReturnTimeFits(from: seq<real>)
    ensures HomeInTime(from, ReturnTime(from))
  {
    MaxAbsIsTheFurthest(from, |from|);
    hide MaxAbs;
  }

  /** The same of the ease in, at 25 units a second between one and eight seconds. */
  lemma CenteringTimeFits(axes: seq<Axis>, asked: seq<Segment>, dt: real, s: Setup)
    requires forall j :: 0 <= j < |asked| ==> |asked[j].amp| == |axes|
    requires IsStart(axes, asked, dt, s)
    ensures 1.0 <= s.centerT <= 8.0
    ensures s.centerT < 8.0 ==> forall i :: 0 <= i < |axes| && axes[i].enabled ==> Abs(axes[i].startOffset) <= 25.0 * s.centerT
    ensures s.centerT > 1.0 ==> exists i :: 0 <= i < |axes| && axes[i].enabled && Abs(axes[i].startOffset) >= 25.0 * s.centerT
  {
    MaxStartIsTheFurthest(axes, |axes|);
    hide MaxStart, IsDerated;
  }

  // ----- the way home, over every run -----

  /** A return is at the pace of where it starts from; a plan without segments takes the shortest. */
  predicate Paced(e: Engine, s: Setup) {
    && (e.phase == Running && |s.segs| > 0 ==> e.segIdx < |s.segs|)
    && (e.phase == Returning ==> HomeInTime(e.returnFrom, e.returnT) || (|s.segs| == 0 && e.returnT == 0.3))
  }

  lemma StepIsPaced(e: Engine, s: Setup, ev: Event)
    requires Shaped(s) && Fits(e, s) && Paced(e, s)
    ensures Paced(After(e, s, ev), s)
  {
    ReturnTimeFits(e.lastOut);
    hide HomeInTime, ReturnTime, Scaled;
  }

  lemma {:induction false} RunIsPaced(es: seq<Engine>, s: Setup, evs: seq<Event>, returnT: real, k: nat)
    requires Run(es, s, evs, returnT) && k < |es|
    ensures Paced(es[k], s)
  {
    if k > 0 {
      RunIsPaced(es, s, evs, returnT, k - 1);
      assert es[k - 1 + 1] == After(es[k - 1], s, evs[k - 1]);
      StepIsPaced(es[k - 1], s, evs[k - 1]);
      hide Paced, StepOf, AbortOf, CancelOf;
    }
  }

  /** Over every run: an engine on its way home got there by an abort or a completed plan, and
      moves at the pace of the axis that is furthest from home. */
  lemma ReturnsAtItsPace(es: seq<Engine>, s: Setup, evs: seq<Event>, returnT: real, k: nat)
    requires Run(es, s, evs, returnT) && k < |es| && es[k].phase == Returning && |s.segs| > 0
    ensures HomeInTime(es[k].returnFrom, es[k].returnT)
  {
    RunIsPaced(es, s, evs, returnT, k);
    hide HomeInTime;
  }

  /** An abort goes home from where the axes are. */
  lemma AbortStartsWhereItIs(es: seq<Engine>, s: Setup, evs: seq<Event>, returnT: real, k: nat)
    requires Run(es, s, evs, returnT) && k < |evs| && evs[k].Abort? && (es[k].phase == Centering || es[k].phase == Running)
    ensures es[k + 1].phase == Returning && es[k + 1].returnFrom == es[k].lastOut && es[k + 1].t == 0.0 && es[k + 1].aborted
    ensures k > 0 && evs[k - 1].Cycle? ==> es[k + 1].returnFrom == StepOf(es[k - 1], s, evs[k - 1].w).1
    ensures HomeInTime(es[k + 1].returnFrom, es[k + 1].returnT)
  {
    assert es[k + 1] == After(es[k], s, evs[k]);
    if k > 0 {
      assert es[k - 1 + 1] == After(es[k - 1], s, evs[k - 1]);
    }
    ReturnTimeFits(es[k].lastOut);
    hide HomeInTime, ReturnTime, Scaled;
  }

  // ----- what is put out -----

  /** Where a cycle eases the axes from: their start offsets, or where the return began. */
  function EasedFrom(e: Engine, s: Setup): seq<real> { if e.phase == Centering then Offsets(s.axes) else e.returnFrom }

  lemma ScaledShare(v: real, k: real, j: real)
    requires 0.0 <= j <= k <= 1.0
    ensures Abs(Times(v, j)) <= Abs(Times(v, k)) <= Abs(v) && Times(v, 1.0) == v && Times(v, 0.0) == 0.0
    ensures v >= 0.0 ==> 0.0 <= Times(v, j)
    ensures v <= 0.0 ==> Times(v, j) <= 0.0
  {
    MulMono(Abs(v), j, k, Abs(v) * j, Abs(v) * k);
    MulMono(Abs(v), k, 1.0, Abs(v) * k, Abs(v));
    MulNonNegative(Abs(v), j, Abs(v) * j);
    MulAbs(v, j, Times(v, j));
    MulAbs(v, k, Times(v, k));
  }

  /** Easing: an axis is where it started at weight one and home at weight zero, on the side it
      started from, and the nearer to home the less the weight. */
  lemma EasesHome(e: Engine, s: Setup, w: Wave, v: Wave, i: nat)
    requires Shaped(s) && Fits(e, s) && i < |s.axes| && s.axes[i].enabled && 0.0 <= v.k <= w.k <= 1.0
    requires e.phase == Centering || (e.phase == Returning && e.t + s.dt < e.returnT)
    ensures var from := EasedFrom(e, s)[i]; var at := StepOf(e, s, w).1[i]; var then' := StepOf(e, s, v).1[i];
      && Abs(then') <= Abs(at) <= Abs(from) && (from >= 0.0 ==> then' >= 0.0) && (from <= 0.0 ==> then' <= 0.0)
      && (w.k == 1.0 ==> at == from) && (v.k == 0.0 ==> then' == 0.0)
      && (e.phase == Centering ==> from == s.axes[i].startOffset)
  {
    ScaledShare(EasedFrom(e, s)[i], w.k, v.k);
    hide Times;
  }

  /** A sine segment puts out its derated amplitude at the crest of a full envelope, its negative
      at the trough, nothing at a node or with the envelope closed; an axis that takes no part
      nothing at all. */
  lemma WaveReachesItsAmplitude(e: Engine, s: Setup, w: Wave, i: nat)
    requires Shaped(s) && Fits(e, s) && e.phase == Running && e.segIdx < |s.segs| && !s.segs[e.segIdx].hold && i < |s.axes|
    ensures var out := StepOf(e, s, w).1[i]; var amp := s.segs[e.segIdx].amp[i];
      && (!s.axes[i].enabled ==> out == 0.0)
      && (s.axes[i].enabled && w.env == 1.0 ==> out == Times(amp, w.sin))
      && (s.axes[i].enabled && w.sin == 1.0 ==> out == Times(amp, w.env))
      && (s.axes[i].enabled && w.env == 1.0 && w.sin == 1.0 ==> out == amp)
      && (s.axes[i].enabled && w.env == 1.0 && w.sin == -1.0 ==> out == -amp)
      && (w.env == 0.0 || w.sin == 0.0 ==> out == 0.0)
  {
    Units(w.env, w.sin);
    Units(s.segs[e.segIdx].amp[i], w.sin);
    Units(s.segs[e.segIdx].amp[i], w.env);
    hide Times;
  }

  lemma Units(a: real, b: real)
    ensures Times(1.0, b) == b && Times(a, 1.0) == a && Times(0.0, b) == 0.0 && Times(a, 0.0) == 0.0 && Times(a, -1.0) == -a
  {}

  // ----- derating is no tighter than it says -----

  /** One turn of the wave is 2*pi; frequencies below a hundredth count as that. */
  lemma AngularFreqIsTurns(sg: Segment, period: real)
    requires sg.freqHz >= 0.01 && period * sg.freqHz == 1.0
    ensures AngularFreq(sg) * period == 2.0 * PI && 3.14159265 < PI < 3.14159266
  {
    assert AngularFreq(sg) == 2.0 * PI * sg.freqHz;
  }

  /** What is cut ends exactly on one of the three budgets. `aw`, `aww`: A*w and A*w*w. */
  lemma CutIsTight(sg: Segment, a: Axis, amp: real, w: real, ww: real, aw: real, aww: real)
    requires a.enabled && a.halfStroke >= 0.0 && a.maxVel >= 0.0 && a.maxAccel >= 0.0 && w == AngularFreq(sg) && ww == w * w
    requires aw == Abs(DeratedAmp(sg, a, amp)) * w && aww == Abs(DeratedAmp(sg, a, amp)) * ww
    requires DeratedAmp(sg, a, amp) != amp
    ensures Abs(DeratedAmp(sg, a, amp)) == 0.9 * a.halfStroke || (!sg.hold && (aw == 0.8 * a.maxVel || aww == 0.8 * a.maxAccel))
  {
    CapBudgets(sg, a, w, ww);
    QuotientBack(0.8 * a.maxVel, w, VelCap(a, w));
    QuotientBack(0.8 * a.maxAccel, ww, AccelCap(a, ww));
    hide AngularFreq, VelCap, AccelCap;
    assert Abs(DeratedAmp(sg, a, amp)) == Cap(sg, a);
  }

  lemma QuotientBack(x: real, y: real, q: real)
    requires y > 0.0 && q == x / y
    ensures q * y == x
  {}

  // ----- what a start takes over -----

  /** A start changes nothing of the plan but its amplitudes, takes the cycle it is given, or 2 ms
      for one that is not positive, and begins easing in, unaborted and from zero outputs. */
  lemma StartKeepsThePlan(axes: seq<Axis>, asked: seq<Segment>, dt: real, returnT: real, s: Setup, j: nat)
    requires forall j :: 0 <= j < |asked| ==> |asked[j].amp| == |axes|
    requires IsStart(axes, asked, dt, s) && j < |asked|
    ensures |s.segs| == |asked| && s.segs[j].hold == asked[j].hold && s.segs[j].freqHz == asked[j].freqHz
         && s.segs[j].duration == asked[j].duration && |s.segs[j].amp| == |axes|
    ensures s.axes == axes && (dt > 0.0 ==> s.dt == dt) && (dt <= 0.0 ==> s.dt == 0.002)
    ensures var e := Started(axes, returnT); e.phase == Centering && e.t == 0.0 && !e.aborted && e.lastOut == Zeros(|axes|)
  {
    assert IsDerated(asked[j], axes, s.segs[j]);
    hide DeratedAmp, MaxStart;
  }

  /** A plan without segments is gone home from at once, in the shortest time. */
  lemma EmptyPlanGoesHome(e: Engine, s: Setup, w: Wave)
    requires Shaped(s) && Fits(e, s) && e.phase == Running && |s.segs| == 0
    ensures var (n, out) := StepOf(e, s, w);
      n.phase == Returning && n.returnFrom == e.lastOut && n.returnT == 0.3 && n.t == 0.0 && out == Zeros(|s.axes|)
  {}

  /** The stages follow each other: the ease in, every segment in turn, the way home, done. */
  lemma StagesInOrder(e: Engine, s: Setup, w: Wave)
    requires Shaped(s) && Fits(e, s) && InStage(e, s) && !SameStage(e, StepOf(e, s, w).0)
    ensures var n := StepOf(e, s, w).0;
      match e.phase
      case Centering => n.phase == Running && n.segIdx == 0
      case Running => if e.segIdx == |s.segs| - 1 then n.phase == Returning else n.phase == Running && n.segIdx == e.segIdx + 1
      case _ => n.phase == Done
  {
    hide Scaled, ReturnTime;
  }

  // ----- how long a stage lasts -----

  /** The clock's end of the stage the engine is in. */
  function StageEnd(e: Engine, s: Setup): real {
    match e.phase
    case Centering => s.centerT
    case Running => if e.segIdx < |s.segs| then s.segs[e.segIdx].duration else 0.0
    case Returning => e.returnT
    case _ => 0.0
  }

  predicate InStage(e: Engine, s: Setup) {
    e.phase == Centering || (e.phase == Running && e.segIdx < |s.segs|) || e.phase == Returning
  }

  predicate SameStage(e: Engine, n: Engine) { n.phase == e.phase && (e.phase == Running ==> n.segIdx == e.segIdx) }

  lemma StageStep(e: Engine, s: Setup, w: Wave)
    requires Shaped(s) && Fits(e, s) && InStage(e, s)
    ensures var n := StepOf(e, s, w).0; var left := StepsLeft(StageEnd(e, s), e.t, s.dt);
      if left > 1 then SameStage(e, n) && StageEnd(n, s) == StageEnd(e, s) && StepsLeft(StageEnd(n, s), n.t, s.dt) == left - 1
      else !SameStage(e, n) && (e.phase != Returning ==> n.t == 0.0)
  {
    StageClock(e, s, w);
    hide StepsLeft, StepOf, StageEnd;
    StepsLeftFalls(StageEnd(e, s), e.t, s.dt);
    if e.t + s.dt < StageEnd(e, s) {
      LastStep(StageEnd(e, s), e.t, s.dt);
    }
  }

  lemma StageClock(e: Engine, s: Setup, w: Wave)
    requires Shaped(s) && Fits(e, s) && InStage(e, s)
    ensures var n := StepOf(e, s, w).0;
      if e.t + s.dt < StageEnd(e, s) then SameStage(e, n) && StageEnd(n, s) == StageEnd(e, s) && n.t == e.t + s.dt
      else !SameStage(e, n) && (e.phase != Returning ==> n.t == 0.0)
  {
    hide Scaled, ReturnTime;
  }

  lemma LastStep(end: real, t: real, dt: real)
    requires dt > 0.0 && t + dt < end
    ensures StepsLeft(end, t, dt) > 1
  {
    var q, r := QuotientLess(end - t, dt);
  }

  /** Undisturbed, a stage lasts exactly as many cycles as its time takes, at least one: neither a
      cycle less nor one more. */
  lemma {:induction false} StageLasts(es: seq<Engine>, s: Setup, evs: seq<Event>, returnT: real, j: nat, k: nat)
    requires Run(es, s, evs, returnT) && j <= k <= |evs| && InStage(es[j], s) && es[j].t == 0.0
    requires forall m :: j <= m < k ==> evs[m].Cycle?
    requires k - j <= StepsLeft(StageEnd(es[j], s), 0.0, s.dt)
    ensures var left := StepsLeft(StageEnd(es[j], s), 0.0, s.dt) - (k - j);
      if left > 0 then SameStage(es[j], es[k]) && StageEnd(es[k], s) == StageEnd(es[j], s) && StepsLeft(StageEnd(es[k], s), es[k].t, s.dt) == left
      else !SameStage(es[j], es[k])
    decreases k
  {
    hide StepOf, StepsLeft, AbortOf, CancelOf, StageEnd;
    if j < k {
      StageLasts(es, s, evs, returnT, j, k - 1);
      assert es[k - 1 + 1] == After(es[k - 1], s, evs[k - 1]);
      StageStep(es[k - 1], s, evs[k - 1].w);
    }
  }
}
