/** The commissioning excitation engine: derating, the phase machine, the following-error rail.

    The values of the waves are inputs of a step: the cosine ease `k`, the envelope and the
    sine. Reasons, labels, results and their publication are not part of this model. */
module Commissioning {
  import opened RealArithmetic

  const PI: real := 3.14159265358979323846

  /** `hold`: a step-and-hold segment; otherwise an enveloped sine. */
  datatype Segment = Segment(hold: bool, freqHz: real, duration: real, amp: seq<real>)

  datatype Axis = Axis(enabled: bool, halfStroke: real, maxVel: real, maxAccel: real, startOffset: real)

  datatype Phase = Idle | Centering | Running | Returning | Done

  datatype Setup = Setup(dt: real, axes: seq<Axis>, segs: seq<Segment>, centerT: real)

  datatype Engine = Engine(
    phase: Phase, t: real, segIdx: nat, returnT: real, returnFrom: seq<real>, lastOut: seq<real>, aborted: bool)

  datatype Wave = Wave(k: real, env: real, sin: real)

  function Clamp(v: real, lo: real, hi: real): real { if v < lo then lo else if v > hi then hi else v }

  predicate Shaped(s: Setup) {
    s.dt > 0.0 && forall j :: 0 <= j < |s.segs| ==> |s.segs[j].amp| == |s.axes|
  }

  // ----- derating -----

  function AngularFreq(sg: Segment): real { 2.0 * PI * Max(0.01, sg.freqHz) }

  lemma AngularFreqIsPositive(sg: Segment)
    ensures AngularFreq(sg) > 0.0 && AngularFreq(sg) * AngularFreq(sg) > 0.0
  {
    var m := Name(Max(0.01, sg.freqHz));
    MulPositive(2.0 * PI, m, AngularFreq(sg));
    hide AngularFreq;
    MulPositive(AngularFreq(sg), AngularFreq(sg), AngularFreq(sg) * AngularFreq(sg));
  }

  /** The amplitudes at which the peak velocity A*w and acceleration A*w*w reach four fifths of
      the axis's. */
  function VelCap(a: Axis, w: real): real
    requires w > 0.0
  {
    0.8 * a.maxVel / w
  }

  function AccelCap(a: Axis, ww: real): real
    requires ww > 0.0
  {
    0.8 * a.maxAccel / ww
  }

  /** The largest amplitude the budgets of an axis allow. */
  function Cap(sg: Segment, a: Axis): real {
    AngularFreqIsPositive(sg);
    var w := AngularFreq(sg);
    var stroke := 0.9 * a.halfStroke;
    if sg.hold then stroke else Min(Min(stroke, VelCap(a, w)), AccelCap(a, w * w))
  }

  function Derated(amp: real, cap: real): real {
    if Abs(amp) > cap then (if amp < 0.0 then -cap else cap) else amp
  }

  function DeratedAmp(sg: Segment, a: Axis, amp: real): real {
    if !a.enabled then 0.0 else Derated(amp, Cap(sg, a))
  }

  predicate IsDerated(sg: Segment, axes: seq<Axis>, d: Segment)
    requires |sg.amp| == |axes|
  {
    && d == sg.(amp := d.amp) && |d.amp| == |axes|
    && forall i :: 0 <= i < |axes| ==> d.amp[i] == DeratedAmp(sg, axes[i], sg.amp[i])
  }

  method DerateSegment(sg: Segment, axes: seq<Axis>) returns (d: Segment)
    requires |sg.amp| == |axes|
    ensures IsDerated(sg, axes, d)
  {
    hide AngularFreq;
    d := sg;
    var i := 0;
    while i < |axes|
      invariant 0 <= i <= |axes| && d == sg.(amp := d.amp) && |d.amp| == |axes|
      invariant forall j :: 0 <= j < i ==> d.amp[j] == DeratedAmp(sg, axes[j], sg.amp[j])
      invariant forall j :: i <= j < |axes| ==> d.amp[j] == sg.amp[j]
    {
      if !axes[i].enabled {
        d := d.(amp := d.amp[i := 0.0]);
      } else {
        var cap := Cap(sg, axes[i]);
        if Abs(d.amp[i]) > cap {
          d := d.(amp := d.amp[i := if d.amp[i] < 0.0 then -cap else cap]);
        }
      }
      i := i + 1;
    }
  }

  // ----- outputs -----

  /** Enabled axes at `vals` scaled by `k`, the others at zero. */
  function Scaled(axes: seq<Axis>, vals: seq<real>, k: real): (out: seq<real>)
    requires |vals| == |axes|
    ensures |out| == |axes|
  {
    seq(|axes|, i requires 0 <= i < |axes| => if axes[i].enabled then Times(vals[i], k) else 0.0)
  }

  function Offsets(axes: seq<Axis>): (o: seq<real>)
    ensures |o| == |axes|
  {
    seq(|axes|, i requires 0 <= i < |axes| => axes[i].startOffset)
  }

  function Zeros(n: nat): (z: seq<real>)
    ensures |z| == n && forall i :: 0 <= i < n ==> z[i] == 0.0
  {
    seq(n, _ => 0.0)
  }

  function MaxAbs(vals: seq<real>, n: nat): (m: real)
    requires n <= |vals|
    ensures m >= 0.0
  {
    if n == 0 then 0.0 else Max(MaxAbs(vals, n - 1), Abs(vals[n - 1]))
  }

  function ReturnTime(from: seq<real>): real { Clamp(MaxAbs(from, |from|) / 20.0, 0.3, 3.0) }

  // ----- the phase machine -----

  predicate Fits(e: Engine, s: Setup) {
    |e.returnFrom| == |s.axes| && |e.lastOut| == |s.axes|
  }

  predicate Moving(p: Phase) { p == Centering || p == Running || p == Returning }

  function EnterSegment(e: Engine, j: nat): Engine { e.(segIdx := j, t := 0.0, phase := Running) }

  /** Home from the outputs last emitted. */
  function GoHome(e: Engine): Engine {
    e.(returnFrom := e.lastOut, returnT := ReturnTime(e.lastOut), t := 0.0, phase := Returning)
  }

  function AbortOf(e: Engine): Engine {
    if e.phase == Centering || e.phase == Running then GoHome(e).(aborted := true) else e
  }

  function CancelOf(e: Engine): Engine {
    if e.phase == Idle || e.phase == Done then e else e.(aborted := true, phase := Done)
  }

  /** What a running segment puts out. */
  function Excitation(sg: Segment, axes: seq<Axis>, w: Wave): seq<real>
    requires |sg.amp| == |axes|
  {
    Scaled(axes, sg.amp, if sg.hold then 1.0 else Times(w.env, w.sin))
  }

  /** The engine after a step, before the outputs are kept, and the outputs. */
  function Advance(e: Engine, s: Setup, w: Wave): (Engine, seq<real>)
    requires Shaped(s) && Fits(e, s)
  {
    var t := e.t + s.dt;
    match e.phase
    case Idle => (e, Zeros(|s.axes|))
    case Done => (e, Zeros(|s.axes|))
    case Centering =>
      (if t >= s.centerT then EnterSegment(e, 0) else e.(t := t), Scaled(s.axes, Offsets(s.axes), w.k))
    case Running =>
      if e.segIdx >= |s.segs| then
        (e.(returnFrom := e.lastOut, returnT := 0.3, t := 0.0, phase := Returning), Zeros(|s.axes|))
      else
        (if t < s.segs[e.segIdx].duration then e.(t := t)
         else if e.segIdx + 1 < |s.segs| then EnterSegment(e, e.segIdx + 1)
         else GoHome(e),
         Excitation(s.segs[e.segIdx], s.axes, w))
    case Returning =>
      if t >= e.returnT then (e.(t := t, phase := Done), Zeros(|s.axes|))
      else (e.(t := t), Scaled(s.axes, e.returnFrom, w.k))
  }

  function StepOf(e: Engine, s: Setup, w: Wave): (Engine, seq<real>)
    requires Shaped(s) && Fits(e, s)
  {
    var (n, out) := Advance(e, s, w);
    (if Moving(e.phase) then n.(lastOut := out) else n, out)
  }

  /** After start: the segments derated, everything else from rest. */
  function Started(axes: seq<Axis>, returnT: real): Engine {
    Engine(Centering, 0.0, 0, returnT, Zeros(|axes|), Zeros(|axes|), false)
  }

  predicate IsStart(axes: seq<Axis>, segs: seq<Segment>, dt: real, s: Setup)
    requires forall j :: 0 <= j < |segs| ==> |segs[j].amp| == |axes|
  {
    && s.dt == (if dt > 0.0 then dt else 0.002) && s.axes == axes && |s.segs| == |segs|
    && (forall j :: 0 <= j < |segs| ==> IsDerated(segs[j], axes, s.segs[j]))
    && s.centerT == Clamp(MaxStart(axes, |axes|) / 25.0, 1.0, 8.0)
  }

  function MaxStart(axes: seq<Axis>, n: nat): (m: real)
    requires n <= |axes|
    ensures m >= 0.0
  {
    if n == 0 then 0.0
    else if axes[n - 1].enabled then Max(MaxStart(axes, n - 1), Abs(axes[n - 1].startOffset))
    else MaxStart(axes, n - 1)
  }

  class CommissioningMode {
    var setup: Setup
    var phase: Phase
    var t: real
    var segIdx: nat
    var returnT: real
    var returnFrom: seq<real>
    var lastOut: seq<real>
    var aborted: bool

    ghost function Value(): Engine
      reads this
    {
      Engine(phase, t, segIdx, returnT, returnFrom, lastOut, aborted)
    }

    ghost predicate Valid()
      reads this
    {
      Shaped(setup) && Fits(Value(), setup)
    }

    constructor ()
      ensures Valid() && phase == Idle
    {
      setup := Setup(0.002, [], [], 3.0);
      phase, t, segIdx, returnT, returnFrom, lastOut, aborted := Idle, 0.0, 0, 1.0, [], [], false;
    }

    method Start(axes: seq<Axis>, segs: seq<Segment>, dt: real)
      requires forall j :: 0 <= j < |segs| ==> |segs[j].amp| == |axes|
      modifies this
      ensures Valid() && IsStart(axes, segs, dt, setup) && Value() == Started(axes, old(returnT))
    {
      hide IsDerated;
      var derated: seq<Segment> := [];
      var j := 0;
      while j < |segs|
        invariant 0 <= j <= |segs| && |derated| == j && unchanged(this)
        invariant forall k :: 0 <= k < j ==> IsDerated(segs[k], axes, derated[k]) && |derated[k].amp| == |axes|
      {
        var d := DerateSegment(segs[j], axes);
        assert |d.amp| == |axes| by { DeratedShape(segs[j], axes, d); }
        derated := derated + [d];
        j := j + 1;
      }
      var maxDist := FurthestStart(axes);
      setup := Setup(if dt > 0.0 then dt else 0.002, axes, derated, Clamp(maxDist / 25.0, 1.0, 8.0));
      t, segIdx, aborted := 0.0, 0, false;
      lastOut := Zeros(|axes|);
      returnFrom := Zeros(|axes|);
      phase := Centering;
    }

    static lemma DeratedShape(sg: Segment, axes: seq<Axis>, d: Segment)
      requires |sg.amp| == |axes| && IsDerated(sg, axes, d)
      ensures |d.amp| == |axes|
    {}

    static method FurthestStart(axes: seq<Axis>) returns (m: real)
      ensures m == MaxStart(axes, |axes|)
    {
      m := 0.0;
      var i := 0;
      while i < |axes|
        invariant 0 <= i <= |axes| && m == MaxStart(axes, i)
      {
        if axes[i].enabled { m := Max(m, Abs(axes[i].startOffset)); }
        i := i + 1;
      }
    }

    static method Furthest(vals: seq<real>) returns (m: real)
      ensures m == MaxAbs(vals, |vals|)
    {
      m := 0.0;
      var i := 0;
      while i < |vals|
        invariant 0 <= i <= |vals| && m == MaxAbs(vals, i)
      {
        m := Max(m, Abs(vals[i]));
        i := i + 1;
      }
    }

    static method Emit(axes: seq<Axis>, vals: seq<real>, k: real) returns (out: seq<real>)
      requires |vals| == |axes|
      ensures out == Scaled(axes, vals, k)
    {
      hide Times;
      out := Zeros(|axes|);
      var i := 0;
      while i < |axes|
        invariant 0 <= i <= |axes| == |out|
        invariant forall j :: 0 <= j < i ==> out[j] == if axes[j].enabled then Times(vals[j], k) else 0.0
        invariant forall j :: i <= j < |axes| ==> out[j] == 0.0
      {
        if axes[i].enabled { out := out[i := Times(vals[i], k)]; }
        i := i + 1;
      }
    }

    method Return()
      requires Valid()
      modifies this`returnFrom, this`returnT, this`t, this`phase
      ensures Value() == GoHome(old(Value()))
    {
      returnFrom := lastOut;
      var maxAbs := Furthest(returnFrom);
      returnT := Clamp(maxAbs / 20.0, 0.3, 3.0);
      t := 0.0;
      phase := Returning;
    }

    method Abort()
      requires Valid()
      modifies this`returnFrom, this`returnT, this`t, this`phase, this`aborted
      ensures Valid() && Value() == AbortOf(old(Value()))
    {
      if phase != Centering && phase != Running { return; }
      aborted := true;
      Return();
    }

    method Cancel()
      requires Valid()
      modifies this`phase, this`aborted
      ensures Valid() && Value() == CancelOf(old(Value()))
    {
      if phase == Idle || phase == Done { return; }
      aborted := true;
      phase := Done;
    }

    /** One cycle. `w`: the values of the waves at the time it advances to. */
    method Step(w: Wave) returns (out: seq<real>, on: bool)
      requires Valid()
      modifies this`phase, this`t, this`segIdx, this`returnT, this`returnFrom, this`lastOut
      ensures Valid() && (Value(), out) == StepOf(old(Value()), setup, w)
      ensures on <==> Moving(phase)
    {
      hide Scaled, ReturnTime, Times;
      out := Zeros(|setup.axes|);
      match phase {
        case Idle => return out, false;
        case Done => return out, false;
        case Centering =>
          t := t + setup.dt;
          out := Emit(setup.axes, Offsets(setup.axes), w.k);
          if t >= setup.centerT {
            segIdx := 0;
            t := 0.0;
            phase := Running;
          }
        case Running =>
          if segIdx >= |setup.segs| {
            returnFrom := lastOut;
            returnT := 0.3;
            t := 0.0;
            phase := Returning;
          } else {
            t := t + setup.dt;
            var sg := setup.segs[segIdx];
            out := Emit(setup.axes, sg.amp, if sg.hold then 1.0 else Times(w.env, w.sin));
            if t >= sg.duration {
              if segIdx + 1 < |setup.segs| {
                segIdx := segIdx + 1;
                t := 0.0;
                phase := Running;
              } else {
                Return();
              }
            }
          }
        case Returning =>
          t := t + setup.dt;
          out := Emit(setup.axes, returnFrom, w.k);
          if t >= returnT {
            phase := Done;
            out := Zeros(|setup.axes|);
          }
      }
      lastOut := out;
      on := phase == Centering || phase == Running || phase == Returning;
    }
  }
}
