/** The position target of a drive: the home frame, the clamp to the limits, the rate limiter,
    and the conversion to encoder counts. */
module DriveTarget {
  import opened RealArithmetic
  import opened A6Drive

  datatype Option<T> = None | Some(value: T)

  /** The home frame, the limits and the rate limit of an axis; `pp`: profile-position mode. */
  datatype Axis = Axis(homeOffset: real, frameSign: real, minPos: real, maxPos: real, maxDelta: real,
                       countsPerMm: real, pp: bool)

  predicate Sane(a: Axis) {
    && (a.frameSign == 1.0 || a.frameSign == -1.0) && a.minPos <= a.maxPos && a.maxDelta >= 0.0 && a.countsPerMm > 0.0
  }

  function Absolute(a: Axis, eng: real): real { a.homeOffset + a.frameSign * eng }

  function Clamped(a: Axis, x: real): real { Max(a.minPos, Min(a.maxPos, x)) }

  /** A jump of more than two limits is cut to two. */
  function Limited(a: Axis, last: Option<real>, x: real): real {
    if last.None? || Abs(x - last.value) <= 2.0 * a.maxDelta then x
    else if x > last.value then last.value + 2.0 * a.maxDelta
    else last.value - 2.0 * a.maxDelta
  }

  /** What a requested position becomes. */
  function Commanded(a: Axis, last: Option<real>, eng: real): real { Limited(a, last, Clamped(a, Absolute(a, eng))) }

  /** Conversion to an integer truncates toward zero. */
  function Truncate(x: real): int { if x >= 0.0 then x.Floor else -((-x).Floor) }

  function UnitsToCount(a: Axis, units: real): int { Truncate(units * a.countsPerMm) }

  function CountsToUnits(a: Axis, counts: int): real {
    if a.countsPerMm == 0.0 then 0.0 else counts as real / a.countsPerMm
  }

  function Engineering(a: Axis, raw: real): real { a.frameSign * (raw - a.homeOffset) }

  class PositionTarget {
    const axis: Axis
    var last: Option<real>
    var newSetpoint: bool
    /** The target and the controlword in the process image. */
    var target: int
    var controlword: bv16

    constructor (axis: Axis, controlword: bv16)
      ensures this.axis == axis && last == None && !newSetpoint && target == 0 && this.controlword == controlword
    {
      this.axis, this.controlword, last, newSetpoint, target := axis, controlword, None, false, 0;
    }

    method SetTargetPosition(eng: real)
      modifies this
      ensures last == Some(Commanded(axis, old(last), eng)) && target == UnitsToCount(axis, last.value)
      ensures newSetpoint == (old(newSetpoint) != axis.pp)
      ensures controlword == if axis.pp then Handshake(old(controlword), newSetpoint) else old(controlword)
    {
      var absolute := Absolute(axis, eng);
      var clamped := Clamped(axis, absolute);
      if last.Some? {
        var delta := Abs(clamped - last.value);
        if delta > axis.maxDelta * 2.0 {
          var sign := if clamped > last.value then 1.0 else -1.0;
          clamped := last.value + sign * axis.maxDelta * 2.0;
        }
      }
      last := Some(clamped);
      target := UnitsToCount(axis, clamped);
      SetpointHandshake();
    }

    /** No offset, no clamp, no rate limit; but the rate limiter goes on from here. */
    method SetTargetPositionRaw(raw: real)
      modifies this
      ensures last == Some(raw) && target == UnitsToCount(axis, raw)
      ensures newSetpoint == (old(newSetpoint) != axis.pp)
      ensures controlword == if axis.pp then Handshake(old(controlword), newSetpoint) else old(controlword)
    {
      target := UnitsToCount(axis, raw);
      last := Some(raw);
      SetpointHandshake();
    }

    method SetpointHandshake()
      modifies this`newSetpoint, this`controlword
      ensures newSetpoint == (old(newSetpoint) != axis.pp)
      ensures controlword == if axis.pp then Handshake(old(controlword), newSetpoint) else old(controlword)
    {
      if axis.pp {
        newSetpoint := !newSetpoint;
        var cw := controlword | 0x20;
        if newSetpoint { cw := cw | 0x10; } else { cw := cw & 0xFFEF; }
        controlword := cw;
      }
    }
  }

  // ----- runs -----

  /** The targets a sequence of requests becomes. */
  function Targets(a: Axis, last: Option<real>, requests: seq<real>): (ts: seq<real>)
    ensures |ts| == |requests|
    decreases |requests|
  {
    if requests == [] then []
    else
      var t := Commanded(a, last, requests[0]);
      [t] + Targets(a, Some(t), requests[1..])
  }

  predicate Within(a: Axis, x: real) { a.minPos <= x <= a.maxPos }

  /** How far outside the limits a position is. */
  function Excess(a: Axis, x: real): real { Max(0.0, Max(x - a.maxPos, a.minPos - x)) }

  /** Whatever is requested: targets are at most two rate limits apart, never further outside
      the limits than where the last raw target left the axis, and inside from the first that
      is; with no raw target before, all of them are inside. */
  lemma {:induction false} TargetsAreLimited(a: Axis, last: Option<real>, requests: seq<real>, k: nat)
    requires Sane(a) && k < |requests|
    ensures var ts := Targets(a, last, requests); var before := if k == 0 then last else Some(ts[k - 1]);
      && (before.Some? ==> Abs(ts[k] - before.value) <= 2.0 * a.maxDelta)
      && (before.Some? ==> Excess(a, ts[k]) <= Excess(a, before.value))
      && (last.None? || Within(a, last.value) ==> Within(a, ts[k]))
    decreases k
  {
    hide Absolute;
    if k > 0 {
      TargetsAreLimited(a, Some(Commanded(a, last, requests[0])), requests[1..], k - 1);
    }
  }

  /** A request that stands is reached: each target closes the gap by two rate limits or
      closes it altogether, and never passes the request. */
  lemma {:induction false} StandingRequestIsReached(a: Axis, last: real, requests: seq<real>, k: nat, gap: real, closed: real)
    requires Sane(a) && k < |requests| && closed == (k + 1) as real * (2.0 * a.maxDelta)
    requires forall j :: 0 <= j < |requests| ==> requests[j] == requests[0]
    requires gap == Abs(Clamped(a, Absolute(a, requests[0])) - last)
    ensures Abs(Clamped(a, Absolute(a, requests[0])) - Targets(a, Some(last), requests)[k]) == Max(0.0, gap - closed)
    decreases k
  {
    var want := Clamped(a, Absolute(a, requests[0]));
    var t := Commanded(a, Some(last), requests[0]);
    hide Absolute, Clamped;
    if k == 0 {
      assert closed == 2.0 * a.maxDelta;
    } else {
      var rest := Name(k as real * (2.0 * a.maxDelta));
      assert closed == rest + 2.0 * a.maxDelta;
      MulNonNegative(k as real, 2.0 * a.maxDelta, rest);
      assert requests[1..][0] == requests[0];
      StandingRequestIsReached(a, t, requests[1..], k - 1, Abs(want - t), rest);
    }
  }

  // ----- frames and counts -----

  lemma TruncateNear(x: real)
    ensures Abs(Truncate(x) as real - x) < 1.0 && Abs(Truncate(x) as real) <= Abs(x)
  {}

  lemma QuotientBack(n: real, c: real, q: real, back: real)
    requires c > 0.0 && q == n / c && back == q * c
    ensures back == n
  {}

  /** Zero is home, and the engineering frame runs the way its sign says. */
  lemma FrameDirection(a: Axis, x: real, y: real)
    requires Sane(a) && x < y
    ensures Absolute(a, 0.0) == a.homeOffset && Engineering(a, a.homeOffset) == 0.0
    ensures if a.frameSign > 0.0 then Absolute(a, x) < Absolute(a, y) else Absolute(a, x) > Absolute(a, y)
    ensures Abs(Absolute(a, y) - Absolute(a, x)) == y - x
  {
    Signed(a.frameSign, 0.0);
    Signed(a.frameSign, x);
    Signed(a.frameSign, y);
  }

  lemma Signed(s: real, x: real)
    requires s == 1.0 || s == -1.0
    ensures s * x == if s > 0.0 then x else -x
  {
    if s == 1.0 {
      assert 1.0 * x == x;
    } else {
      assert -1.0 * x == -x;
    }
  }

  /** Counts are read back by the scale, or as zero where there is none. */
  lemma CountsRead(a: Axis, counts: int)
    ensures a.countsPerMm != 0.0 ==> CountsToUnits(a, counts) * a.countsPerMm == counts as real
    ensures a.countsPerMm == 0.0 ==> CountsToUnits(a, counts) == 0.0
  {}

  /** What a request inside the limits reads back as, once the axis is there: the request,
      less than one count short of it toward the raw zero. */
  lemma RequestReadsBack(a: Axis, eng: real, raw: real, one: real)
    requires Sane(a) && Within(a, Absolute(a, eng)) && one == 1.0 / a.countsPerMm
    requires raw == CountsToUnits(a, UnitsToCount(a, Commanded(a, None, eng)))
    ensures Abs(Engineering(a, raw) - eng) < one && Abs(raw) <= Abs(Absolute(a, eng))
  {
    var x := Absolute(a, eng);
    hide UnitsToCount, Engineering, Absolute;
    assert Commanded(a, None, eng) == x;
    var n := Name(UnitsToCount(a, x) as real);
    var back := Name(raw * a.countsPerMm);
    var unit := Name(one * a.countsPerMm);
    QuotientBack(n, a.countsPerMm, raw, back);
    QuotientBack(1.0, a.countsPerMm, one, unit);
    hide CountsToUnits;
    CountNear(a, x, n);
    FrameInverts(a, eng, raw);
    ScaledNear(raw, x, a.countsPerMm, back, Scaled(a, x), one, unit);
  }

  function Scaled(a: Axis, x: real): real { x * a.countsPerMm }

  lemma CountNear(a: Axis, x: real, n: real)
    requires n == UnitsToCount(a, x) as real
    ensures Abs(n - Scaled(a, x)) < 1.0 && Abs(n) <= Abs(Scaled(a, x))
  {
    TruncateNear(Scaled(a, x));
  }

  lemma ScaledNear(raw: real, x: real, c: real, back: real, scaled: real, one: real, unit: real)
    requires c > 0.0 && back == raw * c && scaled == x * c && unit == one * c && unit == 1.0
    requires Abs(back - scaled) < 1.0 && Abs(back) <= Abs(scaled)
    ensures Abs(raw - x) < one && Abs(raw) <= Abs(x)
  {
    NearerThanOne(raw, x, c, back, scaled, one, unit);
    NoFurther(raw, x, c, back, scaled);
    hide Abs;
  }

  lemma NoFurther(raw: real, x: real, c: real, back: real, scaled: real)
    requires c > 0.0 && back == raw * c && scaled == x * c && Abs(back) <= Abs(scaled)
    ensures Abs(raw) <= Abs(x)
  {
    MulAbs(raw, c, back);
    MulAbs(x, c, scaled);
    ScaledAbs(raw, x, c, Abs(back), Abs(scaled));
  }

  lemma NearerThanOne(raw: real, x: real, c: real, back: real, scaled: real, one: real, unit: real)
    requires c > 0.0 && back == raw * c && scaled == x * c && unit == one * c && unit == 1.0
    requires Abs(back - scaled) < 1.0
    ensures Abs(raw - x) < one
  {
    StrictCancel(c, raw - x, one, back - scaled, unit);
    StrictCancel(c, x - raw, one, scaled - back, unit);
  }

  lemma ScaledAbs(raw: real, x: real, c: real, back: real, scaled: real)
    requires c > 0.0 && back == Abs(raw) * c && scaled == Abs(x) * c && back <= scaled
    ensures Abs(raw) <= Abs(x)
  {
    Cancel(c, Abs(raw), Abs(x), back, scaled);
  }

  lemma StrictCancel(d: real, a: real, b: real, da: real, db: real)
    requires d > 0.0 && da == a * d && db == b * d && da < db
    ensures a < b
  {
    if a >= b {
      MulNonNegative(a - b, d, da - db);
    }
  }

  /** The engineering frame is undone by the absolute one, whichever way it points. */
  lemma FrameInverts(a: Axis, eng: real, raw: real)
    requires Sane(a)
    ensures Engineering(a, Absolute(a, eng)) == eng
    ensures Abs(Engineering(a, raw) - eng) == Abs(raw - Absolute(a, eng))
  {
    if a.frameSign == 1.0 {
    } else {
      assert a.frameSign == -1.0;
    }
  }
}
