/** What the guard chain guarantees, whatever the mode asks for: velocity and acceleration
    bounds, the bound on overshooting a stationary target, what the gauge can read, and that
    statistics never reach the command. */
module CommandSafety {
  import opened RealArithmetic
  import opened CommandConditioner

  // ----- one cycle's velocity -----

  lemma ClampOnDemand(vel: real, candidate: real, dt: real, amax: real, step: real)
    requires dt > 0.0 && amax >= 0.0 && step == amax * dt
    ensures step >= 0.0 && AccelClamp(vel, candidate, dt, amax) == Max(vel - step, Min(vel + step, candidate))
  {
    var dv := candidate - vel;
    var q := Name(dv / dt);
    var qdt := Name(q * dt);
    assert qdt == dv;
    if q > amax {
      MulPositive(q - amax, dt, qdt - step);
    } else {
      MulMono(dt, q, amax, qdt, step);
    }
    if q < -amax {
      MulPositive(-amax - q, dt, -step - qdt);
    } else {
      MulMono(dt, -amax, q, -step, qdt);
    }
    MulNonNegative(amax, dt, step);
  }

  /** The clamp on the demanded acceleration is a clamp of the candidate to one step. */
  lemma AccelClampIsOneStep(vel: real, candidate: real, l: Limits)
    requires Sane(l)
    ensures MaxStep(l) >= 0.0
    ensures AccelClamp(vel, candidate, l.dt, l.amax) == Max(vel - MaxStep(l), Min(vel + MaxStep(l), candidate))
  {
    var step := Name(l.amax * l.dt);
    assert MaxStep(l) == step;
    ClampOnDemand(vel, candidate, l.dt, l.amax, step);
  }

  // ----- one cycle's velocity -----

  /** Whatever the brake cuts to lies between the velocity it cut and one step from it
      towards and past a stop. */
  lemma BrakeBounds(prev: real, v: real, cap: real, err: real, step: real, vmax: real)
    requires step >= 0.0 && vmax >= 0.0
    requires (v > 0.0 ==> v <= prev + step) && (v < 0.0 ==> v >= prev - step)
    requires if err > 0.0 then v > cap else err < 0.0 && v < cap
    ensures var b := Brake(prev, cap, err, step, vmax);
      && Abs(b) <= vmax && Abs(b) <= Abs(prev) + step
      && (prev < 0.0 < b || b < 0.0 < prev ==> Abs(b - prev) <= step)
  {}

  /** Any state, any target, any estimate and any square root: the guard keeps the velocity
      within vmax, lets it grow by one step at most, reverses it by one step at most, and
      without the brake never leaves one step of a velocity that was itself within vmax. */
  lemma VelocityBounds(vel: real, vt: real, candidate: real, err: real, root: real, l: Limits)
    requires Sane(l)
    ensures var out := Guard(vel, vt, candidate, err, root, l);
      && Abs(out.vel) <= l.vmax
      && Abs(out.vel) <= Abs(vel) + MaxStep(l)
      && (vel < 0.0 < out.vel || out.vel < 0.0 < vel ==> Abs(out.vel - vel) <= MaxStep(l))
      && (!out.braked && Abs(vel) <= l.vmax ==> Abs(out.vel - vel) <= MaxStep(l))
  {
    AccelClampIsOneStep(vel, candidate, l);
    hide AccelClamp, MaxStep;
    var v := Clamped(vel, candidate, l);
    if Binds(v, vt, err, root, l.brakeEps) {
      BrakeBounds(vel, v, Cap(vt, err, root), err, MaxStep(l), l.vmax);
    }
  }

  // ----- reflection -----

  /** Reflecting the state reflects the guard. */
  lemma GuardIsOdd(vel: real, vt: real, candidate: real, err: real, root: real, l: Limits)
    requires Sane(l)
    ensures Guard(-vel, -vt, -candidate, -err, root, l)
         == Guarded(-Guard(vel, vt, candidate, err, root, l).vel, Guard(vel, vt, candidate, err, root, l).braked)
  {
    AccelClampIsOneStep(vel, candidate, l);
    AccelClampIsOneStep(-vel, -candidate, l);
    hide AccelClamp, MaxStep;
    assert Clamped(-vel, -candidate, l) == -Clamped(vel, candidate, l);
  }

  lemma QuotientIsOdd(x: real, y: real)
    requires y != 0.0
    ensures (-x) / y == -(x / y)
  {}

  function ReflectTarget(t: Target): Target { if t.At? then At(-t.x) else t }

  function ReflectInput(i: Input): Input { i.(target := ReflectTarget(i.target)) }

  function ReflectMotion(m: Motion): Motion { Motion(-m.pos, -m.vel, -m.accel, -m.lastValidTarget) }

  function ReflectEstimator(e: Estimator): Estimator { e.(targetVel := -e.targetVel, lastTarget := -e.lastTarget) }

  function Reflect(c: Command): Command { Command(ReflectMotion(c.m), ReflectEstimator(c.e)) }

  lemma EstimateIsOdd(e: Estimator, target: real, dt: real, frameSec: real)
    ensures Estimate(ReflectEstimator(e), -target, dt, frameSec) == ReflectEstimator(Estimate(e, target, dt, frameSec))
  {
    if frameSec > 0.0 {
      QuotientIsOdd(target - e.lastTarget, frameSec);
      assert -target - (-e.lastTarget) == -(target - e.lastTarget);
    }
  }

  lemma CandidateIsOdd(m: Mode, err: real, vel: real, dt: real, frameSec: real)
    requires dt > 0.0
    ensures Candidate(m, -err, -vel, dt, frameSec) == -Candidate(m, err, vel, dt, frameSec)
  {
    match m
    case Filter(wn, decay) =>
      var k, j := decay * wn * wn * dt, decay * (1.0 - wn * dt);
      assert k * -err + j * -vel == -(k * err + j * vel);
    case _ =>
      QuotientIsOdd(err, dt);
      if frameSec > dt {
        QuotientIsOdd(err, frameSec);
      }
  }

  lemma RateIsOdd(dv: real, dt: real)
    requires dt > 0.0
    ensures Rate(-dv, dt) == -Rate(dv, dt)
  {
    QuotientIsOdd(dv, dt);
  }

  lemma TravelIsOdd(vel: real, dt: real)
    ensures Travel(-vel, dt) == -Travel(vel, dt)
  {}

  /** The conditioner has no preferred direction: the reflected session is the reflection of
      the session, in every mode. */
  lemma NextIsOdd(c: Command, i: Input, l: Limits)
    requires Sane(l)
    ensures Next(Reflect(c), ReflectInput(i), l) == Reflect(Next(c, i, l))
  {
    hide Estimate, Candidate, GuardMotion;
    var target := Effective(c.m, i.target);
    EstimateIsOdd(c.e, target, l.dt, i.frameSec);
    assert Effective(Reflect(c).m, ReflectInput(i).target) == -target;
    assert Error(Reflect(c), ReflectInput(i)) == -Error(c, i);
    CandidateIsOdd(i.mode, Error(c, i), c.m.vel, l.dt, i.frameSec);
    var candidate := Wanted(c, i, l.dt);
    var vt := Aim(c, i, l.dt).targetVel;
    GuardMotionIsOdd(c.m.(lastValidTarget := target), vt, candidate, Error(c, i), i.root, l);
  }

  lemma GuardMotionIsOdd(m: Motion, vt: real, candidate: real, err: real, root: real, l: Limits)
    requires Sane(l)
    ensures GuardMotion(ReflectMotion(m), -vt, -candidate, -err, root, l)
         == ReflectMotion(GuardMotion(m, vt, candidate, err, root, l))
  {
    hide Guard, AccelClamp, MaxStep, Rate, Travel;
    GuardIsOdd(m.vel, vt, candidate, err, root, l);
    AccelClampIsOdd(m.vel, candidate, l);
    var a := AccelClamp(m.vel, candidate, l.dt, l.amax);
    RateIsOdd(a - m.vel, l.dt);
    TravelIsOdd(Guard(m.vel, vt, candidate, err, root, l).vel, l.dt);
    assert -a - (-m.vel) == -(a - m.vel);
  }

  lemma AccelClampIsOdd(vel: real, candidate: real, l: Limits)
    requires Sane(l)
    ensures AccelClamp(-vel, -candidate, l.dt, l.amax) == -AccelClamp(vel, candidate, l.dt, l.amax)
  {
    AccelClampIsOneStep(vel, candidate, l);
    AccelClampIsOneStep(-vel, -candidate, l);
    hide AccelClamp, MaxStep;
  }

  // ----- against a stationary target -----

  /** Short of the target, the velocity ends at most at the square root. */
  lemma ShortOfTarget(vel: real, candidate: real, err: real, root: real, l: Limits)
    requires Sane(l) && err > l.brakeEps && root >= 0.0
    ensures Guard(vel, 0.0, candidate, err, root, l).vel <= root
  {
    hide AccelClamp, MaxStep;
  }

  /** At or past the target, what is left of the velocity falls by a step each cycle. */
  lemma PastTarget(vel: real, candidate: real, err: real, root: real, l: Limits)
    requires Sane(l) && err <= 0.0 && candidate <= 0.0 && root >= 0.0
    ensures Guard(vel, 0.0, candidate, err, root, l).vel <= Max(0.0, vel - MaxStep(l))
  {
    AccelClampIsOneStep(vel, candidate, l);
    hide AccelClamp, MaxStep;
  }

  lemma ArithmeticGeometric(e: real, b: real, be: real, sum: real)
    requires be == b * e && sum == (e + b) * (e + b)
    ensures 4.0 * be <= sum
  {
    Square(e - b, sum - 4.0 * be);
  }

  /** The scalar heart: a step no longer than the square root allows ends at most half of
      `a` = amax*dt*dt past the target, and what it still carries is spent within `a`. */
  lemma CrossingStep(e: real, a: real, x: real, xx: real, ae: real)
    requires e > 0.0 && a >= 0.0 && xx == x * x && ae == a * e && xx <= 2.0 * ae
    ensures e - x >= -a / 2.0
    ensures e - 2.0 * x + a >= -a
  {
    var near := Name((e + a / 2.0) * (e + a / 2.0));
    var far := Name((e + 2.0 * a) * (e + 2.0 * a));
    ArithmeticGeometric(e, a / 2.0, ae / 2.0, near);
    ArithmeticGeometric(e, 2.0 * a, 2.0 * ae, far);
    SquareRootMono(x, e + a / 2.0, xx, near);
    SquareRootMono(2.0 * x, e + 2.0 * a, 4.0 * xx, far);
  }

  /** The acceleration limit as a distance per cycle squared. */
  function Quantum(l: Limits): real { MaxStep(l) * l.dt }

  predicate IsRoot(root: real, amax: real, err: real) { root >= 0.0 && root * root == 2.0 * amax * Abs(err) }

  /** `e` is the distance still to go in the direction of travel, `x` the step last taken.
      Past the target, neither where the axis is nor where its remaining velocity (which a
      full step of acceleration is taken from each cycle) can carry it is more than `a`. */
  predicate Within(e: real, x: real, a: real) { e <= 0.0 ==> e - Max(0.0, x - a) >= -a }

  /** Within the bound in both directions. */
  predicate Settled(e: real, x: real, a: real) { Within(e, x, a) && Within(-e, -x, a) }

  /** A step that starts short of the target. */
  lemma StepFromShort(e: real, vel: real, root: real, l: Limits, x: real)
    requires Sane(l) && e > 0.0 && vel <= root && IsRoot(root, l.amax, e) && x == Travel(vel, l.dt)
    ensures e - x >= -Quantum(l) / 2.0 && Within(e - x, x, Quantum(l))
  {
    var a := Name(l.amax * l.dt * l.dt);
    assert Quantum(l) == a;
    var y := Name(root * l.dt);
    var yy := Name(y * y);
    var ae := Name(a * e);
    assert yy == 2.0 * ae by {
      assert yy == (root * root) * l.dt * l.dt;
    }
    MulNonNegative(l.amax, l.dt, l.amax * l.dt);
    MulNonNegative(l.amax * l.dt, l.dt, a);
    MulMono(l.dt, vel, root, x, y);
    hide Quantum;
    CrossingStep(e, a, y, yy, ae);
  }

  /** A step that starts at the target or past it. */
  lemma StepFromPast(e: real, before: real, vel: real, l: Limits, x: real, x': real)
    requires Sane(l) && e <= 0.0 && vel <= Max(0.0, before - MaxStep(l))
    requires x == Travel(before, l.dt) && x' == Travel(vel, l.dt) && Within(e, x, Quantum(l))
    ensures Within(e - x', x', Quantum(l))
  {
    var step := Name(MaxStep(l));
    var a := Name(step * l.dt);
    assert Quantum(l) == a;
    MulNonNegative(l.amax, l.dt, step);
    MulNonNegative(step, l.dt, a);
    hide Quantum, MaxStep;
    if before > step {
      MulMono(l.dt, vel, before - step, x', x - a);
    } else {
      MulMono(l.dt, vel, 0.0, x', 0.0);
    }
  }

  // ----- whole runs -----

  /** The estimator knows nothing but the stationary target, so the estimate is zero. */
  predicate AtRest(e: Estimator, target: real) {
    e.targetVel == 0.0 && (e.have ==> e.lastTarget == target)
  }

  /** A cycle that steers to the stationary `target`: it is what the input names or what the
      conditioner falls back to, Filter is off, and the square root is one. */
  predicate Steers(c: Command, i: Input, target: real, l: Limits) {
    && !i.mode.Filter? && Effective(c.m, i.target) == target
    && IsRoot(i.root, l.amax, target - c.m.pos)
  }

  /** Closing a gap over `y` seconds: the velocity has the gap's sign, and `dt` <= `y` seconds
      of it do not pass the gap. */
  lemma QuotientReach(x: real, y: real, dt: real)
    requires 0.0 < dt <= y
    ensures x <= 0.0 ==> x / y <= 0.0
    ensures x > 0.0 ==> Travel(x / y, dt) <= x
  {
    var q := Name(x / y);
    var qy := Name(q * y);
    assert qy == x;
    if q > 0.0 {
      MulPositive(q, y, x);
      MulMono(q, dt, y, q * dt, qy);
    } else if x > 0.0 {
      MulNonNegative(-q, y, -x);
    }
  }

  /** What a cycle does when it steers to a stationary target. */
  lemma SteeredCycle(c: Command, i: Input, target: real, l: Limits)
    requires Sane(l) && AtRest(c.e, target) && Steers(c, i, target, l)
    ensures var n := Next(c, i, l); var e := target - c.m.pos; var candidate := Wanted(c, i, l.dt);
      && AtRest(n.e, target) && n.m.lastValidTarget == target
      && n.m.pos == c.m.pos + Travel(n.m.vel, l.dt)
      && n.m.vel == Guard(c.m.vel, 0.0, candidate, e, i.root, l).vel
      && (e <= 0.0 ==> candidate <= 0.0)
      && (e > 0.0 ==> Travel(candidate, l.dt) <= e)
  {
    var e := target - c.m.pos;
    QuotientReach(e, l.dt, l.dt);
    if i.frameSec > l.dt {
      QuotientReach(e, i.frameSec, l.dt);
    }
    hide Guard, AccelClamp, Rate, Travel, IsRoot;
  }

  /** One cycle, seen from below the target. */
  lemma CycleFromBelow(c: Command, i: Input, target: real, l: Limits)
    requires Sane(l) && l.brakeEps == 0.0 && AtRest(c.e, target) && Steers(c, i, target, l)
    ensures var n := Next(c, i, l); var e := target - c.m.pos; var e' := target - n.m.pos; var a := Quantum(l);
      && (e > 0.0 ==> e' >= -a / 2.0 && Within(e', Travel(n.m.vel, l.dt), a))
      && (e <= 0.0 && Within(e, Travel(c.m.vel, l.dt), a) ==> Within(e', Travel(n.m.vel, l.dt), a))
  {
    SteeredCycle(c, i, target, l);
    var n := Next(c, i, l);
    var e := target - c.m.pos;
    var candidate := Wanted(c, i, l.dt);
    hide Next, Wanted, Travel;
    if e > 0.0 {
      ShortOfTarget(c.m.vel, candidate, e, i.root, l);
      hide Guard, Quantum, IsRoot;
      StepFromShort(e, n.m.vel, i.root, l, Travel(n.m.vel, l.dt));
    } else {
      PastTarget(c.m.vel, candidate, e, i.root, l);
      hide Guard, Quantum, IsRoot;
      if Within(e, Travel(c.m.vel, l.dt), Quantum(l)) {
        StepFromPast(e, c.m.vel, n.m.vel, l, Travel(c.m.vel, l.dt), Travel(n.m.vel, l.dt));
      }
    }
  }

  /** The reflected cycle steers to the reflected target, and its distances are reflected. */
  lemma ReflectedCycle(c: Command, i: Input, target: real, l: Limits)
    requires Sane(l) && AtRest(c.e, target) && Steers(c, i, target, l)
    ensures AtRest(Reflect(c).e, -target) && Steers(Reflect(c), ReflectInput(i), -target, l)
    ensures var c', n, n' := Reflect(c), Next(c, i, l), Next(Reflect(c), ReflectInput(i), l);
      && Travel(c'.m.vel, l.dt) == -Travel(c.m.vel, l.dt) && -target - c'.m.pos == -(target - c.m.pos)
      && Travel(n'.m.vel, l.dt) == -Travel(n.m.vel, l.dt) && -target - n'.m.pos == -(target - n.m.pos)
  {
    NextIsOdd(c, i, l);
    TravelIsOdd(c.m.vel, l.dt);
    TravelIsOdd(Next(c, i, l).m.vel, l.dt);
    hide Next, Travel, IsRoot;
    assert -target - Reflect(c).m.pos == -(target - c.m.pos);
    AbsIsEven(target - c.m.pos, i.root, l.amax);
  }

  lemma AbsIsEven(err: real, root: real, amax: real)
    requires IsRoot(root, amax, err)
    ensures IsRoot(root, amax, -err)
  {}

  /** One cycle, seen from above the target. */
  lemma CycleFromAbove(c: Command, i: Input, target: real, l: Limits)
    requires Sane(l) && l.brakeEps == 0.0 && AtRest(c.e, target) && Steers(c, i, target, l)
    ensures var n := Next(c, i, l); var e := target - c.m.pos; var e' := target - n.m.pos; var a := Quantum(l);
      && (e < 0.0 ==> e' <= a / 2.0 && Within(-e', -Travel(n.m.vel, l.dt), a))
      && (e >= 0.0 && Within(-e, -Travel(c.m.vel, l.dt), a) ==> Within(-e', -Travel(n.m.vel, l.dt), a))
  {
    ReflectedCycle(c, i, target, l);
    hide Next, Within, Steers, Travel, Quantum, AtRest;
    CycleFromBelow(Reflect(c), ReflectInput(i), -target, l);
  }

  /** A run that steers to one stationary target throughout. */
  predicate Session(states: seq<Command>, inputs: seq<Input>, target: real, l: Limits)
    requires l.dt > 0.0
  {
    && |states| == |inputs| + 1
    && AtRest(states[0].e, target)
    && forall k :: 0 <= k < |inputs| ==> Steers(states[k], inputs[k], target, l) && states[k + 1] == Next(states[k], inputs[k], l)
  }

  lemma {:induction false} EstimateStaysZero(states: seq<Command>, inputs: seq<Input>, target: real, l: Limits, k: nat)
    requires Sane(l) && Session(states, inputs, target, l) && k < |states|
    ensures AtRest(states[k].e, target)
  {
    if k > 0 {
      EstimateStaysZero(states, inputs, target, l, k - 1);
      assert states[k - 1 + 1] == Next(states[k - 1], inputs[k - 1], l);
    }
  }

  /** The distance to the target at step `k` of a run, and the last step taken. */
  function Gap(states: seq<Command>, target: real, k: nat): real
    requires k < |states|
  {
    target - states[k].m.pos
  }

  predicate SettledAt(states: seq<Command>, target: real, l: Limits, k: nat)
    requires k < |states|
  {
    Settled(Gap(states, target, k), Travel(states[k].m.vel, l.dt), Quantum(l))
  }

  /** One cycle of a run: from short of the target to short of it or settled, and from settled
      to settled; a cycle that crosses ends within half the bound. */
  lemma CycleOfRun(states: seq<Command>, inputs: seq<Input>, target: real, l: Limits, k: nat)
    requires Sane(l) && l.brakeEps == 0.0 && Session(states, inputs, target, l) && k < |inputs|
    ensures var e := Gap(states, target, k); var e' := Gap(states, target, k + 1);
      && (e > 0.0 ==> e' >= -Quantum(l) / 2.0) && (e < 0.0 ==> e' <= Quantum(l) / 2.0)
      && ((e > 0.0 && e' <= 0.0) || (e < 0.0 && 0.0 <= e') ==> SettledAt(states, target, l, k + 1))
      && (SettledAt(states, target, l, k) ==> SettledAt(states, target, l, k + 1))
  {
    EstimateStaysZero(states, inputs, target, l, k);
    CycleFromBelow(states[k], inputs[k], target, l);
    CycleFromAbove(states[k], inputs[k], target, l);
    SteeredCycle(states[k], inputs[k], target, l);
    assert states[k + 1] == Next(states[k], inputs[k], l);
    MaxStepIsNotNegative(l);
    hide Next, Guard, Travel, Quantum, Wanted;
  }

  lemma MaxStepIsNotNegative(l: Limits)
    requires Sane(l)
    ensures MaxStep(l) >= 0.0 && Quantum(l) >= 0.0
  {
    var step := Name(MaxStep(l));
    MulNonNegative(l.amax, l.dt, step);
    MulNonNegative(step, l.dt, step * l.dt);
  }

  lemma {:induction false} StaysSettled(states: seq<Command>, inputs: seq<Input>, target: real, l: Limits, j: nat, k: nat)
    requires Sane(l) && l.brakeEps == 0.0 && Session(states, inputs, target, l)
    requires j <= k < |states| && SettledAt(states, target, l, j)
    ensures SettledAt(states, target, l, k)
    decreases k
  {
    if j < k {
      StaysSettled(states, inputs, target, l, j, k - 1);
      CycleOfRun(states, inputs, target, l, k - 1);
    }
  }

  /** On the side of the target the run started from. */
  predicate NotYetThere(states: seq<Command>, target: real, k: nat)
    requires k < |states|
  {
    if Gap(states, target, 0) > 0.0 then Gap(states, target, k) > 0.0 else Gap(states, target, k) < 0.0
  }

  lemma {:induction false} SettledOnceThere(states: seq<Command>, inputs: seq<Input>, target: real, l: Limits, k: nat)
    requires Sane(l) && l.brakeEps == 0.0 && Session(states, inputs, target, l)
    requires k < |states| && Gap(states, target, 0) != 0.0
    ensures NotYetThere(states, target, k) || SettledAt(states, target, l, k)
  {
    if k > 0 {
      SettledOnceThere(states, inputs, target, l, k - 1);
      CycleOfRun(states, inputs, target, l, k - 1);
    }
  }

  /** The overshoot bound. From any start off a stationary target, at any velocity, under any
      mix of Bypass and Interpolate and any frame intervals: the position is never more than
      amax*dt*dt past the target, a step that crosses it ends within half of that, and once
      the target is reached the position stays within amax*dt*dt of it for good. */
  lemma OvershootBound(states: seq<Command>, inputs: seq<Input>, target: real, l: Limits, k: nat)
    requires Sane(l) && l.brakeEps == 0.0 && Session(states, inputs, target, l)
    requires k < |states| && Gap(states, target, 0) != 0.0
    ensures Gap(states, target, 0) > 0.0 ==> Gap(states, target, k) >= -Quantum(l)
    ensures Gap(states, target, 0) < 0.0 ==> Gap(states, target, k) <= Quantum(l)
    ensures k > 0 && Gap(states, target, k - 1) > 0.0 ==> Gap(states, target, k) >= -Quantum(l) / 2.0
    ensures k > 0 && Gap(states, target, k - 1) < 0.0 ==> Gap(states, target, k) <= Quantum(l) / 2.0
    ensures forall j :: 0 <= j <= k && !NotYetThere(states, target, j) ==> Abs(Gap(states, target, k)) <= Quantum(l)
  {
    MaxStepIsNotNegative(l);
    SettledOnceThere(states, inputs, target, l, k);
    if k > 0 {
      CycleOfRun(states, inputs, target, l, k - 1);
    }
    hide Quantum, Travel;
    forall j | 0 <= j <= k && !NotYetThere(states, target, j)
      ensures Abs(Gap(states, target, k)) <= Quantum(l)
    {
      SettledOnceThere(states, inputs, target, l, j);
      StaysSettled(states, inputs, target, l, j, k);
    }
  }

  // ----- a target that stops -----

  /** The estimate after `n` more cycles on the target it is anchored to. */
  function HeldFor(e: Estimator, dt: real, frameSec: real, n: nat): Estimator {
    if n == 0 then e else var p := HeldFor(e, dt, frameSec, n - 1); Estimate(p, p.lastTarget, dt, frameSec)
  }

  /** A target that stops: the velocity last estimated stands until it has been held for more
      than two frame intervals, and is zero from then on, so that the runs above begin. `held`
      and `span` name the time held and the two intervals. */
  lemma {:induction false} HeldTargetComesToRest(e: Estimator, dt: real, frameSec: real, n: nat, held: real, span: real)
    requires dt > 0.0 && frameSec > 0.0 && e.have && span == 2.0 * frameSec && held == e.holdSec + n as real * dt
    requires e.holdSec <= span
    ensures var h := HeldFor(e, dt, frameSec, n);
      && h.have && h.lastTarget == e.lastTarget && h.holdSec == held
      && h.targetVel == (if held > span then 0.0 else e.targetVel)
      && (held > span ==> AtRest(h, e.lastTarget))
  {
    if n > 0 {
      var before := Name(held - dt);
      assert before == e.holdSec + (n - 1) as real * dt;
      HeldTargetComesToRest(e, dt, frameSec, n - 1, before, span);
    }
  }

  /** Bypass passes a clean stream through: a step to the target that no clamp has to limit
      ends on it. */
  lemma CleanStreamPassesThrough(c: Command, target: real, frameSec: real, root: real, l: Limits, v: real)
    requires Sane(l) && v == (target - c.m.pos) / l.dt
    requires Abs(v) <= l.vmax && Abs(v - c.m.vel) <= MaxStep(l)
    requires !Binds(v, Aim(c, Input(Bypass, At(target), frameSec, root), l.dt).targetVel, target - c.m.pos, root, l.brakeEps)
    ensures Next(c, Input(Bypass, At(target), frameSec, root), l).m.pos == target
  {
    AccelClampIsOneStep(c.m.vel, v, l);
    assert Travel(v, l.dt) == target - c.m.pos;
    hide AccelClamp, MaxStep, Estimate, Binds, Cap, Rate, Travel;
  }

  const TIGHT: Limits := Limits(1.0, 2.0, 1.0, 0.0)

  predicate TightSession() { Session(TightStates(), TightInputs(), 2.0, TIGHT) }

  lemma TightCycles()
    ensures var c1 := Next(Seeded(0.0, 2.0), Input(Bypass, At(2.0), 0.0, 2.0), TIGHT);
      && c1.m.pos == 2.0 && c1.m.vel == 2.0 && c1.m.lastValidTarget == 2.0
      && Next(c1, Input(Bypass, NotFinite, 0.0, 0.0), TIGHT).m.pos == 3.0
  {}

  function TightInputs(): (r: seq<Input>)
    ensures |r| == 2
  {
    [Input(Bypass, At(2.0), 0.0, 2.0), Input(Bypass, NotFinite, 0.0, 0.0)]
  }

  function TightStates(): (r: seq<Command>)
    ensures |r| == 3
  {
    var c0 := Seeded(0.0, 2.0);
    var c1 := Next(c0, TightInputs()[0], TIGHT);
    [c0, c1, Next(c1, TightInputs()[1], TIGHT)]
  }

  /** The bound is reached: full speed onto the target, then one step of acceleration less. */
  lemma OvershootIsTight()
    ensures Sane(TIGHT) && TIGHT.brakeEps == 0.0 && TightSession()
    ensures 2.0 - TightStates()[0].m.pos > 0.0 && 2.0 - TightStates()[2].m.pos == -Quantum(TIGHT) < 0.0
  {
    TightCycles();
    hide Next;
    var states := TightStates();
    assert Steers(states[0], TightInputs()[0], 2.0, TIGHT);
    assert Steers(states[1], TightInputs()[1], 2.0, TIGHT);
  }
}
