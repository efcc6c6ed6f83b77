/** The conditioner against a target that moves: what the estimate says of it, when the brake
    takes hold, and how far the axis can pass it. */
module Pursuit {
  import opened RealArithmetic
  import opened CommandConditioner
  import opened CommandSafety

  // ----- the estimate -----

  /** From the second frame of a target that moves at `v`, the estimate is its velocity, and
      the prediction error is how much that differs from the estimate before. */
  lemma EstimateIsTheVelocity(e: Estimator, target: real, dt: real, frameSec: real, v: real)
    requires e.have && frameSec > 0.0 && v != 0.0 && target == e.lastTarget + v * frameSec
    ensures var n := Estimate(e, target, dt, frameSec);
      n.targetVel == v && n.lastTarget == target && n.have && n.predHave && n.holdSec == 0.0
      && n.predErr == if e.predHave then Abs(v - e.targetVel) else e.predErr
  {
    var moved := Name(v * frameSec);
    if moved == 0.0 {
      if v > 0.0 { MulPositive(v, frameSec, moved); } else { MulPositive(-v, frameSec, -moved); }
    }
    var q := Name((target - e.lastTarget) / frameSec);
    assert q * frameSec == v * frameSec;
    SameFactor(q, v, frameSec);
  }

  lemma SameFactor(a: real, b: real, c: real)
    requires c > 0.0 && a * c == b * c
    ensures a == b
  {
    if a > b { MulPositive(a - b, c, (a - b) * c); }
    if a < b { MulPositive(b - a, c, (b - a) * c); }
  }

  // ----- the candidates -----

  lemma Ratio(x: real, y: real, dt: real, k: real)
    requires y > 0.0 && k * y == dt
    ensures Travel(x / y, dt) == x * k
  {
    var q := Name(x / y);
    assert q * y == x;
    assert q * dt == q * (k * y);
  }

  /** A cycle of Interpolate that nothing limits closes exactly its share of the frame interval,
      dt/frameSec, of the gap; before an interval is known, or with one no longer than a cycle,
      it closes all of it, as Bypass does. `k`: the share. */
  lemma FillClosesItsShare(err: real, vel: real, dt: real, frameSec: real, k: real)
    requires dt > 0.0 && (frameSec > dt ==> k * frameSec == dt) && (frameSec <= dt ==> k == 1.0)
    ensures err - Travel(Candidate(Interpolate, err, vel, dt, frameSec), dt) == err - err * k
    ensures Travel(Candidate(Bypass, err, vel, dt, frameSec), dt) == err
  {
    Ratio(err, dt, dt, 1.0);
    if frameSec > dt {
      Ratio(err, frameSec, dt, k);
    }
  }

  /** A cycle of Filter is the exact step of a critically damped second-order low-pass. With
      c = vel - wn*err, what the velocity is off the slow curve vel == wn*err, the velocity of
      x'' = wn^2*x - 2*wn*x' after dt is (vel - wn*dt*c) times the decay over dt; on that curve
      it decays by just that factor. */
  lemma FilterIsCriticallyDamped(err: real, vel: real, dt: real, frameSec: real, wn: real, decay: real, c: real)
    requires dt > 0.0 && c == vel - wn * err
    ensures Candidate(Filter(wn, decay), err, vel, dt, frameSec) == decay * (vel - wn * dt * c)
    ensures c == 0.0 ==> Candidate(Filter(wn, decay), err, vel, dt, frameSec) == decay * vel
  {
    var a := Name(decay * wn * wn * dt * err);
    var b := Name(decay * (1.0 - wn * dt) * vel);
    assert a == decay * (wn * dt * (wn * err));
    assert b == decay * vel - decay * (wn * dt * vel);
    var we := Name(wn * err);
    assert wn * dt * c == wn * dt * vel - wn * dt * we;
  }

  // ----- when the brake takes hold -----

  /** How much faster than the target the velocity is, in the direction of the gap. */
  function Closing(v: real, vt: real, err: real): real { if err > 0.0 then v - vt else vt - v }

  /** What the acceleration limit can take off a closing velocity `u` before the gap is closed. */
  predicate CanShed(u: real, amax: real, err: real) { u <= 0.0 || u * u <= 2.0 * amax * Abs(err) }

  /** Beyond the band the brake binds exactly when what the first two clamps leave closes in on
      the target, measured against the target's own velocity, faster than can be shed within the
      gap; any other velocity is not cut. */
  lemma BrakesExactlyWhenNeeded(vel: real, vt: real, candidate: real, err: real, root: real, l: Limits)
    requires Sane(l) && IsRoot(root, l.amax, err) && err != 0.0
    ensures var v := Clamped(vel, candidate, l); var u := Closing(v, vt, err); var out := Guard(vel, vt, candidate, err, root, l);
      && (out.braked <==> Abs(err) > l.brakeEps && !CanShed(u, l.amax, err))
      && (!out.braked ==> out.vel == v)
  {
    var u := Closing(Clamped(vel, candidate, l), vt, err);
    RootDecides(u, root, l.amax, err);
    hide Clamped, CanShed, IsRoot;
  }

  lemma RootDecides(u: real, root: real, amax: real, err: real)
    requires IsRoot(root, amax, err)
    ensures u > root <==> !CanShed(u, amax, err)
  {
    if u > root {
      MulMono(u, root, u, u * root, u * u);
      MulMono(root, root, u, root * root, root * u);
      MulPositive(u, u - root, u * (u - root));
    } else if u > 0.0 {
      MulMono(u, u, root, u * u, u * root);
      MulMono(root, u, root, root * u, root * root);
    }
  }

  /** Where it binds and the target runs away, the velocity ends at what can just be shed, or at
      vmax if that is less. */
  lemma BrakesToTheCurve(vel: real, vt: real, candidate: real, err: real, root: real, l: Limits)
    requires Sane(l) && root >= 0.0 && Guard(vel, vt, candidate, err, root, l).braked
    requires if err > 0.0 then vt >= 0.0 else vt <= 0.0
    ensures var out := Guard(vel, vt, candidate, err, root, l);
      Closing(out.vel, vt, err) == Min(root, l.vmax - Abs(vt))
  {
    hide Clamped, MaxStep;
  }

  // ----- a target at constant velocity is not passed -----

  /** A cycle that steers to a target of which the estimate knows the velocity. */
  predicate Chases(c: Command, i: Input, target: real, vt: real, l: Limits)
    requires l.dt > 0.0
  {
    && !i.mode.Filter? && Effective(c.m, i.target) == target && IsRoot(i.root, l.amax, target - c.m.pos)
    && Aim(c, i, l.dt).targetVel == vt
  }

  /** A run after a target that starts at `start` and moves by vt*dt a cycle. */
  predicate Chase(states: seq<Command>, inputs: seq<Input>, start: real, vt: real, l: Limits)
    requires l.dt > 0.0
  {
    && |states| == |inputs| + 1
    && forall k :: 0 <= k < |inputs| ==>
         Chases(states[k], inputs[k], Place(start, vt, l.dt, k), vt, l) && states[k + 1] == Next(states[k], inputs[k], l)
  }

  function Place(start: real, vt: real, dt: real, k: nat): real {
    if k == 0 then start else Place(start, vt, dt, k - 1) + Travel(vt, dt)
  }

  /** The distance to the target at step `k` of a run. */
  function Lead(states: seq<Command>, start: real, vt: real, l: Limits, k: nat): real
    requires k < |states|
  {
    Place(start, vt, l.dt, k) - states[k].m.pos
  }

  lemma ShortOfMoving(vel: real, vt: real, candidate: real, err: real, root: real, l: Limits)
    requires Sane(l) && err > l.brakeEps && root >= 0.0 && vt >= 0.0
    ensures Guard(vel, vt, candidate, err, root, l).vel - vt <= root
  {
    hide AccelClamp, MaxStep;
  }

  lemma PastMoving(vel: real, vt: real, candidate: real, err: real, root: real, l: Limits)
    requires Sane(l) && err <= 0.0 && candidate <= 0.0 && root >= 0.0 && vt >= 0.0
    ensures Guard(vel, vt, candidate, err, root, l).vel - vt <= Max(0.0, vel - vt - MaxStep(l))
  {
    AccelClampIsOneStep(vel, candidate, l);
    hide AccelClamp, MaxStep;
  }

  lemma ChasingCycle(c: Command, i: Input, target: real, vt: real, l: Limits)
    requires Sane(l) && Chases(c, i, target, vt, l)
    ensures var n := Next(c, i, l); var e := target - c.m.pos; var candidate := Wanted(c, i, l.dt);
      && n.m.pos == c.m.pos + Travel(n.m.vel, l.dt)
      && n.m.vel == Guard(c.m.vel, vt, candidate, e, i.root, l).vel
      && (e <= 0.0 ==> candidate <= 0.0)
  {
    var e := target - c.m.pos;
    QuotientReach(e, l.dt, l.dt);
    if i.frameSec > l.dt {
      QuotientReach(e, i.frameSec, l.dt);
    }
    hide Guard, AccelClamp, Rate, Travel, IsRoot;
  }

  lemma TravelApart(v: real, vt: real, dt: real)
    ensures Travel(v - vt, dt) == Travel(v, dt) - Travel(vt, dt)
  {}

  /** One cycle behind a target that moves away, in the target's own frame. */
  lemma CycleBehind(c: Command, i: Input, target: real, vt: real, l: Limits)
    requires Sane(l) && l.brakeEps == 0.0 && vt >= 0.0 && Chases(c, i, target, vt, l)
    ensures var n := Next(c, i, l); var e := target - c.m.pos; var a := Quantum(l);
      var e' := target + Travel(vt, l.dt) - n.m.pos;
      && (e > 0.0 ==> e' >= -a / 2.0 && Within(e', Travel(n.m.vel - vt, l.dt), a))
      && (e <= 0.0 && Within(e, Travel(c.m.vel - vt, l.dt), a) ==> Within(e', Travel(n.m.vel - vt, l.dt), a))
  {
    ChasingCycle(c, i, target, vt, l);
    var n := Next(c, i, l);
    var e := target - c.m.pos;
    var candidate := Wanted(c, i, l.dt);
    hide Next, Wanted, Travel;
    TravelApart(n.m.vel, vt, l.dt);
    if e > 0.0 {
      ShortOfMoving(c.m.vel, vt, candidate, e, i.root, l);
      hide Guard, Quantum, IsRoot;
      StepFromShort(e, n.m.vel - vt, i.root, l, Travel(n.m.vel - vt, l.dt));
    } else {
      PastMoving(c.m.vel, vt, candidate, e, i.root, l);
      hide Guard, Quantum, IsRoot;
      if Within(e, Travel(c.m.vel - vt, l.dt), Quantum(l)) {
        StepFromPast(e, c.m.vel - vt, n.m.vel - vt, l, Travel(c.m.vel - vt, l.dt), Travel(n.m.vel - vt, l.dt));
      }
    }
  }

  predicate Held(states: seq<Command>, start: real, vt: real, l: Limits, k: nat)
    requires k < |states|
  {
    Within(Lead(states, start, vt, l, k), Travel(states[k].m.vel - vt, l.dt), Quantum(l))
  }

  lemma ChaseStep(states: seq<Command>, inputs: seq<Input>, start: real, vt: real, l: Limits, k: nat)
    requires Sane(l) && l.brakeEps == 0.0 && vt >= 0.0 && Chase(states, inputs, start, vt, l) && k < |inputs|
    ensures Lead(states, start, vt, l, k) > 0.0 ==> Lead(states, start, vt, l, k + 1) >= -Quantum(l) / 2.0
    ensures Lead(states, start, vt, l, k) > 0.0 || Held(states, start, vt, l, k) ==> Held(states, start, vt, l, k + 1)
  {
    CycleBehind(states[k], inputs[k], Place(start, vt, l.dt, k), vt, l);
    assert states[k + 1] == Next(states[k], inputs[k], l);
    assert Place(start, vt, l.dt, k + 1) == Place(start, vt, l.dt, k) + Travel(vt, l.dt);
    hide Next, Chases, Quantum, Travel, Within, Place;
  }

  /** The overshoot bound in the frame of the target: behind a target that moves away at constant
      velocity, at any velocities of the axis, in any mix of Bypass and Interpolate, the axis
      never passes it by more than amax*dt*dt, and a cycle that catches up by no more than half
      of that. */
  lemma {:induction false} PursuitBound(states: seq<Command>, inputs: seq<Input>, start: real, vt: real, l: Limits, k: nat)
    requires Sane(l) && l.brakeEps == 0.0 && vt >= 0.0 && Chase(states, inputs, start, vt, l) && k < |states|
    requires start > states[0].m.pos
    ensures Lead(states, start, vt, l, k) >= -Quantum(l) && (k > 0 ==> Held(states, start, vt, l, k))
    ensures k > 0 && Lead(states, start, vt, l, k - 1) > 0.0 ==> Lead(states, start, vt, l, k) >= -Quantum(l) / 2.0
  {
    MaxStepIsNotNegative(l);
    if k > 0 {
      PursuitBound(states, inputs, start, vt, l, k - 1);
      ChaseStep(states, inputs, start, vt, l, k - 1);
      HeldIsNear(states, start, vt, l, k);
      hide Quantum, Travel, Held, Chase, Place;
    }
  }

  lemma HeldIsNear(states: seq<Command>, start: real, vt: real, l: Limits, k: nat)
    requires Sane(l) && k < |states| && Held(states, start, vt, l, k)
    ensures Lead(states, start, vt, l, k) >= -Quantum(l)
  {
    MaxStepIsNotNegative(l);
    hide Quantum, Travel, Place;
  }

  // ----- and the other way round -----

  function Reflected(states: seq<Command>): seq<Command> { seq(|states|, k requires 0 <= k < |states| => Reflect(states[k])) }

  function ReflectedInputs(inputs: seq<Input>): seq<Input> { seq(|inputs|, k requires 0 <= k < |inputs| => ReflectInput(inputs[k])) }

  lemma {:induction false} PlaceIsOdd(start: real, vt: real, dt: real, k: nat)
    ensures Place(-start, -vt, dt, k) == -Place(start, vt, dt, k)
  {
    TravelIsOdd(vt, dt);
    hide Travel;
    if k > 0 {
      PlaceIsOdd(start, vt, dt, k - 1);
    }
  }

  lemma ChaseIsOdd(states: seq<Command>, inputs: seq<Input>, start: real, vt: real, l: Limits)
    requires Sane(l) && Chase(states, inputs, start, vt, l)
    ensures Chase(Reflected(states), ReflectedInputs(inputs), -start, -vt, l)
  {
    forall k | 0 <= k < |inputs|
      ensures Chases(Reflect(states[k]), ReflectInput(inputs[k]), Place(-start, -vt, l.dt, k), -vt, l)
      ensures Reflect(states[k + 1]) == Next(Reflect(states[k]), ReflectInput(inputs[k]), l)
    {
      assert states[k + 1] == Next(states[k], inputs[k], l);
      StepIsOdd(states[k], inputs[k], start, vt, l, k);
    }
    hide Next, Chases, Place, Reflect, ReflectInput;
  }

  lemma StepIsOdd(c: Command, i: Input, start: real, vt: real, l: Limits, k: nat)
    requires Sane(l) && Chases(c, i, Place(start, vt, l.dt, k), vt, l)
    ensures Chases(Reflect(c), ReflectInput(i), Place(-start, -vt, l.dt, k), -vt, l)
    ensures Reflect(Next(c, i, l)) == Next(Reflect(c), ReflectInput(i), l)
  {
    hide Next, Chases, Place, Reflect, ReflectInput;
    PlaceIsOdd(start, vt, l.dt, k);
    NextIsOdd(c, i, l);
    ChasesIsOdd(c, i, Place(start, vt, l.dt, k), vt, l);
  }

  lemma ChasesIsOdd(c: Command, i: Input, target: real, vt: real, l: Limits)
    requires Sane(l) && Chases(c, i, target, vt, l)
    ensures Chases(Reflect(c), ReflectInput(i), -target, -vt, l)
  {
    EstimateIsOdd(c.e, target, l.dt, i.frameSec);
    AbsIsEven(target - c.m.pos, i.root, l.amax);
    assert -target - Reflect(c).m.pos == -(target - c.m.pos);
    hide Estimate, IsRoot;
  }

  /** The same from above, behind a target that moves down. */
  lemma PursuitBoundDown(states: seq<Command>, inputs: seq<Input>, start: real, vt: real, l: Limits, k: nat)
    requires Sane(l) && l.brakeEps == 0.0 && vt <= 0.0 && Chase(states, inputs, start, vt, l) && k < |states|
    requires start < states[0].m.pos
    ensures Lead(states, start, vt, l, k) <= Quantum(l)
    ensures k > 0 && Lead(states, start, vt, l, k - 1) < 0.0 ==> Lead(states, start, vt, l, k) <= Quantum(l) / 2.0
  {
    ChaseIsOdd(states, inputs, start, vt, l);
    PursuitBound(Reflected(states), ReflectedInputs(inputs), -start, -vt, l, k);
    LeadIsOdd(states, start, vt, l, k);
    if k > 0 {
      LeadIsOdd(states, start, vt, l, k - 1);
    }
    hide Lead, Quantum, Chase;
  }

  lemma LeadIsOdd(states: seq<Command>, start: real, vt: real, l: Limits, k: nat)
    requires k < |states|
    ensures Lead(Reflected(states), -start, -vt, l, k) == -Lead(states, start, vt, l, k)
  {
    PlaceIsOdd(start, vt, l.dt, k);
    hide Place;
  }
}
