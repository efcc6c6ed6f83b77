/** What becomes of a velocity that is too high to stop before the target where the braking
    clamp is off: inside the band around it, or past it. */
module BandCarry {
  import opened RealArithmetic
  import opened CommandConditioner
  import opened CommandSafety
  import opened BrakingBand

  /** The stride `x`, falling by `a` a cycle, stays above `a` for `n` cycles. */
  predicate Takes(x: real, a: real, n: nat)
    decreases n
  {
    if n == 0 then x <= a else x > a && Takes(x - a, a, n - 1)
  }

  /** How far it carries in them. */
  function Carry(x: real, a: real, n: nat): real
    decreases n
  {
    if n == 0 then 0.0 else x - a + Carry(x - a, a, n - 1)
  }

  lemma {:induction false} TakesWithin(x: real, a: real, m: nat) returns (n: nat)
    requires a > 0.0 && x <= Times(a, m as real + 1.0)
    ensures Takes(x, a, n)
    decreases m
  {
    if x <= a {
      n := 0;
    } else if m == 0 {
      assert false;
    } else {
      assert Times(a, m as real + 1.0) - a == Times(a, (m - 1) as real + 1.0);
      n := TakesWithin(x - a, a, m - 1);
      n := n + 1;
    }
  }

  /** With an acceleration limit, every stride comes down in some number of cycles. */
  lemma EveryStrideStops(x: real, a: real) returns (n: nat)
    requires a > 0.0
    ensures Takes(x, a, n)
  {
    if x <= a {
      n := 0;
    } else {
      var q := x / a;
      assert q * a == x;
      DivBound(0.0, x, a, 0.0, q);
      var m := q.Floor;
      MulMono(a, q, m as real + 1.0, a * q, Times(a, m as real + 1.0));
      n := TakesWithin(x, a, m);
    }
  }

  // ----- one cycle -----

  /** Where neither the brake nor the candidate holds it back, the velocity falls by one step. */
  lemma FallsByOneStep(vel: real, candidate: real, err: real, root: real, l: Limits)
    requires Sane(l) && err <= l.brakeEps && root >= 0.0
    requires MaxStep(l) < vel <= l.vmax && candidate <= vel - MaxStep(l)
    ensures Guard(vel, 0.0, candidate, err, root, l).vel == vel - MaxStep(l)
  {
    AccelClampIsOneStep(vel, candidate, l);
    hide AccelClamp, MaxStep;
  }

  /** A gap no wider than the next stride, in the band or past the target. */
  predicate Unstoppable(e: real, x: real, a: real, eps: real) { e <= eps && e <= Max(0.0, x - a) }

  lemma SlowerCandidate(candidate: real, vel: real, e: real, l: Limits)
    requires Sane(l) && MaxStep(l) < vel && e <= Travel(vel, l.dt) - Quantum(l)
    requires (e <= 0.0 ==> candidate <= 0.0) && (e > 0.0 ==> Travel(candidate, l.dt) <= e)
    ensures candidate <= vel - MaxStep(l)
  {
    TravelStep(vel, l);
    if e > 0.0 {
      Cancel(l.dt, candidate, vel - MaxStep(l), Travel(candidate, l.dt), Travel(vel - MaxStep(l), l.dt));
    }
  }

  lemma StrideAbove(vel: real, l: Limits)
    requires Sane(l)
    ensures Travel(vel, l.dt) > Quantum(l) <==> vel > MaxStep(l)
    ensures Travel(vel, l.dt) > 0.0 <==> vel > 0.0
  {
    var step := Name(MaxStep(l));
    if vel > step {
      MulPositive(l.dt, vel - step, l.dt * (vel - step));
    } else {
      MulMono(l.dt, vel, step, l.dt * vel, l.dt * step);
    }
    if vel > 0.0 {
      MulPositive(l.dt, vel, l.dt * vel);
    } else {
      MulMono(l.dt, vel, 0.0, l.dt * vel, 0.0);
    }
  }

  /** A cycle that cannot stop: the stride falls by `a`, and the next one cannot stop either. */
  lemma FallingCycle(c: Command, i: Input, target: real, l: Limits)
    requires Sane(l) && AtRest(c.e, target) && Steers(c, i, target, l) && c.m.vel <= l.vmax
    requires var x := Travel(c.m.vel, l.dt); x > Quantum(l) && Unstoppable(target - c.m.pos, x, Quantum(l), l.brakeEps)
    ensures var n := Next(c, i, l); var x := Travel(c.m.vel, l.dt); var x' := Travel(n.m.vel, l.dt);
      && x' == x - Quantum(l) && n.m.vel <= l.vmax && target - n.m.pos == target - c.m.pos - x' <= 0.0
  {
    var e := target - c.m.pos;
    var candidate := Wanted(c, i, l.dt);
    SteeredCycle(c, i, target, l);
    StrideAbove(c.m.vel, l);
    TravelStep(c.m.vel, l);
    MaxStepIsNotNegative(l);
    hide Next, Wanted, Travel, Quantum, IsRoot;
    SlowerCandidate(candidate, c.m.vel, e, l);
    hide MaxStep;
    RootIsNotNegative(i.root, l.amax, e);
    FallsByOneStep(c.m.vel, candidate, e, i.root, l);
    hide Guard;
  }

  lemma RootIsNotNegative(root: real, amax: real, err: real)
    requires IsRoot(root, amax, err)
    ensures root >= 0.0
  {}

  /** The cycle that stops: past the target, with no more than a step of velocity left. */
  lemma StoppingCycle(c: Command, i: Input, target: real, l: Limits)
    requires Sane(l) && AtRest(c.e, target) && Steers(c, i, target, l) && target - c.m.pos <= 0.0
    requires 0.0 < Travel(c.m.vel, l.dt) <= Quantum(l)
    ensures var n := Next(c, i, l); var x' := Travel(n.m.vel, l.dt);
      && -Quantum(l) <= x' <= 0.0 && target - n.m.pos == target - c.m.pos - x'
  {
    var e := target - c.m.pos;
    var candidate := Wanted(c, i, l.dt);
    var vel := c.m.vel;
    var n := Next(c, i, l).m.vel;
    SteeredCycle(c, i, target, l);
    StrideAbove(vel, l);
    MaxStepIsNotNegative(l);
    RootIsNotNegative(i.root, l.amax, e);
    PastTarget(vel, candidate, e, i.root, l);
    VelocityBounds(vel, 0.0, candidate, e, i.root, l);
    TravelStep(0.0, l);
    hide Next, Wanted, Quantum, Guard, IsRoot, MaxStep;
    TravelMono(n, 0.0, l.dt);
    TravelMono(0.0 - MaxStep(l), n, l.dt);
  }

  // ----- whole runs, in the direction of motion -----

  function Ahead(states: seq<Command>, target: real, k: nat, up: bool): real
    requires k < |states|
  {
    if up then Gap(states, target, k) else -Gap(states, target, k)
  }

  function Stride(states: seq<Command>, l: Limits, k: nat, up: bool): real
    requires k < |states|
  {
    if up then Travel(states[k].m.vel, l.dt) else -Travel(states[k].m.vel, l.dt)
  }

  /** The state moves `up` or down too fast to stop before the target, at no more than vmax. */
  predicate Carried(states: seq<Command>, target: real, l: Limits, k: nat, up: bool)
    requires k < |states|
  {
    && (if up then states[k].m.vel <= l.vmax else -states[k].m.vel <= l.vmax)
    && 0.0 < Stride(states, l, k, up)
    && Unstoppable(Ahead(states, target, k, up), Stride(states, l, k, up), Quantum(l), l.brakeEps)
  }

  lemma FallsAt(states: seq<Command>, inputs: seq<Input>, target: real, l: Limits, k: nat, up: bool)
    requires Sane(l) && Session(states, inputs, target, l) && k < |inputs|
    requires Carried(states, target, l, k, up) && Stride(states, l, k, up) > Quantum(l)
    ensures Stride(states, l, k + 1, up) == Stride(states, l, k, up) - Quantum(l)
    ensures Ahead(states, target, k + 1, up) == Ahead(states, target, k, up) - Stride(states, l, k + 1, up)
    ensures Carried(states, target, l, k + 1, up) && Ahead(states, target, k + 1, up) <= 0.0
  {
    EstimateStaysZero(states, inputs, target, l, k);
    var c, i := states[k], inputs[k];
    assert states[k + 1] == Next(c, i, l);
    hide Next, Travel, Quantum, Steers, AtRest;
    if up {
      FallingCycle(c, i, target, l);
    } else {
      ReflectedCycle(c, i, target, l);
      NextIsOdd(c, i, l);
      FallingCycle(Reflect(c), ReflectInput(i), -target, l);
    }
  }

  lemma StopsAt(states: seq<Command>, inputs: seq<Input>, target: real, l: Limits, k: nat, up: bool)
    requires Sane(l) && Session(states, inputs, target, l) && k < |inputs|
    requires 0.0 < Stride(states, l, k, up) <= Quantum(l) && Ahead(states, target, k, up) <= 0.0
    ensures -Quantum(l) <= Stride(states, l, k + 1, up) <= 0.0
    ensures Ahead(states, target, k + 1, up) == Ahead(states, target, k, up) - Stride(states, l, k + 1, up)
  {
    EstimateStaysZero(states, inputs, target, l, k);
    var c, i := states[k], inputs[k];
    assert states[k + 1] == Next(c, i, l);
    hide Next, Travel, Quantum, Steers, AtRest;
    if up {
      StoppingCycle(c, i, target, l);
    } else {
      ReflectedCycle(c, i, target, l);
      assert -target - Reflect(c).m.pos == -Gap(states, target, k);
      StoppingCycle(Reflect(c), ReflectInput(i), -target, l);
    }
  }

  lemma {:induction false} CarriesOver(states: seq<Command>, inputs: seq<Input>, target: real, l: Limits, j: nat, n: nat, up: bool)
    requires Sane(l) && Session(states, inputs, target, l) && j + n < |states|
    requires Carried(states, target, l, j, up) && Takes(Stride(states, l, j, up), Quantum(l), n)
    ensures var m := j + n;
      && Ahead(states, target, m, up) == Ahead(states, target, j, up) - Carry(Stride(states, l, j, up), Quantum(l), n) <= 0.0
      && 0.0 < Stride(states, l, m, up) <= Quantum(l)
      && forall k :: j <= k <= m ==> Ahead(states, target, m, up) <= Ahead(states, target, k, up) <= Ahead(states, target, j, up)
    decreases n
  {
    assert |states| == |inputs| + 1;
    hide Quantum, Travel, Session;
    if n > 0 {
      MaxStepIsNotNegative(l);
      FallsAt(states, inputs, target, l, j, up);
      CarriesOver(states, inputs, target, l, j + 1, n - 1, up);
    }
  }

  /** Having stopped past the target within the bound, a stride back is contained. */
  lemma TurnedBack(e: real, x': real, a: real, eps: real)
    requires a >= 0.0 && eps >= 0.0 && e <= 0.0 && -a <= x' <= 0.0 && e >= -(5.0 * eps / 2.0 + 9.0 * a / 8.0)
    ensures Contained(e - x', x', a, eps) && Contained(x' - e, -x', a, eps)
  {
    if x' - e <= eps && -x' > a / 2.0 {
      var room := Name(Room(x' - e, eps, a));
      SquareMono(-x' - a / 2.0, a / 2.0, (-x' - a / 2.0) * (-x' - a / 2.0), a * a / 4.0);
      MulMono(a, a / 8.0, room, a * (a / 8.0), a * room);
    }
  }

  lemma ContainedAfter(states: seq<Command>, inputs: seq<Input>, target: real, l: Limits, m: nat, up: bool)
    requires Sane(l) && Session(states, inputs, target, l) && m < |inputs|
    requires 0.0 < Stride(states, l, m, up) <= Quantum(l) && -Reachable(l) <= Ahead(states, target, m, up) <= 0.0
    ensures Below(states, target, l, m + 1) && Above(states, target, l, m + 1)
  {
    StopsAt(states, inputs, target, l, m, up);
    MaxStepIsNotNegative(l);
    hide Contained, Quantum, Travel, Session;
    TurnedBack(Ahead(states, target, m, up), Stride(states, l, m + 1, up), Quantum(l), l.brakeEps);
    assert -(-Gap(states, target, m + 1)) == Gap(states, target, m + 1);
  }

  /** The exact condition where nothing can hold the axis back. From any cycle at which it moves
      too fast to stop before the target, in the band or past it, the bound holds for good if
      and only if the distance it takes to shed that velocity fits: what it carries is no more
      than the gap and the bound together. */
  lemma BandIsExact(states: seq<Command>, inputs: seq<Input>, target: real, l: Limits, j: nat, n: nat, up: bool)
    requires Sane(l) && Session(states, inputs, target, l) && j + n < |states|
    requires Carried(states, target, l, j, up) && Takes(Stride(states, l, j, up), Quantum(l), n)
    ensures (forall k :: j <= k < |states| ==> Abs(Gap(states, target, k)) <= Reachable(l))
            <==> Carry(Stride(states, l, j, up), Quantum(l), n) <= Ahead(states, target, j, up) + Reachable(l)
  {
    var m := j + n;
    CarriesOver(states, inputs, target, l, j, n, up);
    MaxStepIsNotNegative(l);
    hide Quantum, Travel, Session, Contained;
    if Carry(Stride(states, l, j, up), Quantum(l), n) <= Ahead(states, target, j, up) + Reachable(l) {
      forall k | j <= k < |states| ensures Abs(Gap(states, target, k)) <= Reachable(l) {
        if k > m {
          ContainedAfter(states, inputs, target, l, m, up);
          StaysContained(states, inputs, target, l, m + 1, k);
          WithinReach(states, target, l, k);
        } else {
          assert Ahead(states, target, m, up) <= Ahead(states, target, k, up) <= Ahead(states, target, j, up);
        }
      }
    } else {
      assert Abs(Gap(states, target, m)) > Reachable(l);
    }
  }

  lemma WithinReach(states: seq<Command>, target: real, l: Limits, k: nat)
    requires Sane(l) && k < |states| && Below(states, target, l, k) && Above(states, target, l, k)
    ensures Abs(Gap(states, target, k)) <= Reachable(l)
  {
    MaxStepIsNotNegative(l);
    hide Quantum, Travel;
  }

  // ----- from inside the band on -----

  predicate CarriedAt(states: seq<Command>, target: real, l: Limits, k: nat)
    requires k < |states|
  {
    Carried(states, target, l, k, true) || Carried(states, target, l, k, false)
  }

  lemma WantedSign(c: Command, i: Input, l: Limits, target: real)
    requires Sane(l) && Steers(c, i, target, l) && target - c.m.pos >= 0.0
    ensures Wanted(c, i, l.dt) >= 0.0
  {
    var e := target - c.m.pos;
    QuotientReach(-e, l.dt, l.dt);
    QuotientIsOdd(e, l.dt);
    if i.frameSec > l.dt {
      QuotientReach(-e, i.frameSec, l.dt);
      QuotientIsOdd(e, i.frameSec);
    }
    hide IsRoot, Travel;
  }

  lemma NotBelowZero(vel: real, candidate: real, err: real, root: real, l: Limits)
    requires Sane(l) && 0.0 <= err <= l.brakeEps && vel >= 0.0 && candidate >= 0.0
    ensures Guard(vel, 0.0, candidate, err, root, l).vel >= 0.0
  {
    AccelClampIsOneStep(vel, candidate, l);
    hide AccelClamp, MaxStep;
  }

  /** A cycle in the band that can still stop short: it moves towards the target or not at all,
      and does not pass it. */
  lemma ApproachingCycle(c: Command, i: Input, target: real, l: Limits)
    requires Sane(l) && AtRest(c.e, target) && Steers(c, i, target, l) && 0.0 <= target - c.m.pos <= l.brakeEps
    requires var x := Travel(c.m.vel, l.dt); c.m.vel >= 0.0 && (x <= 0.0 || target - c.m.pos > Max(0.0, x - Quantum(l)))
    ensures var n := Next(c, i, l); n.m.vel >= 0.0 && 0.0 <= target - n.m.pos <= target - c.m.pos
  {
    var e := target - c.m.pos;
    var candidate := Wanted(c, i, l.dt);
    var n := Next(c, i, l).m.vel;
    SteeredCycle(c, i, target, l);
    WantedSign(c, i, l, target);
    NotBelowZero(c.m.vel, candidate, e, i.root, l);
    StrideAbove(c.m.vel, l);
    MaxStepIsNotNegative(l);
    TravelStep(c.m.vel, l);
    TravelMono(0.0, n, l.dt);
    if e > 0.0 {
      InBand(c.m.vel, candidate, e, i.root, l);
      hide Next, Wanted, Guard, IsRoot, Quantum, Travel, MaxStep;
      StaysShort(n, c.m.vel, candidate, e, l);
    } else {
      RootIsNotNegative(i.root, l.amax, e);
      PastTarget(c.m.vel, candidate, e, i.root, l);
    }
    hide Next, Wanted, Guard, IsRoot, Quantum, Travel;
  }

  lemma StaysShort(n: real, vel: real, candidate: real, e: real, l: Limits)
    requires Sane(l) && e > 0.0 && Travel(candidate, l.dt) <= e && Travel(vel - MaxStep(l), l.dt) <= e
    requires n <= 0.0 || n <= vel - MaxStep(l) || n <= candidate
    ensures Travel(n, l.dt) <= e
  {
    hide MaxStep, Travel;
    if n <= 0.0 {
      TravelMono(n, 0.0, l.dt);
    } else if n <= candidate {
      TravelMono(n, candidate, l.dt);
    } else {
      TravelMono(n, vel - MaxStep(l), l.dt);
    }
  }

  predicate SlowEnough(states: seq<Command>, l: Limits, k: nat)
    requires k < |states|
  {
    Abs(states[k].m.vel) <= l.vmax
  }

  lemma {:induction false} SpeedHolds(states: seq<Command>, inputs: seq<Input>, target: real, l: Limits, k: nat)
    requires Sane(l) && Session(states, inputs, target, l) && k < |states| && SlowEnough(states, l, 0)
    ensures SlowEnough(states, l, k)
  {
    if k > 0 {
      var c, i := states[k - 1], inputs[k - 1];
      assert states[k - 1 + 1] == Next(c, i, l);
      EstimateStaysZero(states, inputs, target, l, k - 1);
      SteeredCycle(c, i, target, l);
      VelocityBounds(c.m.vel, 0.0, Wanted(c, i, l.dt), target - c.m.pos, i.root, l);
      hide Next, Guard, Wanted, Session, Steers;
    }
  }

  /** Between the start and the target. */
  predicate Short(states: seq<Command>, target: real, k: nat)
    requires k < |states|
  {
    var g := Gap(states, target, 0);
    if g >= 0.0 then 0.0 <= Gap(states, target, k) <= g else g <= Gap(states, target, k) <= 0.0
  }

  /** A cycle in the band that is not carried moves, if at all, towards the target, and can stop. */
  lemma NotCarried(c: Command, target: real, l: Limits, up: bool)
    requires Sane(l) && Abs(c.m.vel) <= l.vmax && 0.0 <= (if up then target - c.m.pos else c.m.pos - target) <= l.brakeEps
    requires !CarriedAt([c], target, l, 0)
    ensures var v := if up then c.m.vel else -c.m.vel; var e := if up then target - c.m.pos else c.m.pos - target;
      v >= 0.0 && (Travel(v, l.dt) <= 0.0 || e > Max(0.0, Travel(v, l.dt) - Quantum(l)))
  {
    StrideAbove(c.m.vel, l);
    StrideAbove(-c.m.vel, l);
    TravelIsOdd(c.m.vel, l.dt);
    hide Travel, Quantum, MaxStep;
    assert !Carried([c], target, l, 0, up) && !Carried([c], target, l, 0, !up);
  }

  lemma ApproachesAt(states: seq<Command>, inputs: seq<Input>, target: real, l: Limits, k: nat, up: bool)
    requires Sane(l) && Session(states, inputs, target, l) && k < |inputs| && SlowEnough(states, l, k)
    requires 0.0 <= Ahead(states, target, k, up) <= l.brakeEps && !CarriedAt(states, target, l, k)
    ensures 0.0 <= Ahead(states, target, k + 1, up) <= Ahead(states, target, k, up)
  {
    EstimateStaysZero(states, inputs, target, l, k);
    var c, i := states[k], inputs[k];
    assert states[k + 1] == Next(c, i, l);
    hide Next, Travel, Quantum, Steers, AtRest;
    assert !CarriedAt([c], target, l, 0);
    assert c.m.pos - target == -Gap(states, target, k);
    NotCarried(c, target, l, up);
    if up {
      ApproachingCycle(c, i, target, l);
    } else {
      ReflectedCycle(c, i, target, l);
      assert -target - Reflect(c).m.pos == -Gap(states, target, k);
      ApproachingCycle(Reflect(c), ReflectInput(i), -target, l);
    }
  }

  /** Until the first cycle at which it can no longer stop short, a run from inside the band
      does not pass the target and does not leave the stretch between it and the start. */
  lemma {:induction false} ShortUntilCarried(states: seq<Command>, inputs: seq<Input>, target: real, l: Limits, k: nat)
    requires Sane(l) && Session(states, inputs, target, l) && k < |states|
    requires Abs(Gap(states, target, 0)) <= l.brakeEps && SlowEnough(states, l, 0)
    requires forall j :: 0 <= j < k ==> !CarriedAt(states, target, l, j)
    ensures Short(states, target, k)
  {
    hide Session, CarriedAt;
    if k > 0 {
      assert |states| == |inputs| + 1 by { SessionLength(states, inputs, target, l); }
      ShortUntilCarried(states, inputs, target, l, k - 1);
      SpeedHolds(states, inputs, target, l, k - 1);
      ApproachesAt(states, inputs, target, l, k - 1, Gap(states, target, 0) >= 0.0);
    }
  }

  lemma SessionLength(states: seq<Command>, inputs: seq<Input>, target: real, l: Limits)
    requires Sane(l) && Session(states, inputs, target, l)
    ensures |states| == |inputs| + 1
  {}

  /** So every start inside the band is decided: with no cycle that cannot stop short the run
      keeps to its side of the target, within the band; otherwise the bound holds throughout if
      and only if what the first such cycle carries fits. */
  lemma EveryStartIsDecided(states: seq<Command>, inputs: seq<Input>, target: real, l: Limits, j: nat, n: nat, up: bool)
    requires Sane(l) && Session(states, inputs, target, l) && j + n < |states|
    requires Abs(Gap(states, target, 0)) <= l.brakeEps && SlowEnough(states, l, 0)
    requires forall k :: 0 <= k < j ==> !CarriedAt(states, target, l, k)
    requires Carried(states, target, l, j, up) && Takes(Stride(states, l, j, up), Quantum(l), n)
    ensures (forall k :: 0 <= k < |states| ==> Abs(Gap(states, target, k)) <= Reachable(l))
            <==> Carry(Stride(states, l, j, up), Quantum(l), n) <= Ahead(states, target, j, up) + Reachable(l)
  {
    BandIsExact(states, inputs, target, l, j, n, up);
    MaxStepIsNotNegative(l);
    hide Quantum, Travel, Session, CarriedAt, Carried, Takes, Carry;
    forall k | 0 <= k < j ensures Abs(Gap(states, target, k)) <= Reachable(l) {
      ShortUntilCarried(states, inputs, target, l, k);
    }
  }

  /** And such cycles come about: braking is off in the band, so a fast axis started there
      passes the target by more than the bound. */
  lemma InsideTheBandNothingBrakes()
    ensures exists states, inputs, target, l, k: nat ::
      && Sane(l) && Session(states, inputs, target, l) && k < |states|
      && 0.0 < Gap(states, target, 0) <= l.brakeEps && Gap(states, target, k) < -Reachable(l)
  {
    var l := Limits(1.0, 100.0, 2.0, 4.0);
    var c := Seeded(0.0, 100.0);
    var i := Input(Bypass, At(4.0), 0.0, 4.0);
    var states, inputs := [c, Next(c, i, l)], [i];
    assert Session(states, inputs, 4.0, l);
    assert Gap(states, 4.0, 1) == -94.0;
  }
}
