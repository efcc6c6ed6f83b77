/** The overshoot bound when the braking clamp is off in a band around the target (brakeEps,
    a few counts): what the guard still guarantees for a start outside the band, or inside it at
    a velocity that can be stopped there. */
module BrakingBand {
  import opened RealArithmetic
  import opened CommandConditioner
  import opened CommandSafety

  /** Inside the band the acceleration clamp alone bounds the velocity. */
  lemma InBand(vel: real, candidate: real, err: real, root: real, l: Limits)
    requires Sane(l) && 0.0 < err <= l.brakeEps
    ensures var out := Guard(vel, 0.0, candidate, err, root, l).vel;
      out <= 0.0 || out <= vel - MaxStep(l) || (out <= candidate && out <= vel + MaxStep(l))
  {
    AccelClampIsOneStep(vel, candidate, l);
    hide AccelClamp, MaxStep;
  }

  // ----- stopping -----

  /** A stride `x` that shrinks by `a` each cycle is spent within the room `k`. */
  predicate Stops(x: real, a: real, k: real) {
    k >= 0.0 && (x > a / 2.0 ==> (x - a / 2.0) * (x - a / 2.0) <= 2.0 * (a * k))
  }

  lemma SquareMono(u: real, v: real, uu: real, vv: real)
    requires 0.0 <= u <= v && uu == u * u && vv == v * v
    ensures uu <= vv
  {
    var uv := Name(u * v);
    MulMono(u, u, v, uu, uv);
    MulMono(v, u, v, uv, vv);
  }

  /** A decelerating stride uses up exactly the room it travels. */
  lemma Decelerate(x: real, x': real, a: real, k: real)
    requires a >= 0.0 && 0.0 < x' <= x - a && Stops(x, a, k)
    ensures Stops(x', a, k - x')
  {
    var square := Name((x - a / 2.0) * (x - a / 2.0));
    var sum := Name((x' + a / 2.0) * (x' + a / 2.0));
    var diff := Name((x' - a / 2.0) * (x' - a / 2.0));
    var room := Name(a * (k - x'));
    SquareMono(x' + a / 2.0, x - a / 2.0, sum, square);
    Square(x' - a / 2.0, diff);
    assert diff <= 2.0 * room;
    if a > 0.0 {
      Cancel(a, 0.0, k - x', 0.0, room);
    } else {
      MulPositive(x', x', diff);
    }
  }

  /** A stride that grows by at most `a` needs at most the room it travels more. */
  lemma Accelerate(x: real, x': real, a: real, k: real)
    requires a >= 0.0 && 0.0 < x' <= x + a && Stops(x, a, k)
    ensures Stops(x', a, k + x')
  {
    var y := Name(x' - a / 2.0);
    var yy := Name(y * y);
    var ak := Name(a * k);
    var ax := Name(a * x');
    var aa := Name(a * a);
    MulNonNegative(a, k, ak);
    Square(a, aa);
    if y > a {
      var square := Name((x - a / 2.0) * (x - a / 2.0));
      var r := Name((y - a) * (y - a));
      SquareMono(y - a, x - a / 2.0, r, square);
      assert yy == r + 2.0 * ax - 2.0 * aa;
    } else if y > 0.0 {
      MulMono(y, y, a, yy, ax - aa / 2.0);
      MulNonNegative(a, x', ax);
    }
    assert a * (k + x') == ak + ax;
  }

  /** How far a stride may carry from the gap `e` inside the band or past the target. */
  function Room(e: real, eps: real, a: real): real {
    (if e <= 0.0 then e + 2.0 * eps else 2.0 * eps - e) + eps / 2.0 + 9.0 * a / 8.0
  }

  /** A stride at the square root that ends in the band or beyond stops within the room. */
  lemma Enter(e: real, x: real, xx: real, a: real, eps: real, aex: real)
    requires a >= 0.0 && eps >= 0.0 && x > 0.0 && e <= eps
    requires xx == x * x && aex == a * (e + x) && xx <= 2.0 * aex
    ensures Stops(x, a, Room(e, eps, a))
  {
    var aa := Name(a * a);
    var ae := Name(a * e);
    var ax := Name(a * x);
    var ap := Name(a * eps);
    assert aex == ae + ax;
    var m := Name((x - a) * (x - a));
    assert m == xx - 2.0 * ax + aa;
    Square(x - a, m);
    Square(a, aa);
    MulPositive(x, x, xx);
    if a == 0.0 {
      assert false;
    }
    MulMono(a, e, eps, ae, ap);
    MulNonNegative(a, eps, ap);
    Cancel(a, -a / 2.0, e, -aa / 2.0, ae);
    Reach(e, x, a, eps, m, aa, ae, ax, ap);
    var square := Name((x - a / 2.0) * (x - a / 2.0));
    assert square == xx - ax + aa / 4.0;
    assert a * Room(e, eps, a) == (if e <= 0.0 then ae + 2.0 * ap else 2.0 * ap - ae) + ap / 2.0 + 9.0 * aa / 8.0;
  }

  lemma Reach(e: real, x: real, a: real, eps: real, m: real, aa: real, ae: real, ax: real, ap: real)
    requires a > 0.0 && eps >= 0.0 && e <= eps
    requires m == (x - a) * (x - a) && aa == a * a && ae == a * e && ax == a * x && ap == a * eps
    requires m <= 2.0 * ae + aa
    ensures if e <= 0.0 then ax <= 2.0 * aa else ax <= 2.0 * aa + ap
  {
    if e <= 0.0 {
      MulNonNegative(a, -e, -ae);
      SquareRootMono(x - a, a, m, aa);
      MulMono(a, x, 2.0 * a, ax, 2.0 * aa);
    } else {
      MulMono(a, e, eps, ae, ap);
      var w := Name((a + eps) * (a + eps));
      Square(eps, eps * eps);
      assert w == aa + 2.0 * ap + eps * eps;
      SquareRootMono(x - a, a + eps, m, w);
      MulMono(a, x, 2.0 * a + eps, ax, 2.0 * aa + ap);
    }
  }

  lemma Widen(x: real, a: real, k: real, k': real)
    requires a >= 0.0 && k <= k' && Stops(x, a, k)
    ensures Stops(x, a, k')
  {
    MulMono(a, k, k', a * k, a * k');
  }

  /** Whatever is carried into the band or past the target stops within the room there. */
  predicate Contained(e: real, x: real, a: real, eps: real) {
    e <= eps ==> Stops(x, a, Room(e, eps, a))
  }

  /** The three ways a stride can follow another inside the band or past the target. */
  lemma NextStride(e: real, x: real, x': real, a: real, eps: real)
    requires a >= 0.0 && eps >= 0.0 && e <= eps && Stops(x, a, Room(e, eps, a))
    requires x' <= 0.0 || x' <= x - a || (0.0 < e && x' <= e && x' <= x + a)
    ensures Contained(e - x', x', a, eps)
  {
    var k, k' := Room(e, eps, a), Room(e - x', eps, a);
    if e - x' <= eps && x' > 0.0 {
      if x' <= x - a {
        Decelerate(x, x', a, k);
        hide Stops;
        Widen(x', a, k - x', k');
      } else {
        Accelerate(x, x', a, k);
        hide Stops;
        Widen(x', a, k + x', k');
      }
    }
  }

  /** A cycle from outside the band. */
  lemma StepFromOutside(e: real, vel: real, root: real, l: Limits, x: real)
    requires Sane(l) && e > l.brakeEps && vel <= root && IsRoot(root, l.amax, e) && x == Travel(vel, l.dt)
    ensures Contained(e - x, x, Quantum(l), l.brakeEps)
  {
    var a := Name(l.amax * l.dt * l.dt);
    assert Quantum(l) == a;
    MaxStepIsNotNegative(l);
    var y := Name(root * l.dt);
    var yy := Name(y * y);
    var xx := Name(x * x);
    var ae := Name(a * e);
    assert yy == 2.0 * ae by {
      assert yy == (root * root) * l.dt * l.dt;
    }
    MulMono(l.dt, vel, root, x, y);
    hide Quantum, Travel, Stops, IsRoot;
    if x > 0.0 {
      SquareMono(x, y, xx, yy);
      if e - x <= l.brakeEps {
        Enter(e - x, x, xx, a, l.brakeEps, ae);
      }
    }
  }

  lemma TravelMono(u: real, v: real, dt: real)
    requires dt > 0.0 && u <= v
    ensures Travel(u, dt) <= Travel(v, dt) && Travel(0.0, dt) == 0.0
  {
    MulMono(dt, u, v, u * dt, v * dt);
  }

  lemma TravelStep(v: real, l: Limits)
    ensures Travel(v - MaxStep(l), l.dt) == Travel(v, l.dt) - Quantum(l)
    ensures Travel(v + MaxStep(l), l.dt) == Travel(v, l.dt) + Quantum(l)
  {
    var step := Name(MaxStep(l));
    hide MaxStep;
  }

  /** A cycle from inside the band or past the target. */
  lemma StepFromInside(e: real, before: real, vel: real, candidate: real, l: Limits, x: real, x': real)
    requires Sane(l) && e <= l.brakeEps && x == Travel(before, l.dt) && x' == Travel(vel, l.dt)
    requires vel <= 0.0 || vel <= before - MaxStep(l)
          || (0.0 < e && vel <= candidate && vel <= before + MaxStep(l) && Travel(candidate, l.dt) <= e)
    requires Contained(e, x, Quantum(l), l.brakeEps)
    ensures Contained(e - x', x', Quantum(l), l.brakeEps)
  {
    MaxStepIsNotNegative(l);
    TravelStep(before, l);
    var a := Name(Quantum(l));
    if vel <= 0.0 {
      TravelMono(vel, 0.0, l.dt);
    } else if vel <= before - MaxStep(l) {
      TravelMono(vel, before - MaxStep(l), l.dt);
    } else {
      TravelMono(vel, before + MaxStep(l), l.dt);
      TravelMono(vel, candidate, l.dt);
    }
    hide Quantum, MaxStep, Travel, Stops, Room;
    NextStride(e, x, x', a, l.brakeEps);
  }

  /** One cycle, seen from below the target. */
  lemma CycleFromBelow(c: Command, i: Input, target: real, l: Limits)
    requires Sane(l) && AtRest(c.e, target) && Steers(c, i, target, l)
    requires Contained(target - c.m.pos, Travel(c.m.vel, l.dt), Quantum(l), l.brakeEps)
    ensures var n := Next(c, i, l); Contained(target - n.m.pos, Travel(n.m.vel, l.dt), Quantum(l), l.brakeEps)
  {
    SteeredCycle(c, i, target, l);
    var n := Next(c, i, l);
    var e := target - c.m.pos;
    var candidate := Wanted(c, i, l.dt);
    hide Next, Wanted, Travel;
    if e > l.brakeEps {
      ShortOfTarget(c.m.vel, candidate, e, i.root, l);
      hide Guard, Quantum, IsRoot, Contained;
      StepFromOutside(e, n.m.vel, i.root, l, Travel(n.m.vel, l.dt));
    } else {
      if e > 0.0 {
        InBand(c.m.vel, candidate, e, i.root, l);
      } else {
        PastTarget(c.m.vel, candidate, e, i.root, l);
      }
      hide Guard, Quantum, IsRoot, Contained, MaxStep;
      StepFromInside(e, c.m.vel, n.m.vel, candidate, l, Travel(c.m.vel, l.dt), Travel(n.m.vel, l.dt));
    }
  }

  /** One cycle, seen from above the target. */
  lemma CycleFromAbove(c: Command, i: Input, target: real, l: Limits)
    requires Sane(l) && AtRest(c.e, target) && Steers(c, i, target, l)
    requires Contained(c.m.pos - target, -Travel(c.m.vel, l.dt), Quantum(l), l.brakeEps)
    ensures var n := Next(c, i, l); Contained(n.m.pos - target, -Travel(n.m.vel, l.dt), Quantum(l), l.brakeEps)
  {
    ReflectedCycle(c, i, target, l);
    hide Next, Contained, Steers, Travel, Quantum, AtRest;
    CycleFromBelow(Reflect(c), ReflectInput(i), -target, l);
  }

  // ----- whole runs -----

  predicate Below(states: seq<Command>, target: real, l: Limits, k: nat)
    requires k < |states|
  {
    Contained(Gap(states, target, k), Travel(states[k].m.vel, l.dt), Quantum(l), l.brakeEps)
  }

  predicate Above(states: seq<Command>, target: real, l: Limits, k: nat)
    requires k < |states|
  {
    Contained(-Gap(states, target, k), -Travel(states[k].m.vel, l.dt), Quantum(l), l.brakeEps)
  }

  lemma CycleOfBand(states: seq<Command>, inputs: seq<Input>, target: real, l: Limits, k: nat)
    requires Sane(l) && Session(states, inputs, target, l) && k < |inputs|
    ensures Below(states, target, l, k) ==> Below(states, target, l, k + 1)
    ensures Above(states, target, l, k) ==> Above(states, target, l, k + 1)
    ensures Gap(states, target, k + 1) == Gap(states, target, k) - Travel(states[k + 1].m.vel, l.dt)
  {
    EstimateStaysZero(states, inputs, target, l, k);
    SteeredCycle(states[k], inputs[k], target, l);
    assert states[k + 1] == Next(states[k], inputs[k], l);
    hide Next, Guard, Travel, Quantum, Wanted, Contained, Steers;
    assert -Gap(states, target, k) == states[k].m.pos - target;
    assert -Gap(states, target, k + 1) == states[k + 1].m.pos - target;
    if Below(states, target, l, k) {
      CycleFromBelow(states[k], inputs[k], target, l);
    }
    if Above(states, target, l, k) {
      CycleFromAbove(states[k], inputs[k], target, l);
    }
  }

  /** Outside the band, on the side of the target the run started from. */
  predicate OutsideYet(states: seq<Command>, target: real, eps: real, k: nat)
    requires k < |states|
  {
    if Gap(states, target, 0) > 0.0 then Gap(states, target, k) > eps else Gap(states, target, k) < -eps
  }

  /** A stride towards one side needs no room on the other. */
  lemma Backwards(e: real, x: real, a: real, eps: real)
    requires a >= 0.0 && eps >= 0.0 && x <= 0.0 && e >= -eps
    ensures Contained(e, x, a, eps)
  {}

  lemma {:induction false} ContainedOnceInside(states: seq<Command>, inputs: seq<Input>, target: real, l: Limits, k: nat)
    requires Sane(l) && Session(states, inputs, target, l)
    requires k < |states| && Abs(Gap(states, target, 0)) > l.brakeEps
    ensures Gap(states, target, 0) > 0.0 ==> Below(states, target, l, k)
    ensures Gap(states, target, 0) < 0.0 ==> Above(states, target, l, k)
    ensures OutsideYet(states, target, l.brakeEps, k) || (Below(states, target, l, k) && Above(states, target, l, k))
  {
    MaxStepIsNotNegative(l);
    hide Quantum, Travel;
    if k > 0 {
      ContainedOnceInside(states, inputs, target, l, k - 1);
      CycleOfBand(states, inputs, target, l, k - 1);
      var e, x, a := Gap(states, target, k), Travel(states[k].m.vel, l.dt), Quantum(l);
      if OutsideYet(states, target, l.brakeEps, k - 1) {
        if x > 0.0 && e <= l.brakeEps {
          Backwards(-e, -x, a, l.brakeEps);
        }
        if x < 0.0 && -e <= l.brakeEps {
          Backwards(e, x, a, l.brakeEps);
        }
      }
      hide Contained;
    }
  }

  lemma {:induction false} StaysContained(states: seq<Command>, inputs: seq<Input>, target: real, l: Limits, j: nat, k: nat)
    requires Sane(l) && Session(states, inputs, target, l)
    requires j <= k < |states| && Below(states, target, l, j) && Above(states, target, l, j)
    ensures Below(states, target, l, k) && Above(states, target, l, k)
    decreases k
  {
    if j < k {
      StaysContained(states, inputs, target, l, j, k - 1);
      CycleOfBand(states, inputs, target, l, k - 1);
    }
  }

  /** The bound with a band of `eps` = brakeEps: 5/2 of the band and 9/8 of amax*dt*dt. */
  function Reachable(l: Limits): real { 5.0 * l.brakeEps / 2.0 + 9.0 * Quantum(l) / 8.0 }

  /** A start the band's bound covers: outside the band at any velocity, or inside it at one
      that the room there can stop, in both directions. */
  predicate Covered(states: seq<Command>, target: real, l: Limits)
    requires states != []
  {
    Abs(Gap(states, target, 0)) > l.brakeEps || (Below(states, target, l, 0) && Above(states, target, l, 0))
  }

  /** The overshoot bound with the band, from any start it covers: the position is never
      further past the target than the bound, and once the band is entered it stays within
      the bound for good. */
  lemma BandBound(states: seq<Command>, inputs: seq<Input>, target: real, l: Limits, k: nat)
    requires Sane(l) && Session(states, inputs, target, l)
    requires k < |states| && Covered(states, target, l)
    ensures Gap(states, target, 0) > 0.0 ==> Gap(states, target, k) >= -Reachable(l)
    ensures Gap(states, target, 0) < 0.0 ==> Gap(states, target, k) <= Reachable(l)
    ensures forall j :: 0 <= j <= k && !OutsideYet(states, target, l.brakeEps, j) ==>
      Abs(Gap(states, target, k)) <= Reachable(l)
  {
    MaxStepIsNotNegative(l);
    hide Quantum, Travel;
    if Abs(Gap(states, target, 0)) <= l.brakeEps {
      StaysContained(states, inputs, target, l, 0, k);
    } else {
      ContainedOnceInside(states, inputs, target, l, k);
      forall j | 0 <= j <= k && !OutsideYet(states, target, l.brakeEps, j)
        ensures Abs(Gap(states, target, k)) <= Reachable(l)
      {
        ContainedOnceInside(states, inputs, target, l, j);
        StaysContained(states, inputs, target, l, j, k);
      }
    }
  }
}
