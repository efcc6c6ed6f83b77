/** What the fault monitor guarantees: over any sequence of its operations, and over whole runs
    of the control loop's cycle with a drive that faults as it likes. */
module DriveLockout {
  import opened A6Drive
  import opened DriveFault

  // ----- any operations, on any drives -----

  datatype Op = Step(i: nat, d: Drive, ins: Inputs, state: DriveState, cycle: nat) | ClearLockout(i: nat) | ClearAll

  function StepOn(ts: seq<Track>, op: Op, setup: Setup): Outcome
    requires op.Step? && op.i < |ts|
  {
    TrackStep(ts[op.i], op.d, op.ins, setup, op.state, op.cycle, OthersSeen(ts, op.i))
  }

  function Apply(ts: seq<Track>, op: Op, setup: Setup): (us: seq<Track>)
    ensures |us| == |ts|
  {
    match op
    case Step(i, _, _, _, _) => if i < |ts| then ts[i := StepOn(ts, op, setup).t] else ts
    case ClearLockout(i) => if i < |ts| then ts[i := Cleared(ts[i])] else ts
    case ClearAll => seq(|ts|, _ => CLEAN)
  }

  function Run(ts: seq<Track>, ops: seq<Op>, setup: Setup): seq<Track>
    decreases |ops|
  {
    if ops == [] then ts else Run(Apply(ts, ops[0], setup), ops[1..], setup)
  }

  /** Retries stay within the budget, a locked drive has spent it on a fault that is still
      seen, and a reset attempt belongs to a seen fault. */
  predicate Sound(t: Track) {
    && t.retries <= MAX_FAULT_RETRIES
    && (t.locked ==> t.faultSeen && t.retries == MAX_FAULT_RETRIES)
    && (t.resetActive ==> t.faultSeen)
  }

  predicate AllSound(ts: seq<Track>) { forall k :: 0 <= k < |ts| ==> Sound(ts[k]) }

  lemma ApplyKeepsSound(ts: seq<Track>, op: Op, setup: Setup)
    requires AllSound(ts)
    ensures AllSound(Apply(ts, op, setup))
  {
    hide ResetStep, ResetCleared, Elapsed;
  }

  lemma {:induction false} RunKeepsSound(ts: seq<Track>, ops: seq<Op>, setup: Setup)
    requires AllSound(ts)
    ensures AllSound(Run(ts, ops, setup))
    decreases |ops|
  {
    hide AllSound, Apply;
    if ops != [] {
      ApplyKeepsSound(ts, ops[0], setup);
      RunKeepsSound(Apply(ts, ops[0], setup), ops[1..], setup);
    }
  }

  /** The all-clear for re-homing is raised exactly when a step ends a seen fault and no other
      drive has one; then no drive is locked out either. */
  lemma AllClear(ts: seq<Track>, ops: seq<Op>, op: Op, setup: Setup)
    requires AllSound(ts) && op.Step? && op.i < |ts| == |Run(ts, ops, setup)|
    ensures var before := Run(ts, ops, setup); var o := StepOn(before, op, setup); var after := Apply(before, op, setup);
      && (o.r.allClearRehome <==>
            (before[op.i].faultSeen || o.r.firstFaultSeen) && forall j :: 0 <= j < |after| ==> !after[j].faultSeen)
      && (o.r.allClearRehome ==> forall j :: 0 <= j < |after| ==> !after[j].locked)
  {
    RunKeepsSound(ts, ops, setup);
    var before := Run(ts, ops, setup);
    ApplyKeepsSound(before, op, setup);
    hide Run, ResetStep, ResetCleared, Elapsed;
    var after := Apply(before, op, setup);
    AnyOtherSeen(before, op.i, after);
  }

  lemma AnyOtherSeen(ts: seq<Track>, i: nat, us: seq<Track>)
    requires i < |ts| == |us| && us == ts[i := us[i]]
    ensures (forall j :: 0 <= j < |us| ==> !us[j].faultSeen) <==> !us[i].faultSeen && !OthersSeen(ts, i)
  {
    if !us[i].faultSeen {
      AnyIsOthers(ts, i, us);
    }
  }

  /** Nothing but a cleared lockout or a reset of the monitor ends a lockout, and until then
      every step asks for the drive to be disabled and nothing else. */
  lemma {:induction false} LockoutStays(ts: seq<Track>, ops: seq<Op>, i: nat, setup: Setup)
    requires i < |ts| && ts[i].locked
    requires forall k :: 0 <= k < |ops| ==> ops[k] != ClearLockout(i) && !ops[k].ClearAll?
    ensures i < |Run(ts, ops, setup)| && Run(ts, ops, setup)[i] == ts[i]
    ensures forall k :: 0 <= k < |ops| && ops[k].Step? && ops[k].i == i ==>
      TrackStep(ts[i], ops[k].d, ops[k].ins, setup, ops[k].state, ops[k].cycle, OthersSeen(ts, i)).r == PROCEED.(disable := true)
    decreases |ops|
  {
    if ops != [] {
      LockoutStays(Apply(ts, ops[0], setup), ops[1..], i, setup);
    }
  }

  /** What a step reports, in terms of the track before and after it: the first sight of a fault,
      the moment of the lockout and nothing after it, the seed when the reset cleared the fault,
      and a skipped enable machine exactly while a fault is being handled. */
  lemma ResultsAreExact(t: Track, d: Drive, i: Inputs, setup: Setup, state: DriveState, cycle: nat, others: bool)
    ensures var o := TrackStep(t, d, i, setup, state, cycle, others); var faulted := Faulted(state) && !t.locked;
      && (o.r.firstFaultSeen <==> faulted && !t.faultSeen)
      && (o.r.lockoutJustOccurred <==> !t.locked && o.t.locked)
      && (o.r.disable <==> o.t.locked)
      && (o.r.seedPosition <==> faulted && !o.t.faultSeen)
      && (o.r.skipEnableSM <==> faulted && o.t.faultSeen && !o.t.locked)
      && (o.r.seedPosition ==> !o.t.resetActive && o.t.opEnabledSince == 0 && o.t.healthyCycle == cycle && (o.r.allClearRehome <==> !others))
      && (o.t.locked && !t.locked ==> state == Fault && t.retries >= MAX_FAULT_RETRIES && o.d == d)
      && (faulted && o.t.retries > t.retries ==> state == Fault && o.t.retries == t.retries + 1 && !(t.faultSeen && t.resetActive))
      && (!Faulted(state) ==> o.d == d)
  {
    hide ResetStep, ResetCleared, Elapsed;
  }

  /** The cycle counter wraps at 64 bits, and the distance is taken across the wrap. */
  lemma ElapsedWraps(now: nat, before: nat)
    requires now < 0x1_0000_0000_0000_0000 && before < 0x1_0000_0000_0000_0000
    ensures 0 <= Elapsed(now, before) < 0x1_0000_0000_0000_0000
    ensures (before + Elapsed(now, before)) % 0x1_0000_0000_0000_0000 == now
  {
    assert now % 0x1_0000_0000_0000_0000 == now && (now + 0x1_0000_0000_0000_0000) % 0x1_0000_0000_0000_0000 == now;
  }

  /** When a fault that was seen counts as recovered: after a hundred cycles in Operation Enabled
      without a break, as the drive shows it; anything else starts them over. `since`: the cycle
      of the first. */
  lemma RecoversAfterAHundred(t: Track, d: Drive, i: Inputs, setup: Setup, state: DriveState, cycle: nat, others: bool)
    requires !t.locked && t.faultSeen && !Faulted(state) && t.opEnabledSince <= cycle
    ensures var o := TrackStep(t, d, i, setup, state, cycle, others); var since := if t.opEnabledSince == 0 then cycle else t.opEnabledSince;
      && (!o.t.faultSeen <==> state == OperationEnabled && cycle - since >= 100)
      && (!o.t.faultSeen ==> o.t.healthyCycle == cycle && !o.t.resetActive && o.t.opEnabledSince == since && (o.r.allClearRehome <==> !others))
      && (o.t.faultSeen ==> o.t.opEnabledSince == if state == OperationEnabled then since else 0)
      && (o.t.faultSeen ==> o.t.healthyCycle == t.healthyCycle && o.t.resetActive == t.resetActive)
  {}

  /** A cleared lockout starts the drive over: it is not disabled, its next fault is a first one,
      and that has all its retries. */
  lemma ClearStartsOver(t: Track, d: Drive, i: Inputs, setup: Setup, state: DriveState, cycle: nat, others: bool)
    ensures var o := TrackStep(Cleared(t), d, i, setup, state, cycle, others);
      && !o.t.locked && !o.r.disable && (o.r.firstFaultSeen <==> Faulted(state))
      && o.t.retries == (if state == Fault then 1 else 0) && (!Faulted(state) ==> o.t == Cleared(t) && o.r == PROCEED)
      && (Faulted(state) && o.t.faultSeen && state != Fault ==> !o.t.resetActive)
  {
    hide ResetStep, ResetCleared, Elapsed;
  }

  /** Retries are forgiven exactly more than five hundred cycles after a recovery, by a step that
      sees no fault. */
  lemma RetriesAreForgiven(t: Track, d: Drive, i: Inputs, setup: Setup, state: DriveState, cycle: nat, others: bool)
    requires !t.locked && !Faulted(state) && t.healthyCycle <= cycle && t.opEnabledSince <= cycle && t.retries > 0
    ensures var o := TrackStep(t, d, i, setup, state, cycle, others);
      && (o.t.retries == 0 || o.t.retries == t.retries)
      && (o.t.retries == 0 <==> o.t.faultSeen == t.faultSeen && t.healthyCycle > 0 && cycle - t.healthyCycle > 500)
  {}

  // ----- the control loop's cycle of one drive -----

  datatype Node = Node(t: Track, d: Drive)

  /** What a cycle is given. `others`: another drive's fault is seen; `homing`: the axis is
      homing, and the enable machine is left alone. */
  datatype Given = Given(i: Inputs, cycle: nat, others: bool, homing: bool)

  function Cycle(n: Node, g: Given, setup: Setup): Node {
    var seen := if setup.bound then Updated(n.d.seen, g.i) else n.d.seen;
    var o := TrackStep(n.t, n.d.(seen := seen), g.i, setup, seen.state, g.cycle, g.others);
    Node(o.t,
         if o.r.disable then o.d.(out := o.d.out.(cw := CW_DISABLE))
         else if o.r.seedPosition || o.r.skipEnableSM || g.homing then o.d
         else EnableStep(o.d, g.i, setup))
  }

  /** A run of the loop, one count of the cycle counter each. */
  predicate LoopRun(ns: seq<Node>, gs: seq<Given>, start: nat, setup: Setup) {
    && setup.bound && |ns| == |gs| + 1
    && forall k :: 0 <= k < |gs| ==> gs[k].cycle == start + k && ns[k + 1] == Cycle(ns[k], gs[k], setup)
  }

  /** How many of the first `k` cycles saw Fault. */
  function Faults(ns: seq<Node>, k: nat): nat
    requires k < |ns|
  {
    if k == 0 then 0 else Faults(ns, k - 1) + (if ns[k].d.seen.state == Fault then 1 else 0)
  }

  /** The loop fetches the state and steps the reset on the same frame, so the reset step never
      finds the fault gone in the step that was entered for it. */
  lemma ResetNeverClearsInTheLoop(t: Track, d: Drive, g: Given, setup: Setup)
    requires setup.bound
    ensures var seen := Updated(d.seen, g.i);
      Faulted(seen.state) ==> !TrackStep(t, d.(seen := seen), g.i, setup, seen.state, g.cycle, g.others).r.seedPosition
  {
    hide Parse;
  }

  const RESET_STEPS: nat := 101

  /** The steps of a reset sequence that are behind a drive; the hundred and first ends it. */
  function Head(r: Reset): nat {
    if !r.pending then 0 else if r.cycles < RESET_STEPS then r.cycles else RESET_STEPS - 1
  }

  /** Where a drive that never recovered stands after `steps` Fault steps, with `head` steps of
      a reset sequence already behind it at the first: the attempts take 101 steps each, the
      fifth gets one, and the next step locks. */
  predicate Spent(n: Node, steps: nat, head: nat) {
    var f := steps + head;
    if n.t.locked then f > 4 * RESET_STEPS + 1 && n.t.retries == MAX_FAULT_RETRIES
    else if steps == 0 then n.t.retries == 0 && !n.t.resetActive && Head(n.d.reset) == head
    else
      && n.t.faultSeen && 1 <= n.t.retries <= MAX_FAULT_RETRIES && (n.t.retries == MAX_FAULT_RETRIES ==> f == 4 * RESET_STEPS + 1)
      && n.d.reset.pending == n.t.resetActive
      && (n.t.resetActive ==> 1 <= n.d.reset.cycles < RESET_STEPS && f == RESET_STEPS * (n.t.retries - 1) + n.d.reset.cycles)
      && (!n.t.resetActive ==> f == RESET_STEPS * n.t.retries)
  }

  lemma ResetStepInFault(d: Drive, i: Inputs, setup: Setup)
    requires setup.bound && Updated(d.seen, i).state == Fault
    ensures var n := StartReset(d.reset).cycles + 1; var e := ResetStep(d, i, setup);
      && e.seen == Updated(d.seen, i) && e.reset == (if n > 100 then Reset(false, 0) else Reset(true, n))
      && !ResetCleared(d, i, setup)
  {
    hide Parse, EnableStep;
  }

  /** A cycle's effect on the monitor and on the reset machine. */
  lemma CycleEffect(n: Node, g: Given, setup: Setup)
    requires setup.bound
    ensures var m := Cycle(n, g, setup); var seen := Updated(n.d.seen, g.i); var d := n.d.(seen := seen);
      && m.d.seen == seen
      && m.t == TrackStep(n.t, d, g.i, setup, seen.state, g.cycle, g.others).t
      && m.d.reset == TrackStep(n.t, d, g.i, setup, seen.state, g.cycle, g.others).d.reset
  {
    if Updated(n.d.seen, g.i).state == Fault {
      ResetStepInFault(n.d.(seen := Updated(n.d.seen, g.i)), g.i, setup);
      ResetStepInFault(n.d.(seen := Updated(n.d.seen, g.i), reset := StartReset(n.d.reset)), g.i, setup);
    }
    hide Parse, EnableOutputs, SyncStep, ResetStep, ResetCleared, HealthyStep;
  }

  /** A Fault step of an unlocked drive. */
  lemma FaultEffect(t: Track, d: Drive, i: Inputs, setup: Setup, cycle: nat, others: bool)
    requires setup.bound && Updated(d.seen, i).state == Fault && !t.locked
    ensures var o := TrackStep(t, d, i, setup, Fault, cycle, others); var active := t.faultSeen && t.resetActive;
      && o.t.faultSeen && o.t.healthyCycle == t.healthyCycle && o.t.opEnabledSince == t.opEnabledSince
      && (t.retries >= MAX_FAULT_RETRIES ==> o.t.locked && o.t.retries == t.retries)
      && (t.retries < MAX_FAULT_RETRIES ==>
            var c := (if active || d.reset.pending then StartReset(d.reset).cycles else 0) + 1;
            && !o.t.locked && o.t.retries == (if active then t.retries else t.retries + 1)
            && o.t.resetActive == (c <= 100) && o.d.reset == (if c > 100 then Reset(false, 0) else Reset(true, c)))
  {
    ResetStepInFault(d, i, setup);
    ResetStepInFault(d.(reset := StartReset(d.reset)), i, setup);
    hide Parse, ResetStep, ResetCleared;
  }

  lemma CycleSpends(n: Node, g: Given, steps: nat, head: nat, setup: Setup)
    requires setup.bound && head < RESET_STEPS && Spent(n, steps, head) && n.t.healthyCycle == 0 && n.t.opEnabledSince <= g.cycle
    requires Cycle(n, g, setup).t.healthyCycle == 0
    ensures var m := Cycle(n, g, setup);
      && Spent(m, if m.d.seen.state == Fault then steps + 1 else steps, head) && m.t.opEnabledSince <= g.cycle
  {
    CycleEffect(n, g, setup);
    hide Cycle, Parse;
    var seen := Updated(n.d.seen, g.i);
    if seen.state == Fault && !n.t.locked {
      FaultEffect(n.t, n.d.(seen := seen), g.i, setup, g.cycle, g.others);
      hide TrackStep;
    }
  }

  lemma {:induction false} RunSpends(ns: seq<Node>, gs: seq<Given>, start: nat, setup: Setup, k: nat)
    requires LoopRun(ns, gs, start, setup) && k < |ns|
    requires ns[0].t == CLEAN
    requires forall j :: 0 <= j < |ns| ==> ns[j].t.healthyCycle == 0
    ensures Spent(ns[k], Faults(ns, k), Head(ns[0].d.reset)) && ns[k].t.opEnabledSince <= start + k
  {
    if k > 0 {
      RunSpends(ns, gs, start, setup, k - 1);
      assert ns[k - 1 + 1] == Cycle(ns[k - 1], gs[k - 1], setup);
      hide Cycle, Spent;
      CycleSpends(ns[k - 1], gs[k - 1], Faults(ns, k - 1), Head(ns[0].d.reset), setup);
    }
  }

  /** However it flaps between faults, and whatever frames are lost: a drive that has not
      recovered since the monitor was reset is locked out by its 406th Fault step, and not
      before; the steps of a reset sequence that the monitor's reset left half done count
      with the first, so that it can be as early as the 306th. An uninterrupted fault is the
      case where every step is one. */
  lemma LockedByThe406thFaultStep(ns: seq<Node>, gs: seq<Given>, start: nat, setup: Setup, k: nat)
    requires LoopRun(ns, gs, start, setup) && k < |ns|
    requires ns[0].t == CLEAN
    requires forall j :: 0 <= j < |ns| ==> ns[j].t.healthyCycle == 0
    ensures ns[k].t.locked <==> Faults(ns, k) + Head(ns[0].d.reset) >= 406
  {
    RunSpends(ns, gs, start, setup, k);
  }

  // ----- a drive that has recovered before -----

  /** The run's drive recovered more than 500 cycles before each of its cycles, and not since:
      the moment is kept through every later fault. */
  predicate LongRecovered(ns: seq<Node>, gs: seq<Given>)
    requires |ns| == |gs| + 1
  {
    forall k :: 0 <= k < |gs| ==>
      && 0 < ns[k].t.healthyCycle && ns[k].t.healthyCycle + HEALTHY_CYCLES_RESET < gs[k].cycle
      && ns[k + 1].t.healthyCycle == ns[k].t.healthyCycle
  }

  /** Fault steps since the last cycle that saw no fault at all. */
  function Stretch(ns: seq<Node>, k: nat): nat
    requires k < |ns|
  {
    if k == 0 || !Faulted(ns[k].d.seen.state) then 0
    else Stretch(ns, k - 1) + (if ns[k].d.seen.state == Fault then 1 else 0)
  }

  /** The retries spent, in Fault steps of the current stretch; a reset sequence left over from
      before it may have been up to a hundred steps old. */
  predicate SpentInStretch(n: Node, f: nat) {
    && (n.d.reset.pending ==> n.d.reset.cycles < RESET_STEPS) && (n.t.resetActive ==> n.t.faultSeen && n.d.reset.pending && n.d.reset.cycles > 0)
    && n.t.retries <= MAX_FAULT_RETRIES && (n.t.retries > 0 && !n.t.resetActive ==> !n.d.reset.pending)
    && (n.t.retries > 0 ==>
          f + 100 >= RESET_STEPS * (n.t.retries - 1) + (if n.t.resetActive then n.d.reset.cycles else RESET_STEPS))
  }

  lemma CycleSpendsInStretch(n: Node, g: Given, f: nat, setup: Setup)
    requires setup.bound && !n.t.locked && SpentInStretch(n, f)
    requires 0 < n.t.healthyCycle && n.t.healthyCycle + HEALTHY_CYCLES_RESET < g.cycle
    requires Cycle(n, g, setup).t.healthyCycle == n.t.healthyCycle
    ensures var m := Cycle(n, g, setup); var s := m.d.seen.state;
      && (m.t.locked ==> s == Fault && f + 1 >= 306)
      && (!m.t.locked ==> SpentInStretch(m, if !Faulted(s) then 0 else if s == Fault then f + 1 else f))
  {
    CycleEffect(n, g, setup);
    hide Cycle, Parse;
    var seen := Updated(n.d.seen, g.i);
    if seen.state == Fault {
      FaultEffect(n.t, n.d.(seen := seen), g.i, setup, g.cycle, g.others);
      hide TrackStep;
    }
  }

  lemma {:induction false} RunSpendsInStretch(ns: seq<Node>, gs: seq<Given>, start: nat, setup: Setup, k: nat)
    requires LoopRun(ns, gs, start, setup) && LongRecovered(ns, gs) && k < |ns|
    requires ns[0].t.retries == 0 && SpentInStretch(ns[0], 0) && !ns[0].t.locked
    requires forall j :: 0 <= j < k ==> !ns[j].t.locked
    ensures ns[k].t.locked ==> k > 0 && ns[k].d.seen.state == Fault && Stretch(ns, k) >= 306
    ensures !ns[k].t.locked ==> SpentInStretch(ns[k], Stretch(ns, k))
  {
    if k > 0 {
      RunSpendsInStretch(ns, gs, start, setup, k - 1);
      assert ns[k - 1 + 1] == Cycle(ns[k - 1], gs[k - 1], setup);
      hide Cycle, SpentInStretch;
      CycleSpendsInStretch(ns[k - 1], gs[k - 1], Stretch(ns, k - 1), setup);
      assert ns[k].t.locked ==> Stretch(ns, k) == Stretch(ns, k - 1) + 1;
    }
  }

  /** A drive that recovered once and now flaps is never locked out while it shows no fault at
      least once in every 306 Fault steps: each such cycle wipes the retries it has spent. */
  lemma FlappingAfterRecoveryIsNotLocked(ns: seq<Node>, gs: seq<Given>, start: nat, setup: Setup, k: nat)
    requires LoopRun(ns, gs, start, setup) && LongRecovered(ns, gs) && k < |ns|
    requires ns[0].t.retries == 0 && SpentInStretch(ns[0], 0) && !ns[0].t.locked
    requires forall j :: 0 <= j < |ns| ==> Stretch(ns, j) < 306
    ensures !ns[k].t.locked
  {
    if k > 0 {
      forall j | 0 <= j < k ensures !ns[j].t.locked {
        FlappingAfterRecoveryIsNotLocked(ns, gs, start, setup, j);
      }
      RunSpendsInStretch(ns, gs, start, setup, k);
    }
  }

  /** A recovery by itself ends the monitor's attempt but not the drive's reset sequence: the
      first step of the next fault goes on where it stopped. */
  lemma RecoveryLeavesTheReset(n: Node, g: Given, next: Given, setup: Setup)
    requires setup.bound && !n.t.locked && n.t.faultSeen && n.t.opEnabledSince > 0 && n.t.retries < MAX_FAULT_RETRIES
    requires n.d.reset.pending && g.cycle >= n.t.opEnabledSince + FAULT_CLEAR_STABLE_CYCLES
    requires Updated(n.d.seen, g.i).state == OperationEnabled
    requires Updated(Cycle(n, g, setup).d.seen, next.i).state == Fault
    ensures var m, c := Cycle(n, g, setup), n.d.reset.cycles + 1;
      && !m.t.faultSeen && !m.t.resetActive
      && Cycle(m, next, setup).d.reset == (if c > 100 then Reset(false, 0) else Reset(true, c))
      && Cycle(m, next, setup).t.retries == m.t.retries + 1
  {
    CycleEffect(n, g, setup);
    var m := Cycle(n, g, setup);
    CycleEffect(m, next, setup);
    hide Cycle, Parse;
    assert m.d.reset == n.d.reset && !m.t.locked && m.t.retries < MAX_FAULT_RETRIES;
    FaultEffect(m.t, m.d.(seen := Updated(m.d.seen, next.i)), next.i, setup, next.cycle, next.others);
  }
}
