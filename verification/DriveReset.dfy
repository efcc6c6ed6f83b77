/** The fault-reset machine against the drive it resets: one that leaves Fault on a rising edge of
    the reset bit, and only once the cause of the fault is gone (transition 15 of section 10.1 of
    CiA DSP-402 V2.0). */
module DriveReset {
  import opened A6Drive
  import opened DriveEnable

  /** The drive, the controlword it received last, the master's object and the inputs it holds. */
  datatype Node = Node(device: DriveState, got: bv16, d: Drive, i: Inputs)

  predicate ResetBit(cw: bv16) { cw & 0x80 != 0 }

  /** What the drive makes of a controlword, after the one before. */
  function Heard(s: DriveState, before: bv16, cw: bv16, clear: bool): DriveState {
    if s == Fault then (if clear && !ResetBit(before) && ResetBit(cw) then SwitchOnDisabled else Fault)
    else Obeyed(s, Decode(cw))
  }

  /** The master holds a good frame that shows the drive's state, as the parser reads it. */
  predicate Shown(n: Node) { n.i.valid && Shows(n.device, n.i.sw) && Parse(n.i.sw) == n.device }

  /** A run of reset steps, each frame delivered and obeyed. `clear`: whether the cause of the
      fault is gone when the frame arrives. */
  predicate ResetRun(ns: seq<Node>, clear: seq<bool>, setup: Setup) {
    && setup.bound && |ns| == |clear| + 1
    && ns[0].device == Fault && Shown(ns[0]) && StartReset(ns[0].d.reset) == Reset(true, 0)
    && forall k :: 0 <= k < |clear| ==> Follows(ns[k], ns[k + 1], clear[k], setup)
  }

  predicate Follows(n: Node, m: Node, clear: bool, setup: Setup) {
    && m.d == ResetStep(n.d, n.i, setup) && m.got == m.d.out.cw
    && m.device == Heard(n.device, n.got, m.got, clear) && Shown(m)
  }

  /** The steps of a reset at which its bit rises. */
  predicate Rises(k: nat) { k == 6 || k == 20 || k == 40 || k == 60 || k == 80 || k == 100 }

  /** Some rise up to step `k` found the cause gone. */
  predicate RoseClear(clear: seq<bool>, k: nat)
    requires k <= |clear|
  {
    exists j :: 1 <= j <= k && Rises(j) && clear[j - 1]
  }

  /** The reset bit after step `k` in Fault: low for five steps, high for ten, then in turn. */
  predicate BitIs(n: Node, k: nat) {
    k > 0 ==> (ResetBit(n.got) <==> 6 <= k <= 15 || (k > 15 && k % 20 < 10))
  }

  lemma ResetWords()
    ensures ResetBit(CW_FAULT_RESET) && !ResetBit(CW_DISABLE_VOLTAGE) && !ResetBit(CW_SHUTDOWN)
    ensures Decode(CW_FAULT_RESET) == FaultReset && Decode(CW_SHUTDOWN) == Shutdown && Decode(CW_DISABLE_VOLTAGE) == DisableVoltage
  {}

  /** Step `k` in Fault. */
  lemma StepInFault(n: Node, m: Node, clear: bool, setup: Setup, k: nat)
    requires setup.bound && k < 100 && n.device == Fault && Shown(n) && Follows(n, m, clear, setup)
    requires StartReset(n.d.reset) == Reset(true, k) && BitIs(n, k)
    ensures m.d.reset == Reset(true, k + 1) && BitIs(m, k + 1)
    ensures m.device == if clear && Rises(k + 1) then SwitchOnDisabled else Fault
  {
    ResetWords();
    hide Parse, Shows, Decode, ResetBit;
  }

  /** A drive out of Fault while the reset goes on: it stays in Switch On Disabled. */
  lemma StepOutOfFault(n: Node, m: Node, clear: bool, setup: Setup, k: nat)
    requires setup.bound && k < 15 && n.device == SwitchOnDisabled && Shown(n) && Follows(n, m, clear, setup)
    requires n.d.reset == Reset(true, k)
    ensures m.d.reset == Reset(true, k + 1) && m.device == SwitchOnDisabled
  {
    ResetWords();
    hide Parse, Shows, Decode, ResetBit;
  }

  /** The reset is over: it finds the fault gone, and the enabling begins. */
  lemma StepAfterFault(n: Node, m: Node, clear: bool, setup: Setup, k: nat)
    requires setup.bound && k >= 15 && n.device == SwitchOnDisabled && Shown(n) && Follows(n, m, clear, setup)
    requires n.d.reset == Reset(true, k)
    ensures m.d.reset == Reset(false, 0) && m.d.out.cw == CW_SHUTDOWN && m.device == ReadyToSwitchOn
  {
    ResetWords();
    hide Parse, Shows, Decode, ResetBit;
  }

  /** Through a whole reset, up to the step after which the machine gives up: the drive is out of
      Fault exactly when one of the rises, at steps 6, 20, 40, 60, 80 and 100, found the cause
      gone; and as long as it is in Fault the sequence goes on. */
  lemma {:induction false} ResetsExactly(ns: seq<Node>, clear: seq<bool>, setup: Setup, k: nat)
    requires ResetRun(ns, clear, setup) && k < |ns| && k <= 100
    requires forall j :: 0 <= j < k ==> ns[j].device == Fault
    ensures StartReset(ns[k].d.reset) == Reset(true, k) && BitIs(ns[k], k)
    ensures ns[k].device == (if RoseClear(clear, k) then SwitchOnDisabled else Fault)
  {
    if k > 0 {
      hide Follows, Shown, BitIs, Rises;
      ResetsExactly(ns, clear, setup, k - 1);
      assert Follows(ns[k - 1], ns[k - 1 + 1], clear[k - 1], setup);
      ShownThroughout(ns, clear, setup, k - 1);
      assert !RoseClear(clear, k - 1);
      StepInFault(ns[k - 1], ns[k], clear[k - 1], setup, k - 1);
      assert RoseClear(clear, k) <==> clear[k - 1] && Rises(k);
    }
  }

  lemma ShownThroughout(ns: seq<Node>, clear: seq<bool>, setup: Setup, k: nat)
    requires ResetRun(ns, clear, setup) && k < |ns|
    ensures Shown(ns[k])
  {
    if k > 0 {
      assert Follows(ns[k - 1], ns[k - 1 + 1], clear[k - 1], setup);
    }
  }

  /** A fault whose cause is gone is reset by the sixth step, whatever controlword stood before;
      by the sixteenth the reset is over and the drive is on its way to be enabled. */
  lemma ClearFaultIsReset(ns: seq<Node>, clear: seq<bool>, setup: Setup)
    requires ResetRun(ns, clear, setup) && |clear| == 16 && forall k :: 0 <= k < 16 ==> clear[k]
    ensures ns[5].device == Fault && ns[6].device == SwitchOnDisabled && ns[15].device == SwitchOnDisabled
    ensures ns[16].device == ReadyToSwitchOn && ns[16].d.reset == Reset(false, 0) && ns[16].d.out.cw == CW_SHUTDOWN
  {
    InFaultUntilTheEdge(ns, clear, setup, 5);
    ResetsExactly(ns, clear, setup, 6);
    assert RoseClear(clear, 6) by { assert Rises(6) && clear[5]; }
    OutOfFault(ns, clear, setup, 15);
    assert Follows(ns[15], ns[15 + 1], clear[15], setup);
    ShownThroughout(ns, clear, setup, 15);
    hide Follows, Shown, ResetRun;
    StepAfterFault(ns[15], ns[16], clear[15], setup, 15);
  }

  lemma {:induction false} InFaultUntilTheEdge(ns: seq<Node>, clear: seq<bool>, setup: Setup, k: nat)
    requires ResetRun(ns, clear, setup) && k < |ns| && k <= 5
    ensures forall j :: 0 <= j <= k ==> ns[j].device == Fault
  {
    if k > 0 {
      InFaultUntilTheEdge(ns, clear, setup, k - 1);
      ResetsExactly(ns, clear, setup, k);
    }
  }

  lemma {:induction false} OutOfFault(ns: seq<Node>, clear: seq<bool>, setup: Setup, k: nat)
    requires ResetRun(ns, clear, setup) && 6 <= k <= 15 && k < |ns| && forall j :: 0 <= j < |clear| ==> clear[j]
    ensures ns[k].device == SwitchOnDisabled && ns[k].d.reset == Reset(true, k)
  {
    if k == 6 {
      InFaultUntilTheEdge(ns, clear, setup, 5);
      ResetsExactly(ns, clear, setup, 6);
      assert RoseClear(clear, 6) by { assert Rises(6) && clear[5]; }
      ResetsExactly(ns, clear, setup, 5);
      assert Follows(ns[5], ns[5 + 1], clear[5], setup);
      ShownThroughout(ns, clear, setup, 5);
      StepInFault(ns[5], ns[6], clear[5], setup, 5);
    } else {
      OutOfFault(ns, clear, setup, k - 1);
      assert Follows(ns[k - 1], ns[k - 1 + 1], clear[k - 1], setup);
      ShownThroughout(ns, clear, setup, k - 1);
      hide Follows, Shown, ResetRun;
      StepOutOfFault(ns[k - 1], ns[k], clear[k - 1], setup, k - 1);
    }
  }

  /** A hundred steps that find no rise with the cause gone leave the drive in Fault, and the
      machine gives up at the next. */
  lemma GivesUp(ns: seq<Node>, clear: seq<bool>, setup: Setup)
    requires ResetRun(ns, clear, setup) && |clear| == 101 && forall k :: 0 <= k <= 100 ==> ns[k].device == Fault
    ensures !RoseClear(clear, 100) && ns[101].d.reset == Reset(false, 0) && ns[101].device == Fault
  {
    ResetsExactly(ns, clear, setup, 100);
    assert Follows(ns[100], ns[100 + 1], clear[100], setup);
    ShownThroughout(ns, clear, setup, 100);
    hide ResetRun, RoseClear, Parse, Shows;
  }

  /** A reset that is asked for goes on if one is under way, and starts afresh if not. */
  lemma StartedResetIsPending(r: Reset)
    ensures StartReset(r).pending && StartReset(r).cycles == (if r.pending then r.cycles else 0)
  {}

  /** A step reports the fault as cleared exactly when at least fifteen are behind it and the drive
      is in Operation Enabled by then; the reset is then over and the drive kept enabled. */
  lemma ClearedMeansEnabled(d: Drive, i: Inputs, setup: Setup)
    ensures ResetCleared(d, i, setup) <==>
      setup.bound && d.reset.pending && d.reset.cycles >= 15 && Updated(d.seen, i).state == OperationEnabled
    ensures ResetCleared(d, i, setup) ==>
      var e := ResetStep(d, i, setup); !e.reset.pending && e.seen.state == OperationEnabled && e.out.cw == CW_ENABLE
  {
    hide Parse;
  }

  // ----- enabling -----

  /** A run of enable steps, each frame delivered and obeyed. */
  predicate EnablingRun(ns: seq<Node>, setup: Setup) {
    && setup.bound && |ns| > 0
    && ns[0].device == SwitchOnDisabled && Shown(ns[0]) && !ns[0].d.sync.active
    && forall k :: 0 <= k < |ns| - 1 ==> Obeys(ns[k], ns[k + 1], setup)
  }

  predicate Obeys(n: Node, m: Node, setup: Setup) {
    && m.d == EnableStep(n.d, n.i, setup) && m.got == m.d.out.cw
    && m.device == Obeyed(n.device, Decode(m.got)) && Shown(m)
  }

  /** Where the drive is after `k` steps. */
  function Enabling(k: nat, syncCycles: nat): DriveState {
    if k == 0 then SwitchOnDisabled else if k == 1 then ReadyToSwitchOn
    else if k < syncCycles + 3 then SwitchedOn else OperationEnabled
  }

  /** How far the sync has counted. */
  predicate Counted(n: Node, k: nat, syncCycles: nat) {
    if k <= 2 then !n.d.sync.active
    else k <= syncCycles + 3 ==> n.d.sync.active && n.d.sync.count == (if k - 2 < syncCycles then k - 2 else syncCycles)
  }

  /** Enabling takes two steps to Switched On, holds the command position for the sync, and then
      enables: the drive is in Operation Enabled after exactly syncCycles + 3 steps, and stays. */
  lemma {:induction false} EnablesInTime(ns: seq<Node>, setup: Setup, k: nat)
    requires EnablingRun(ns, setup) && k < |ns|
    ensures ns[k].device == Enabling(k, setup.syncCycles) && Shown(ns[k]) && Counted(ns[k], k, setup.syncCycles)
  {
    if k > 0 {
      hide Shown, Decode, Parse;
      EnablesInTime(ns, setup, k - 1);
      assert Obeys(ns[k - 1], ns[k - 1 + 1], setup);
      EnableCommands(ns[k - 1], ns[k], setup);
    }
  }

  lemma EnableCommands(n: Node, m: Node, setup: Setup)
    requires setup.bound && Shown(n) && Obeys(n, m, setup)
    ensures Shown(m) && m.d.sync == SyncStep(n.d.sync, n.device, setup.syncCycles)
    ensures n.device == SwitchOnDisabled ==> m.device == ReadyToSwitchOn
    ensures n.device == ReadyToSwitchOn ==> m.device == SwitchedOn
    ensures n.device == SwitchedOn ==> m.device == if SyncDone(n.d.sync, setup.syncCycles) then OperationEnabled else SwitchedOn
    ensures n.device == OperationEnabled ==> m.device == OperationEnabled
  {
    ControlwordTable();
    hide Parse, Shows, Decode;
  }
}
