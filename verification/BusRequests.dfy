/** The requests of the drives across sessions, and the bridge's frames. */
module BusRequests {
  import opened BusOwnership

  // ----- what is asked is pending, and what is sent is counted -----

  /** Asking makes a request pending, and opens a group only when none was; the frames behind a
      stop are counted from there. */
  lemma AskingIsRecorded(s: State)
    ensures var t := Step(s, AskStop).r;
      && t.asked && t.groups == s.r.groups + (if s.r.asked then 0 else 1)
      && (!s.r.asked ==> t.late == 0 && t.byUser == 0 && (t.amid <==> s.u == InitDispatch || s.u == InitSend || s.u == ShutdownSend))
      && (s.r.asked ==> t == s.r)
    ensures var t := Step(s, AskReset).r;
      t.askedReset && t.resetGroups == s.r.resetGroups + (if s.r.askedReset then 0 else 1) && t.asked == s.r.asked
  {}

  /** Every frame of a thread that has the bus counts against a pending stop, and nothing else does. */
  lemma FramesAreCounted(s: State, a: Action)
    requires Enabled(s, a) && s.r.asked && Step(s, a).r.asked && !a.AskStop?
    ensures var t := Step(s, a).r;
      && t.late == s.r.late + (if (a.Dispatch? && s.d.Send?) || (a.Loop? && s.l == LoopSend) then 1 else 0)
      && t.byUser == s.r.byUser + (if a.User? && a.go && (s.u == InitSend || s.u == ShutdownSend) then 1 else 0)
  {}

  // ----- a new session and a shutdown drop what is pending -----

  predicate AtClear(u: UserPc) { u == InitClear || u == ShutdownClear }

  /** Over every disciplined run: the step out of the clear, at the start of a session and in a
      shutdown, leaves no stop and no fault reset asked, and counts what was pending as dropped. */
  lemma ClearDropsBoth(acts: seq<Action>, go: bool)
    requires Valid(INITIAL, acts) && AtClear(Run(INITIAL, acts).u)
    ensures var r := Run(INITIAL, acts).r; var t := Step(Run(INITIAL, acts), User(go)).r;
      && Enabled(Run(INITIAL, acts), User(go)) && !t.asked && !t.askedReset
      && t.dropped == r.dropped + (if r.asked then 1 else 0) && t.carried == r.carried
      && t.resetDropped == r.resetDropped + (if r.askedReset then 1 else 0) && t.resetCarried == r.resetCarried
  {
    RunKeepsInv(INITIAL, acts);
  }

  /** The state before step `k` of a run. */
  function Before(acts: seq<Action>, k: nat): State
    requires k <= |acts|
  {
    Run(INITIAL, acts[..k])
  }

  lemma {:induction false} StepOfRun(s: State, acts: seq<Action>, k: nat)
    requires k < |acts|
    ensures Run(s, acts[..k + 1]) == Step(Run(s, acts[..k]), acts[k])
    decreases k
  {
    if k == 0 {
      assert acts[..1] == [acts[0]] && acts[..0] == [] && [acts[0]][1..] == [];
    } else {
      StepOfRun(Step(s, acts[0]), acts[1..], k - 1);
      assert acts[..k + 1][1..] == acts[1..][..k] && acts[..k][1..] == acts[1..][..k - 1];
    }
  }

  lemma {:induction false} PrefixIsValid(s: State, acts: seq<Action>, k: nat)
    requires Valid(s, acts) && k <= |acts|
    ensures Valid(s, acts[..k])
    decreases k
  {
    if k > 0 {
      PrefixIsValid(Step(s, acts[0]), acts[1..], k - 1);
      assert acts[..k][1..] == acts[1..][..k - 1];
      hide Step, Enabled, Disciplined;
    }
  }

  /** The step is a thread's take of a request that is pending: it carries it out. */
  predicate CarriesStop(s: State, a: Action) { Step(s, a).r.carried > s.r.carried }

  predicate CarriesReset(s: State, a: Action) { Step(s, a).r.resetCarried > s.r.resetCarried }

  /** One of the steps from `k` to before `j` asks. */
  predicate AskedBetween(acts: seq<Action>, ask: Action, k: nat, j: nat)
    requires j <= |acts|
  {
    exists m :: k <= m < j && acts[m] == ask
  }

  lemma OnlyAskingRaises(s: State, a: Action)
    ensures !s.r.asked && Step(s, a).r.asked ==> a == AskStop
    ensures !s.r.askedReset && Step(s, a).r.askedReset ==> a == AskReset
    ensures (CarriesStop(s, a) ==> s.r.asked || s.d.SwapStop? || s.l == LoopSwapStop) && (CarriesReset(s, a) ==> s.r.askedReset)
  {
    hide DispatchFlags, DispatchPcNext, LoopFlags, LoopPcNext, UserFlags, UserPcNext;
  }

  lemma {:induction false} StillUnasked(acts: seq<Action>, k: nat, j: nat)
    requires k <= j <= |acts|
    ensures !Before(acts, k).r.asked && Before(acts, j).r.asked ==> AskedBetween(acts, AskStop, k, j)
    ensures !Before(acts, k).r.askedReset && Before(acts, j).r.askedReset ==> AskedBetween(acts, AskReset, k, j)
    decreases j
  {
    if k < j {
      StillUnasked(acts, k, j - 1);
      StepOfRun(INITIAL, acts, j - 1);
      OnlyAskingRaises(Before(acts, j - 1), acts[j - 1]);
      hide Step, Run;
    }
  }

  /** Over every disciplined run: what is carried out after a session began, or a shutdown got to
      its clear, was asked after that; in particular no loop resets the drives of a new session
      for a fault of an old one. */
  lemma CarriedWasAskedSince(acts: seq<Action>, k: nat, j: nat)
    requires Valid(INITIAL, acts) && k < j < |acts| && AtClear(Before(acts, k).u) && acts[k].User?
    ensures CarriesStop(Before(acts, j), acts[j]) ==> AskedBetween(acts, AskStop, k + 1, j)
    ensures CarriesReset(Before(acts, j), acts[j]) ==> AskedBetween(acts, AskReset, k + 1, j)
  {
    PrefixIsValid(INITIAL, acts, k);
    PrefixIsValid(INITIAL, acts, j);
    ClearDropsBoth(acts[..k], acts[k].go);
    StepOfRun(INITIAL, acts, k);
    StillUnasked(acts, k + 1, j);
    TakenWasAsked(acts[..j], acts[j]);
    hide Run, Step, CarriesStop, CarriesReset;
  }

  lemma TakenWasAsked(acts: seq<Action>, a: Action)
    requires Valid(INITIAL, acts)
    ensures var s := Run(INITIAL, acts); (CarriesStop(s, a) ==> s.r.asked) && (CarriesReset(s, a) ==> s.r.askedReset)
  {
    RunKeepsInv(INITIAL, acts);
    OnlyAskingRaises(Run(INITIAL, acts), a);
    hide Step, Run;
  }

  // ----- the loop's flag, and a start that is not needed -----

  predicate Flagged(s: State) { s.f.rtLoop <==> LoopOwns(s.l) && !s.l.LoopStop? && s.l != Claim }

  /** In every interleaving of the code, disciplined or not, the loop's flag is up exactly from its
      claim of the bus to its release. */
  lemma {:induction false} LoopFlagIsTheLoop(s: State, acts: seq<Action>)
    requires Flagged(s) && Possible(s, acts)
    ensures Flagged(Run(s, acts)) && Flagged(INITIAL)
    decreases |acts|
  {
    if acts != [] {
      LoopFlagFollows(s, acts[0]);
      LoopFlagIsTheLoop(Step(s, acts[0]), acts[1..]);
      hide Step, Enabled;
    }
  }

  lemma LoopFlagFollows(s: State, a: Action)
    requires Flagged(s) && Enabled(s, a)
    ensures Flagged(Step(s, a))
  {
    if a.Loop? {
      hide LoopStep, Enabled;
      LoopFlagByLoop(s, a.go);
    } else {
      OthersLeaveTheFlag(s, a);
    }
  }

  lemma OthersLeaveTheFlag(s: State, a: Action)
    requires Enabled(s, a) && !a.Loop?
    ensures Step(s, a).f.rtLoop == s.f.rtLoop
    ensures Step(s, a).l == s.l || (!LoopOwns(s.l) && (Step(s, a).l == NoLoop || Step(s, a).l.LoopStop?))
  {
    hide DispatchPcNext, DispatchLedger, UserFlags, UserLedger, UserPcNext;
    if a.User? {
      UserLeavesTheFlag(s.f, s.d, s.u, a.go);
    }
  }

  lemma LoopFlagByLoop(s: State, go: bool)
    requires Flagged(s)
    ensures Flagged(LoopStep(s, go))
  {
    hide LoopLedger, StartFlags, StopFlags;
    match s.l
    case LoopStop(at) => PumpLeavesTheFlag(s.f, LoadActive, at, HeldByLoop);
    case LoopStart(at) => PumpLeavesTheFlag(s.f, at, StoreStop, HeldByLoop);
    case _ =>
  }

  lemma UserLeavesTheFlag(f: Flags, d: DispatchPc, u: UserPc, go: bool)
    ensures UserFlags(f, d, u, go).rtLoop == f.rtLoop
  {
    hide StartFlags, StopFlags;
    match u {
      case UserStart(at) => PumpLeavesTheFlag(f, at, StoreStop, HeldByUser);
      case FirstStop(at) => PumpLeavesTheFlag(f, LoadActive, at, HeldByUser);
      case SecondStop(at) => PumpLeavesTheFlag(f, LoadActive, at, HeldByUser);
      case InitDispatch =>
      case PostStop =>
      case InitSend =>
      case ShutdownSend =>
      case _ =>
    }
  }

  lemma PumpLeavesTheFlag(f: Flags, start: StartPc, stop: StopPc, me: Holder)
    ensures StartFlags(f, start, me).rtLoop == f.rtLoop && StopFlags(f, stop).rtLoop == f.rtLoop
  {
    match start {
      case LoadActive =>
      case TakeLock =>
      case ResetStop =>
      case _ =>
    }
    match stop {
      case StoreStop =>
      case _ =>
    }
  }

  /** startPump does nothing without a session, or with the pump running already, or once the
      dispatch thread was told to end: it touches no flag and takes no lock. */
  lemma StartNotNeeded(f: Flags, me: Holder)
    ensures !f.up || f.pumpActive ==> StartPcNext(f, LoadActive).Over? && StartFlags(f, LoadActive, me) == f
    ensures f.up && !f.pumpActive ==> StartPcNext(f, LoadActive) == On(TakeLock)
    ensures f.stop ==> StartPcNext(f, TakeLock).Over? && StartFlags(f, TakeLock, me) == f
  {}

  // ----- the bridge -----

  /** Steps of the dispatch thread alone, none of them a crashed exchange. */
  function Dispatched(s: State, n: nat): State {
    if n == 0 then s else DispatchStep(Dispatched(s, n - 1), false)
  }

  predicate IsBridgeSend(d: DispatchPc) { d.Send? && d.at.Bridge? }

  /** Frames of the bridge among the first `n` of these steps. */
  function BridgeFrames(s: State, n: nat): nat {
    if n == 0 then 0
    else BridgeFrames(s, n - 1) + (if IsBridgeSend(Dispatched(s, n - 1).d) then 1 else 0)
  }

  /** One step, from where the dispatch thread is to where it gets. */
  lemma OneStep(s: State, n: nat, from: State, to: State)
    requires Dispatched(s, n) == from && to == DispatchStep(from, false)
    ensures Dispatched(s, n + 1) == to
    ensures BridgeFrames(s, n + 1) == BridgeFrames(s, n) + (if IsBridgeSend(from.d) then 1 else 0)
  {
    hide DispatchStep;
  }

  /** The state with the dispatch thread at the head of the bridge, `sent` frames behind it. */
  function AtHead(s: State, sent: nat): State { s.(d := BridgeHead(sent)) }

  /** The three steps of a frame. */
  lemma OneFrame(s: State, sent: nat)
    requires !s.f.pumpStop && !s.r.asked && sent < BRIDGE_FRAMES
    ensures DispatchStep(AtHead(s, sent), false) == s.(d := TakeStop(Bridge(sent)))
    ensures DispatchStep(s.(d := TakeStop(Bridge(sent))), false) == s.(d := Send(Bridge(sent)))
    ensures DispatchStep(s.(d := Send(Bridge(sent))), false) == AtHead(s, sent + 1)
  {}

  lemma NextFrame(s: State, n: nat, sent: nat)
    requires !s.f.pumpStop && !s.r.asked && sent < BRIDGE_FRAMES && Dispatched(s, n) == AtHead(s, sent)
    ensures Dispatched(s, n + 3) == AtHead(s, sent + 1) && BridgeFrames(s, n + 3) == BridgeFrames(s, n) + 1
  {
    OneFrame(s, sent);
    hide DispatchStep, Dispatched, BridgeFrames;
    OneStep(s, n, AtHead(s, sent), s.(d := TakeStop(Bridge(sent))));
    OneStep(s, n + 1, s.(d := TakeStop(Bridge(sent))), s.(d := Send(Bridge(sent))));
    OneStep(s, n + 2, s.(d := Send(Bridge(sent))), AtHead(s, sent + 1));
  }

  /** At the head of the bridge with `sent` frames behind it, three steps a frame. */
  lemma {:induction false} BridgeRuns(s: State, sent: nat)
    requires s == AtHead(s, 0) && !s.f.pumpStop && !s.r.asked && sent <= BRIDGE_FRAMES
    ensures Dispatched(s, 3 * sent) == AtHead(s, sent) && BridgeFrames(s, 3 * sent) == sent
  {
    if sent == 0 {
      assert Dispatched(s, 0) == s && BridgeFrames(s, 0) == 0;
    } else {
      hide DispatchStep, Dispatched, BridgeFrames, AtHead;
      BridgeRuns(s, sent - 1);
      NextFrame(s, 3 * (sent - 1), sent - 1);
      assert 3 * (sent - 1) + 3 == 3 * sent;
    }
  }

  /** The gate before the bridge, and the three steps from its end into the pump. */
  lemma GateAndEnd(s: State)
    requires !s.f.pumpStop
    ensures DispatchStep(s.(d := CheckStop), false) == s.(d := BridgeHead(0))
    ensures DispatchStep(s.(d := BridgeHead(BRIDGE_FRAMES)), false) == s.(d := CheckStopAgain)
    ensures DispatchStep(s.(d := CheckStopAgain), false) == s.(d := StoreActive)
    ensures DispatchStep(s.(d := StoreActive), false) == s.(d := PumpHead, f := s.f.(pumpActive := true))
  {}

  /** A dispatch that is not stopped bridges the start of the pump with exactly ten frames. */
  lemma BridgeSendsTen(s: State)
    requires s.d == CheckStop && !s.f.pumpStop && !s.r.asked
    ensures Dispatched(s, 34).d == PumpHead && Dispatched(s, 34).f == s.f.(pumpActive := true) && BridgeFrames(s, 34) == 10
  {
    GateAndEnd(s);
    hide DispatchStep, Dispatched, BridgeFrames;
    var t := s.(d := BridgeHead(0));
    BridgeRuns(t, 10);
    assert s == s.(d := CheckStop);
    Later(s, 30);
    OneStep(s, 31, s.(d := BridgeHead(BRIDGE_FRAMES)), s.(d := CheckStopAgain));
    OneStep(s, 32, s.(d := CheckStopAgain), s.(d := StoreActive));
    OneStep(s, 33, s.(d := StoreActive), s.(d := PumpHead, f := s.f.(pumpActive := true)));
  }

  lemma {:induction false} Later(s: State, n: nat)
    ensures Dispatched(s, n + 1) == Dispatched(DispatchStep(s, false), n)
    ensures BridgeFrames(s, n + 1) == BridgeFrames(DispatchStep(s, false), n) + (if IsBridgeSend(s.d) then 1 else 0)
  {
    hide DispatchStep;
    if n > 0 {
      Later(s, n - 1);
    } else {
      assert Dispatched(s, 1) == DispatchStep(Dispatched(s, 0), false);
      assert BridgeFrames(s, 1) == BridgeFrames(s, 0) + (if IsBridgeSend(Dispatched(s, 0).d) then 1 else 0);
    }
  }
}
