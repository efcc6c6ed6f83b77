/** A shutdown that begins while a loop is still there, which its callers do not rule out: when
    two threads then own the bus, and when the shutdown waits for the pump for good. */
module BusShutdown {
  import opened BusOwnership

  // ----- a loop that is past its last frame -----

  /** A shutdown is under way, or has left a loop behind that has not returned. */
  predicate Leaving(u: UserPc) { u == Idle || u.FirstStop? || u == PostStop || Ending(u) }

  predicate PastTheBus(l: LoopPc) { l.LoopStart? || l == LoopDone || l == NoLoop }

  /** What holds while a shutdown meets a loop that is past its last frame. The loop may post a
      dispatch behind the shutdown's back; it can do so only until the stop is posted. */
  predicate Parting(s: State) {
    var f := s.f;
    && Leaving(s.u) && PastTheBus(s.l) && (f.up <==> s.u != Idle) && (f.op ==> f.up) && !f.rtLoop
    && (f.lock == HeldByLoop <==> s.l.LoopStart? && HoldsLock(s.l.start)) && f.lock != HeldByUser
    && (s.l.LoopStart? && BeforePost(s.l.start) ==> Quiet(f, s.d))
    && (s.l == LoopStart(SetBusy) ==> f.req && !f.busy)
    && (f.req && !f.busy ==> s.l == LoopStart(SetBusy))
    && (InBody(s.d) ==> f.busy && !f.req) && (f.busy ==> f.req || InBody(s.d) || f.stop)
    && (f.stop <==> Ending(s.u) || s.u == Idle)
    && (f.stop ==> f.lock == Free && !f.req) && (f.stop && s.u != JoinDispatch ==> s.d == Gone)
    && (s.d == Gone ==> f.stop && !f.busy)
    && (s.u == ShutdownClear || s.u == ShutdownSend || s.u == Idle ==> !f.pumpActive)
  }

  lemma PartingGivesOneOwner(s: State)
    requires Parting(s)
    ensures AtMostOneOwner(s)
  {}

  lemma PartingBegins(s: State)
    requires Protocol(s) && Enabled(s, BeginShutdown) && s.l.LoopStart?
    ensures Parting(Step(s, BeginShutdown))
  {}

  lemma DispatchKeepsParting(s: State, crash: bool)
    requires Parting(s) && Enabled(s, Dispatch(crash))
    ensures Parting(DispatchStep(s, crash))
  {}

  lemma LoopKeepsParting(s: State, go: bool)
    requires Parting(s) && Enabled(s, Loop(go))
    ensures Parting(LoopStep(s, go))
  {}

  lemma UserKeepsParting(s: State, go: bool)
    requires Parting(s) && Enabled(s, User(go))
    ensures Parting(UserStep(s, go))
  {}

  /** A new session begins only after the loop has returned, and then the protocol is back. */
  lemma CallsAfterParting(s: State, a: Action)
    requires Parting(s) && Enabled(s, a) && Disciplined(s, a) && !a.Dispatch? && !a.Loop? && !a.User?
    ensures if a.BeginInit? then Protocol(Step(s, a)) else Parting(Step(s, a))
  {}

  lemma StepAfterParting(s: State, a: Action)
    requires (Parting(s) || Protocol(s)) && Enabled(s, a) && Disciplined(s, a)
    ensures Parting(Step(s, a)) || Protocol(Step(s, a))
  {
    hide Parting, Protocol;
    if Protocol(s) {
      StepKeepsProtocol(s, a);
    } else {
      match a
      case Dispatch(crash) => DispatchKeepsParting(s, crash);
      case Loop(go) => LoopKeepsParting(s, go);
      case User(go) => UserKeepsParting(s, go);
      case _ => CallsAfterParting(s, a);
    }
  }

  lemma {:induction false} RunAfterParting(s: State, acts: seq<Action>)
    requires (Parting(s) || Protocol(s)) && Valid(s, acts)
    ensures Parting(Run(s, acts)) || Protocol(Run(s, acts))
    decreases |acts|
  {
    hide Parting, Protocol, Step, Enabled, Disciplined;
    if acts != [] {
      StepAfterParting(s, acts[0]);
      RunAfterParting(Step(s, acts[0]), acts[1..]);
    }
  }

  lemma NoCollisionAfter(s: State)
    requires Parting(s) || Protocol(s)
    ensures !CanCollide(s)
  {
    hide Parting, Protocol;
    forall acts | Valid(s, acts) ensures AtMostOneOwner(Run(s, acts)) {
      RunAfterParting(s, acts);
      if Parting(Run(s, acts)) {
        PartingGivesOneOwner(Run(s, acts));
      } else {
        ProtocolGivesOneOwner(Run(s, acts));
      }
    }
  }

  /** After any disciplined run, a shutdown the code lets begin can lead to two owners of the bus
      if and only if a loop is then up to claim the bus or has it. */
  lemma ShutdownIsTheCondition(acts: seq<Action>)
    requires Valid(INITIAL, acts) && Enabled(Run(INITIAL, acts), BeginShutdown)
    ensures var s := Run(INITIAL, acts);
            CanCollide(Step(s, BeginShutdown)) <==> s.l.LoopStop? || LoopOwns(s.l)
  {
    RunKeepsInv(INITIAL, acts);
    var s := Run(INITIAL, acts);
    hide Run, Valid;
    if s.l.LoopStop? || LoopOwns(s.l) {
      LateShutdown(s);
    } else {
      if s.l.LoopStart? {
        PartingBegins(s);
      } else {
        StepKeepsProtocol(s, BeginShutdown);
      }
      NoCollisionAfter(Step(s, BeginShutdown));
    }
  }

  // ----- when the shutdown waits for good -----

  predicate Crashless(acts: seq<Action>) { forall a :: a in acts ==> a != Dispatch(true) }

  predicate InPump(d: DispatchPc) {
    d == PumpHead || d == PumpGuard || d == TakeStop(Pump) || d == SwapStop(Pump) || d == Send(Pump)
  }

  /** The shutdown waits for a dispatch that is past its gates, and the flag that would stop it
      has been cleared behind the shutdown's back. */
  predicate Hung(s: State) {
    && ((s.u == FirstStop(Spin) && s.f.busy) || s.u == JoinDispatch)
    && DispatchOwns(s.d) && !s.f.pumpStop && (InPump(s.d) ==> s.f.pumpActive)
    && (s.l == LoopStart(Unlock) || s.l == LoopDone || s.l == NoLoop)
  }

  lemma HungStays(s: State, a: Action)
    requires Hung(s) && Enabled(s, a) && Disciplined(s, a) && a != Dispatch(true)
    ensures Hung(Step(s, a))
  {}

  /** Such a wait has no end short of a crashed exchange: nobody else can take a step that
      changes it. */
  lemma {:induction false} HungForGood(s: State, acts: seq<Action>)
    requires Hung(s) && Valid(s, acts) && Crashless(acts)
    ensures Hung(Run(s, acts))
    decreases |acts|
  {
    hide Hung, Step, Enabled, Disciplined;
    if acts != [] {
      assert acts[0] in acts && forall a :: a in acts[1..] ==> a in acts;
      HungStays(s, acts[0]);
      HungForGood(Step(s, acts[0]), acts[1..]);
    }
  }

  /** From here the code, with the discipline kept from now on, can get there. */
  ghost predicate CanHang(s: State) { exists acts :: Valid(s, acts) && Hung(Run(s, acts)) }

  lemma HangsHere(s: State)
    requires Hung(s)
    ensures CanHang(s)
  {
    assert Valid(s, []) && Run(s, []) == s;
  }

  lemma HangsEarlier(s: State, a: Action)
    requires Enabled(s, a) && Disciplined(s, a) && CanHang(Step(s, a))
    ensures CanHang(s)
  {
    hide Step, Enabled, Disciplined, Hung;
    var acts :| Valid(Step(s, a), acts) && Hung(Run(Step(s, a), acts));
    assert ([a] + acts)[1..] == acts;
    assert Valid(s, [a] + acts);
  }

  /** The loop has yet to clear the stop flag in its own startPump. */
  predicate YetToReset(l: LoopPc) {
    l.LoopStop? || LoopOwns(l) || l == LoopStart(LoadActive) || l == LoopStart(TakeLock) || l == LoopStart(ResetStop)
  }

  /** The loop has posted, and the dispatch goes through its gates. */
  lemma {:induction false} PostedThenHung(s: State)
    requires s.u == FirstStop(Spin) && s.l == LoopDone && s.f.busy && s.f.lock == Free
    requires !s.f.pumpStop && !s.f.stop && !s.f.rtLoop && !s.f.pumpActive
    requires (s.d == Waiting && s.f.req) || s.d == CheckLoop || s.d == CheckPump || s.d == CheckStop
    ensures CanHang(s)
    decreases Rank(s)
  {
    if s.d == CheckStop {
      HangsHere(DispatchStep(s, false));
    } else {
      PostedThenHung(DispatchStep(s, false));
    }
    HangsEarlier(s, Dispatch(false));
  }

  /** The loop is in its startPump while the shutdown, past its store of the stop flag, waits. */
  lemma {:induction false} LoopPosts(s: State)
    requires s.u == FirstStop(Spin) && s.l.LoopStart? && s.d == Waiting && s.f.up && !s.f.stop && !s.f.rtLoop && !s.f.pumpActive
    requires s.f.lock == (if HoldsLock(s.l.start) then HeldByLoop else Free)
    requires (s.l.start == PostRequest || s.l.start == SetBusy || s.l.start == Unlock) ==> !s.f.pumpStop
    requires (s.l.start == SetBusy || s.l.start == Unlock) ==> s.f.req
    requires s.l.start == Unlock ==> s.f.busy
    ensures CanHang(s)
    decreases match s.l.start case LoadActive => 6 case TakeLock => 5 case ResetStop => 4 case PostRequest => 3 case SetBusy => 2 case Unlock => 1
  {
    if s.l.start == Unlock {
      PostedThenHung(LoopStep(s, true));
    } else {
      LoopPosts(LoopStep(s, true));
    }
    HangsEarlier(s, Loop(true));
  }

  /** The loop has the bus: it gives it up and starts the pump again. */
  lemma {:induction false} OwnerPosts(s: State)
    requires s.u == FirstStop(Spin) && LoopOwns(s.l) && s.d == Waiting && s.f.up && !s.f.stop && s.f.lock == Free
    requires s.l == LoopStop(DropActive) || !s.f.pumpActive
    ensures CanHang(s)
    decreases match s.l
      case LoopStop(_) => 7 case Claim => 6 case LoopTakeStop => 5 case LoopSwapStop => 4
      case LoopTakeReset => 3 case LoopSwapReset => 2 case LoopSend => 1 case _ => 0
  {
    if s.l == Release {
      LoopPosts(LoopStep(s, false));
    } else {
      OwnerPosts(LoopStep(s, false));
    }
    HangsEarlier(s, Loop(false));
  }

  /** The loop is in stopPump: the dispatch ends, the loop gets the bus. */
  lemma {:induction false} StopperPosts(s: State)
    requires s.u == FirstStop(Spin) && s.l.LoopStop? && Finishing(s) && s.f.up && (s.l.at == DropActive ==> !s.f.busy)
    ensures CanHang(s)
    decreases Rank(s), s.l.at == StoreStop, s.l.at == Spin
  {
    if s.l.at == DropActive {
      OwnerPosts(s);
    } else if s.f.busy {
      DispatchFinishes(s);
      StopperPosts(DispatchStep(s, false));
      HangsEarlier(s, Dispatch(false));
    } else {
      StopperPosts(LoopStep(s, false));
      HangsEarlier(s, Loop(false));
    }
  }

  lemma HangsFromTheStart(s: State)
    requires Protocol(s) && Enabled(s, BeginShutdown) && YetToReset(s.l)
    ensures CanHang(Step(s, BeginShutdown))
  {
    var t := Step(s, BeginShutdown);
    var v := Step(t, User(true));
    if s.l == LoopStop(StoreStop) || s.l == LoopStop(Spin) {
      StopperPosts(v);
    } else if s.l.LoopStart? {
      LoopPosts(v);
    } else {
      OwnerPosts(v);
    }
    HangsEarlier(t, User(true));
  }

  /** The loop is past its reset of the stop flag, or gone, and the shutdown's store of it stands. */
  predicate Seal(f: Flags, l: LoopPc, u: UserPc) { !YetToReset(l) && (u == FirstStop(StoreStop) || f.pumpStop) }

  predicate Sealed(s: State) { Parting(s) && Seal(s.f, s.l, s.u) }

  lemma StepAfterSealed(s: State, a: Action)
    requires (Sealed(s) || Protocol(s)) && Enabled(s, a) && Disciplined(s, a)
    ensures Sealed(Step(s, a)) || Protocol(Step(s, a))
  {
    if Protocol(s) {
      StepKeepsProtocol(s, a);
    } else {
      StepAfterParting(s, a);
      LeavingOn(s, a);
      hide Parting, Protocol, Enabled;
      if a.BeginInit? {
        CallsAfterParting(s, a);
      } else {
        SealStays(s, a);
      }
      hide Step;
    }
  }

  /** No loop is launched before the shutdown is over, and none after it. */
  lemma LeavingOn(s: State, a: Action)
    requires Parting(s) && Enabled(s, a) && Disciplined(s, a)
    ensures Leaving(s.u) && PastTheBus(s.l) && !a.Launch? && !a.BeginShutdown? && (a.User? ==> s.u != Idle)
  {}

  lemma SealStays(s: State, a: Action)
    requires Seal(s.f, s.l, s.u) && Leaving(s.u) && PastTheBus(s.l)
    requires !a.Launch? && !a.BeginShutdown? && !a.BeginInit? && (a.User? ==> s.u != Idle)
    ensures var t := Step(s, a); Seal(t.f, t.l, t.u)
  {
    match a
    case Dispatch(_) => hide DispatchPcNext, DispatchLedger;
    case Loop(go) => LoopKeepsSeal(s, go); hide LoopStep;
    case User(go) => UserKeepsSeal(s, go); hide UserStep;
    case _ =>
  }

  lemma LoopKeepsSeal(s: State, go: bool)
    requires Seal(s.f, s.l, s.u) && PastTheBus(s.l)
    ensures var t := LoopStep(s, go); Seal(t.f, t.l, t.u)
  {
    hide LoopLedger;
  }

  lemma UserKeepsSeal(s: State, go: bool)
    requires Seal(s.f, s.l, s.u) && Leaving(s.u) && s.u != Idle
    ensures var t := UserStep(s, go); Seal(t.f, t.l, t.u)
  {
    hide UserLedger;
  }

  lemma NotHung(s: State)
    requires Sealed(s) || Protocol(s)
    ensures !Hung(s)
  {}

  lemma {:induction false} RunAfterSealed(s: State, acts: seq<Action>)
    requires (Sealed(s) || Protocol(s)) && Valid(s, acts)
    ensures Sealed(Run(s, acts)) || Protocol(Run(s, acts))
    decreases |acts|
  {
    hide Sealed, Protocol, Step, Enabled, Disciplined;
    if acts != [] {
      StepAfterSealed(s, acts[0]);
      RunAfterSealed(Step(s, acts[0]), acts[1..]);
    }
  }

  lemma NoHangAfter(s: State)
    requires Sealed(s) || Protocol(s)
    ensures !CanHang(s)
  {
    hide Sealed, Protocol, Hung;
    forall acts | Valid(s, acts) ensures !Hung(Run(s, acts)) {
      RunAfterSealed(s, acts);
      NotHung(Run(s, acts));
    }
  }

  /** After any disciplined run, a shutdown the code lets begin can come to wait for good if and
      only if a loop is then yet to clear the stop flag in its own startPump; that includes the
      first steps of a startPump, where two owners cannot come about any more. */
  lemma HangIsTheCondition(acts: seq<Action>)
    requires Valid(INITIAL, acts) && Enabled(Run(INITIAL, acts), BeginShutdown)
    ensures var s := Run(INITIAL, acts); CanHang(Step(s, BeginShutdown)) <==> YetToReset(s.l)
  {
    RunKeepsInv(INITIAL, acts);
    var s := Run(INITIAL, acts);
    hide Run, Valid;
    if YetToReset(s.l) {
      HangsFromTheStart(s);
    } else {
      if s.l.LoopStart? {
        PartingBegins(s);
      } else {
        StepKeepsProtocol(s, BeginShutdown);
      }
      hide Parting, Protocol;
      NoHangAfter(Step(s, BeginShutdown));
    }
  }

  /** The dispatch steps still to come while the shutdown waits. */
  function Left(s: State): nat { if s.l == LoopStart(PostRequest) then 5 else Rank(s) }

  lemma SealedSpin(s: State, a: Action)
    requires Sealed(s) && s.u == FirstStop(Spin) && Enabled(s, a) && Disciplined(s, a) && !a.User?
    ensures var t := Step(s, a); t.u == s.u && (if a.Dispatch? then Left(t) < Left(s) else Left(t) <= Left(s))
  {}

  lemma SealedCertainties(s: State)
    requires Sealed(s) && s.u == FirstStop(Spin)
    ensures Left(s) <= 6 && Enabled(s, User(true))
    ensures if s.f.busy then Enabled(s, Dispatch(false)) || (s.l == LoopStart(Unlock) && Enabled(s, Loop(true)))
            else Step(s, User(true)).u == FirstStop(DropActive)
  {}

  /** Otherwise the wait ends: with a loop that is past its reset of the stop flag, at most six
      steps of the dispatch thread are to come in every interleaving, and while the shutdown
      waits they can be taken, at most after the loop's unlock. */
  lemma {:induction false} SealedWaitIsBounded(s: State, acts: seq<Action>)
    requires Sealed(s) && s.u == FirstStop(Spin) && Valid(s, acts) && forall a :: a in acts ==> !a.User?
    ensures var t := Run(s, acts);
            && Sealed(t) && t.u == FirstStop(Spin) && DispatchSteps(acts) + Left(t) <= Left(s) <= 6
            && (if t.f.busy then Enabled(t, Dispatch(false)) || (t.l == LoopStart(Unlock) && Enabled(t, Loop(true)))
                else Step(t, User(true)).u == FirstStop(DropActive))
    decreases |acts|
  {
    SealedCertainties(s);
    if acts != [] {
      var a := acts[0];
      assert a in acts && forall b :: b in acts[1..] ==> b in acts;
      SealedSpin(s, a);
      StaysSealed(s, a);
      hide Step, Enabled, Disciplined, Sealed, Left;
      SealedWaitIsBounded(Step(s, a), acts[1..]);
    }
  }

  lemma StaysSealed(s: State, a: Action)
    requires Sealed(s) && s.u == FirstStop(Spin) && Enabled(s, a) && Disciplined(s, a) && !a.User?
    ensures Sealed(Step(s, a))
  {
    LeavingOn(s, a);
    assert !a.BeginInit?;
    hide Enabled;
    SealStays(s, a);
    match a
    case Dispatch(crash) => DispatchKeepsParting(s, crash); hide Parting, DispatchStep;
    case Loop(go) => LoopKeepsParting(s, go); hide Parting, LoopStep;
    case _ => CallsAfterParting(s, a);
  }

  // ----- and that the code lets such a shutdown begin -----

  /** A loop has been launched and has not taken its first step: it does not yet report that it
      runs, and the caller of the shutdown does not wait for it. */
  const LAUNCHED: State := READY.(l := LoopStop(StoreStop))

  /** A loop was told to stop, and is on its way to start the pump again. */
  const RESTARTING: State := State(
    Flags(HeldByLoop, false, false, true, false, false, false, true, true), INITIAL.r, Waiting, LoopStart(ResetStop), Idle)

  lemma RestartIsReached()
    ensures Reached(RESTARTING)
  {
    ReadyIsReached();
    hide Reached;
    Onward(READY, Launch);
    var s1 := Step(LAUNCHED, Loop(true));
    Onward(LAUNCHED, Loop(true));
    DispatchComesBack(s1);
    var s2 := s1.(f := s1.f.(busy := false, req := false));
    var s3 := Step(s2, Loop(true));
    var s4 := Step(s3, Loop(true));
    var s5 := Step(s4, Loop(false));
    Onward(s2, Loop(true));
    Onward(s3, Loop(true));
    Onward(s4, Loop(false));
    var s6 := Step(s5, Loop(true));
    var s7 := Step(s6, Loop(true));
    Onward(s5, Loop(true));
    Onward(s6, Loop(true));
    Onward(s7, Loop(true));
  }

  /** A dispatch that finds the stop flag set. */
  lemma DispatchComesBack(s: State)
    requires Reached(s) && s.d == Waiting && s.f == Flags(Free, true, false, true, true, false, false, true, true)
    ensures Reached(s.(f := s.f.(busy := false, req := false)))
  {
    hide Reached;
    var s1 := Step(s, Dispatch(false));
    var s2 := Step(s1, Dispatch(false));
    var s3 := Step(s2, Dispatch(false));
    var s4 := Step(s3, Dispatch(false));
    Onward(s, Dispatch(false));
    Onward(s1, Dispatch(false));
    Onward(s2, Dispatch(false));
    Onward(s3, Dispatch(false));
    Onward(s4, Dispatch(false));
  }

  /** Both are reached, and the code lets a shutdown begin: the first can end with two owners and
      with a wait for good, the second with such a wait and never with two owners. */
  lemma ShutdownMeetsALoop()
    ensures Reached(LAUNCHED) && Enabled(LAUNCHED, BeginShutdown)
    ensures CanCollide(Step(LAUNCHED, BeginShutdown)) && CanHang(Step(LAUNCHED, BeginShutdown))
    ensures Reached(RESTARTING) && Enabled(RESTARTING, BeginShutdown)
    ensures !CanCollide(Step(RESTARTING, BeginShutdown)) && CanHang(Step(RESTARTING, BeginShutdown))
  {
    ReadyIsReached();
    RestartIsReached();
    hide Reached;
    Onward(READY, Launch);
    HangsFromTheStart(LAUNCHED);
    HangsFromTheStart(RESTARTING);
    hide CanHang;
    LateShutdown(LAUNCHED);
    PartingBegins(RESTARTING);
    hide Parting, Protocol, Step;
    NoCollisionAfter(Step(RESTARTING, BeginShutdown));
  }
}
