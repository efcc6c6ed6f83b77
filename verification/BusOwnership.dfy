/** The hand-over of the EtherCAT bus (the Linux branch) as a state machine of interleaved
    atomic steps.

    Three threads may exchange frames: the dispatch thread (ten bridge frames, then the
    pump), the control loop, and the user-interface thread while it initializes or shuts
    down. Each load or store of an atomic flag is one step; what happens to the flags
    guarded by the dispatch mutex while the mutex is held is either one step (when only
    guarded flags are touched) or several steps under `lock`.

    A step is what the code can do (`Enabled`); `Disciplined` is the condition under which
    the hand-over works: the loop is launched while no initialization or shutdown is under
    way, and these begin while no loop runs. The code's own gate for a launch, the master
    being operational, does not give that. */
module BusOwnership {

  const BRIDGE_FRAMES: nat := 10

  /** Which frame the dispatch thread is at: one of the bridge's (with the number already
      sent) or one of the pump's. */
  datatype Stage = Bridge(sent: nat) | Pump

  datatype DispatchPc =
    | Waiting              // in the condition wait, or about to enter it
    | CheckLoop            // startPumpBody: about to load m_rtLoopActive
    | CheckPump            // about to load m_pumpActive
    | CheckStop            // about to load m_pumpStop, last gate before the bridge
    | BridgeHead(sent: nat) // head of the bridge loop: about to load m_pumpStop
    | CheckStopAgain       // about to load m_pumpStop, last gate before the pump
    | StoreActive          // about to store m_pumpActive
    | PumpHead             // pump loop guard: about to load m_pumpActive
    | PumpGuard            // ... and m_pumpStop
    | TakeStop(at: Stage)  // serviceStopRequest: the plain load
    | SwapStop(at: Stage)  // ... the exchange
    | Send(at: Stage)      // the frame
    | ClearBusy            // about to store m_dispatchBusy := false
    | Gone                 // the thread has ended

  /** startPump, by whichever thread calls it. */
  datatype StartPc = LoadActive | TakeLock | ResetStop | PostRequest | SetBusy | Unlock

  /** stopPump, by whichever thread calls it. */
  datatype StopPc = StoreStop | Spin | DropActive

  datatype LoopPc =
    | NoLoop
    | LoopStop(at: StopPc)
    | Claim                // about to store m_rtLoopActive := true
    | LoopTakeStop | LoopSwapStop | LoopTakeReset | LoopSwapReset | LoopSend
    | Release              // about to store m_rtLoopActive := false
    | LoopStart(start: StartPc)
    | LoopDone             // run() has returned, not yet joined

  datatype UserPc =
    | Idle
    | InitClear            // a new session: drop what was asked
    | InitDispatch         // make the dispatch thread if it is gone
    | InitSend             // the init sequence's own frames
    | UserStart(start: StartPc)
    | FirstStop(at: StopPc)
    | PostStop             // under the mutex: stop := true, request := false
    | JoinDispatch
    | SecondStop(at: StopPc)
    | ShutdownClear
    | ShutdownSend

  datatype Holder = Free | HeldByLoop | HeldByUser

  /** The hand-over's flags: the first three are the dispatch mutex and what it guards. */
  datatype Flags = Flags(
    lock: Holder, req: bool, stop: bool,
    pumpStop: bool, busy: bool, pumpActive: bool, rtLoop: bool,
    up: bool,                                   // m_initialized
    op: bool)                                   // m_masterState is Op

  /** The two BusRequest flags and the history of each: groups opened (a request that
      found none pending), carried out, dropped by a clear. For the pending stop: the frames
      of the dispatch thread and the loop sent since it was asked, those of an
      initialization or shutdown, and whether it was asked amid one of these. */
  datatype Ledger = Ledger(
    asked: bool, groups: nat, carried: nat, dropped: nat, late: nat, byUser: nat, amid: bool,
    askedReset: bool, resetGroups: nat, resetCarried: nat, resetDropped: nat)

  datatype State = State(f: Flags, r: Ledger, d: DispatchPc, l: LoopPc, u: UserPc)

  const INITIAL: State := State(
    Flags(Free, false, false, false, false, false, false, false, false),
    Ledger(false, 0, 0, 0, 0, 0, false, false, 0, 0, 0),
    Waiting, NoLoop, Idle)

  /** One step of one thread. `crash`: the frame's exchange faulted. `go`: which way an
      adversarial choice of the loop or of the user thread falls. */
  datatype Action =
    | Dispatch(crash: bool)
    | Loop(go: bool)
    | User(go: bool)
    | Launch | Join | BeginInit | BeginShutdown
    | AskStop | AskReset

  // ----- what may happen next -----

  predicate StartBlocked(f: Flags, at: StartPc) { at == TakeLock && f.lock != Free }

  /** What the code itself allows next, whoever calls what. */
  predicate Enabled(s: State, a: Action) {
    match a
    case Dispatch(_) => s.d != Gone && (s.d == Waiting ==> s.f.lock == Free && (s.f.req || s.f.stop))
    case Loop(_) => s.l != NoLoop && s.l != LoopDone && (s.l.LoopStart? ==> !StartBlocked(s.f, s.l.start))
    case User(_) =>
      && s.u != Idle
      && (s.u.UserStart? ==> !StartBlocked(s.f, s.u.start))
      && (s.u == PostStop ==> s.f.lock == Free)
      && (s.u == JoinDispatch ==> s.d == Gone)
    case Launch => s.l == NoLoop && s.f.op
    case Join => s.l == LoopDone
    case BeginInit => s.u == Idle && !s.f.up
    case BeginShutdown => s.u == Idle && s.f.up
    case AskStop => true
    case AskReset => true
  }

  /** One of init, loop and shutdown at a time. An initialization that has only its unlock
      left to do no longer counts, nor does a loop that has returned. */
  predicate Disciplined(s: State, a: Action) {
    match a
    case Launch => s.u == Idle || s.u == UserStart(Unlock)
    case BeginInit => s.l == NoLoop || s.l == LoopDone
    case BeginShutdown => s.l == NoLoop || s.l == LoopDone
    case _ => true
  }

  // ----- the request flags -----

  function AfterFrame(r: Ledger): Ledger {
    if r.asked then r.(late := r.late + 1) else r
  }

  /** BusRequest.take's exchange. */
  function SwapAsked(r: Ledger): Ledger {
    if r.asked then r.(asked := false, carried := r.carried + 1) else r
  }

  function SwapAskedReset(r: Ledger): Ledger {
    if r.askedReset then r.(askedReset := false, resetCarried := r.resetCarried + 1) else r
  }

  /** The user thread is past its clear and may still send frames of its own. */
  predicate AmidSession(u: UserPc) { u == InitDispatch || u == InitSend || u == ShutdownSend }

  function Ask(r: Ledger, u: UserPc): Ledger {
    if r.asked then r
    else r.(asked := true, groups := r.groups + 1, late := 0, byUser := 0, amid := AmidSession(u))
  }

  function AskForReset(r: Ledger): Ledger {
    if r.askedReset then r else r.(askedReset := true, resetGroups := r.resetGroups + 1)
  }

  function ClearBoth(r: Ledger): Ledger {
    var q := if r.asked then r.(asked := false, dropped := r.dropped + 1) else r;
    if r.askedReset then q.(askedReset := false, resetDropped := r.resetDropped + 1) else q
  }

  // ----- the dispatch thread -----

  /** Where a sent frame leads; a crashed exchange ends the bridge or the pump. */
  function AfterSend(at: Stage, crash: bool): DispatchPc {
    match at
    case Bridge(n) => if crash then CheckStopAgain else BridgeHead(n + 1)
    case Pump => if crash then ClearBusy else PumpHead
  }

  function DispatchPcNext(s: State, crash: bool): DispatchPc {
    match s.d
    case Waiting => if s.f.stop then Gone else CheckLoop
    case CheckLoop => if s.f.rtLoop then ClearBusy else CheckPump
    case CheckPump => if s.f.pumpActive then ClearBusy else CheckStop
    case CheckStop => if s.f.pumpStop then ClearBusy else BridgeHead(0)
    case BridgeHead(n) => if n >= BRIDGE_FRAMES || s.f.pumpStop then CheckStopAgain else TakeStop(Bridge(n))
    case CheckStopAgain => if s.f.pumpStop then ClearBusy else StoreActive
    case StoreActive => PumpHead
    case PumpHead => if s.f.pumpActive then PumpGuard else ClearBusy
    case PumpGuard => if s.f.pumpStop then ClearBusy else TakeStop(Pump)
    case TakeStop(at) => if s.r.asked then SwapStop(at) else Send(at)
    case SwapStop(at) => Send(at)
    case Send(at) => AfterSend(at, crash)
    case ClearBusy => Waiting
    case Gone => Gone
  }

  function DispatchFlags(f: Flags, d: DispatchPc): Flags {
    match d
    case Waiting => if f.stop then f.(busy := false) else f.(req := false)
    case StoreActive => f.(pumpActive := true)
    case ClearBusy => f.(busy := false)
    case _ => f
  }

  function DispatchLedger(r: Ledger, d: DispatchPc): Ledger {
    match d
    case SwapStop(_) => SwapAsked(r)
    case Send(_) => AfterFrame(r)
    case _ => r
  }

  function DispatchStep(s: State, crash: bool): State {
    State(DispatchFlags(s.f, s.d), DispatchLedger(s.r, s.d), DispatchPcNext(s, crash), s.l, s.u)
  }

  // ----- startPump and stopPump -----

  /** The flags after one step of startPump by the thread `me`. */
  function StartFlags(f: Flags, at: StartPc, me: Holder): Flags {
    match at
    case LoadActive => f
    case TakeLock => if f.stop then f else f.(lock := me)
    case ResetStop => f.(pumpStop := false)
    case PostRequest => f.(req := true)
    case SetBusy => f.(busy := true)
    case Unlock => f.(lock := Free)
  }

  datatype StartNext = On(at: StartPc) | Over

  function StartPcNext(f: Flags, at: StartPc): StartNext {
    match at
    case LoadActive => if !f.up || f.pumpActive then Over else On(TakeLock)
    case TakeLock => if f.stop then Over else On(ResetStop)
    case ResetStop => On(PostRequest)
    case PostRequest => On(SetBusy)
    case SetBusy => On(Unlock)
    case Unlock => Over
  }

  function StopFlags(f: Flags, at: StopPc): Flags {
    match at
    case StoreStop => f.(pumpStop := true)
    case Spin => f
    case DropActive => f.(pumpActive := false)
  }

  datatype StopNext = Still(at: StopPc) | Stopped

  function StopPcNext(f: Flags, at: StopPc): StopNext {
    match at
    case StoreStop => Still(Spin)
    case Spin => Still(if f.busy then Spin else DropActive)
    case DropActive => Stopped
  }

  // ----- the control loop -----

  function LoopPcNext(s: State, go: bool): LoopPc {
    match s.l
    case LoopStop(at) => (match StopPcNext(s.f, at) case Still(n) => LoopStop(n) case Stopped => Claim)
    case Claim => if go then LoopTakeStop else Release
    case LoopTakeStop => if s.r.asked then LoopSwapStop else LoopTakeReset
    case LoopSwapStop => LoopTakeReset
    case LoopTakeReset => if s.r.askedReset then LoopSwapReset else LoopSend
    case LoopSwapReset => LoopSend
    case LoopSend => if go then LoopTakeStop else Release
    case Release => LoopStart(LoadActive)
    case LoopStart(at) => (match StartPcNext(s.f, at) case On(n) => LoopStart(n) case Over => LoopDone)
    case NoLoop => NoLoop
    case LoopDone => LoopDone
  }

  function LoopFlags(f: Flags, l: LoopPc): Flags {
    match l
    case LoopStop(at) => StopFlags(f, at)
    case Claim => f.(rtLoop := true)
    case Release => f.(rtLoop := false)
    case LoopStart(at) => StartFlags(f, at, HeldByLoop)
    case _ => f
  }

  function LoopLedger(r: Ledger, l: LoopPc): Ledger {
    match l
    case LoopSwapStop => SwapAsked(r)
    case LoopSwapReset => SwapAskedReset(r)
    case LoopSend => AfterFrame(r)
    case _ => r
  }

  function LoopStep(s: State, go: bool): State {
    State(LoopFlags(s.f, s.l), LoopLedger(s.r, s.l), s.d, LoopPcNext(s, go), s.u)
  }

  // ----- initialization and shutdown -----

  function UserPcNext(s: State, go: bool): UserPc {
    match s.u
    case Idle => Idle
    case InitClear => InitDispatch
    case InitDispatch => InitSend
    case InitSend => if go then InitSend else UserStart(LoadActive)
    case UserStart(at) => (match StartPcNext(s.f, at) case On(n) => UserStart(n) case Over => Idle)
    case FirstStop(at) => (match StopPcNext(s.f, at) case Still(n) => FirstStop(n) case Stopped => PostStop)
    case PostStop => JoinDispatch
    case JoinDispatch => SecondStop(StoreStop)
    case SecondStop(at) => (match StopPcNext(s.f, at) case Still(n) => SecondStop(n) case Stopped => ShutdownClear)
    case ShutdownClear => ShutdownSend
    case ShutdownSend => if go then ShutdownSend else Idle
  }

  function UserFlags(f: Flags, d: DispatchPc, u: UserPc, go: bool): Flags {
    match u
    case InitDispatch => if d == Gone then f.(stop := false, req := false, up := true) else f.(up := true)
    case UserStart(at) => StartFlags(f, at, HeldByUser)
    case FirstStop(at) => StopFlags(f, at)
    case PostStop => f.(stop := true, req := false)
    case SecondStop(at) => StopFlags(f, at)
    case InitSend => if go then f else f.(op := true)
    case ShutdownSend => if go then f else f.(up := false, op := false)
    case _ => f
  }

  function UserLedger(r: Ledger, u: UserPc, go: bool): Ledger {
    if u == InitClear || u == ShutdownClear then ClearBoth(r)
    else if (u == InitSend || u == ShutdownSend) && go && r.asked then r.(byUser := r.byUser + 1)
    else r
  }

  function UserStep(s: State, go: bool): State {
    State(UserFlags(s.f, s.d, s.u, go), UserLedger(s.r, s.u, go),
          if s.u == InitDispatch && s.d == Gone then Waiting else s.d, s.l, UserPcNext(s, go))
  }

  // ----- runs -----

  function Step(s: State, a: Action): State {
    match a
    case Dispatch(crash) => DispatchStep(s, crash)
    case Loop(go) => LoopStep(s, go)
    case User(go) => UserStep(s, go)
    case Launch => s.(l := LoopStop(StoreStop))
    case Join => s.(l := NoLoop)
    case BeginInit => s.(u := InitClear)
    case BeginShutdown => s.(u := FirstStop(StoreStop))
    case AskStop => s.(r := Ask(s.r, s.u))
    case AskReset => s.(r := AskForReset(s.r))
  }

  /** The state after the steps `acts`. */
  function Run(s: State, acts: seq<Action>): State
    decreases |acts|
  {
    if acts == [] then s else Run(Step(s, acts[0]), acts[1..])
  }

  /** The code can take the steps `acts`, one after the other. */
  predicate Possible(s: State, acts: seq<Action>)
    decreases |acts|
  {
    acts != [] ==> Enabled(s, acts[0]) && Possible(Step(s, acts[0]), acts[1..])
  }

  /** ... and the discipline is kept throughout. */
  predicate Valid(s: State, acts: seq<Action>)
    decreases |acts|
  {
    acts != [] ==> Enabled(s, acts[0]) && Disciplined(s, acts[0]) && Valid(Step(s, acts[0]), acts[1..])
  }

  // ----- who holds the bus -----

  /** The dispatch thread is inside startPumpBody. */
  predicate InBody(d: DispatchPc) { d != Waiting && d != Gone }

  /** From reading the stop flag clear until the body is left. */
  predicate DispatchOwns(d: DispatchPc) {
    InBody(d) && d != CheckLoop && d != CheckPump && d != CheckStop && d != ClearBusy
  }

  /** From stopPump seeing the dispatch done until the loop gives the bus up. */
  predicate LoopOwns(l: LoopPc) {
    l == LoopStop(DropActive) || l == Claim || l == LoopTakeStop || l == LoopSwapStop
    || l == LoopTakeReset || l == LoopSwapReset || l == LoopSend || l == Release
  }

  /** Initializing, or shutting down with the dispatch thread joined. */
  predicate UserOwns(u: UserPc) {
    u == InitClear || u == InitDispatch || u == InitSend || u.SecondStop? || u == ShutdownClear || u == ShutdownSend
  }

  predicate AtMostOneOwner(s: State) {
    && !(DispatchOwns(s.d) && LoopOwns(s.l))
    && !(DispatchOwns(s.d) && UserOwns(s.u))
    && !(LoopOwns(s.l) && UserOwns(s.u))
  }

  // ----- the inductive invariant -----

  predicate HoldsLock(at: StartPc) { at != LoadActive && at != TakeLock }
  predicate BeforePost(at: StartPc) { at == LoadActive || at == TakeLock || at == ResetStop || at == PostRequest }

  /** No dispatch is posted or under way, none will store into the busy flag. */
  predicate Quiet(f: Flags, d: DispatchPc) { !f.req && !f.busy && !InBody(d) }

  /** Shutdown has told the dispatch thread to end, or it has not been made again yet. */
  predicate Ending(u: UserPc) { u == JoinDispatch || u.SecondStop? || u == ShutdownClear || u == ShutdownSend }
  predicate Down(u: UserPc) { u == Idle || u == InitClear || u == InitDispatch }

  predicate LoopRuns(l: LoopPc) { l != NoLoop && l != LoopDone }

  /** The discipline, in every state. */
  predicate OneAtATime(f: Flags, l: LoopPc, u: UserPc) {
    && (LoopRuns(l) ==> (u == Idle || u == UserStart(Unlock)) && f.up)
    && ((u == InitClear || u == InitDispatch) ==> !f.up)
    && (!f.up ==> Down(u))
    && (f.op ==> f.up && u != InitSend)
  }

  /** The mutex, the busy flag and the life of the dispatch thread. */
  predicate Dispatching(f: Flags, d: DispatchPc, l: LoopPc, u: UserPc) {
    && (f.lock == HeldByLoop <==> l.LoopStart? && HoldsLock(l.start))
    && (f.lock == HeldByUser <==> u.UserStart? && HoldsLock(u.start))
    && (InBody(d) ==> f.busy && !f.req)
    && (f.busy ==> f.req || InBody(d))
    && (f.req && !f.busy ==> l == LoopStart(SetBusy) || u == UserStart(SetBusy))
    && (l == LoopStart(SetBusy) || u == UserStart(SetBusy) ==> f.req && !f.busy)
    && (f.stop ==> Ending(u) || !f.up)
    && (Ending(u) ==> f.stop)
    && (d == Gone ==> f.stop)
    && (f.stop && u != JoinDispatch ==> d == Gone)
  }

  /** What a thread in a stretch of the protocol may rely on. */
  predicate Handover(f: Flags, d: DispatchPc, l: LoopPc, u: UserPc) {
    && (LoopOwns(l) || (l.LoopStart? && BeforePost(l.start)) ==> Quiet(f, d))
    && (UserOwns(u) || (u.UserStart? && BeforePost(u.start)) ==> Quiet(f, d))
    && (u == FirstStop(DropActive) || u == PostStop || u == JoinDispatch || !f.up ==> Quiet(f, d))
    && (l == LoopStop(Spin) || u == FirstStop(Spin) ==> f.pumpStop)
    && (f.rtLoop ==> LoopOwns(l))
    && ((LoopOwns(l) && !l.LoopStop?) || (l.LoopStart? && BeforePost(l.start)) ==> !f.pumpActive)
    && (UserOwns(u) || u == PostStop || u == JoinDispatch || !f.up || (u.UserStart? && u.start != Unlock) ==> !f.pumpActive)
  }

  /** A thread past its take of the stop request and not yet past the frame that follows. */
  predicate LoopPastTake(l: LoopPc) { l == LoopTakeReset || l == LoopSwapReset || l == LoopSend }

  /** Every group of requests is carried out once, dropped once, or still pending. */
  predicate Balanced(r: Ledger) {
    && r.groups == r.carried + r.dropped + (if r.asked then 1 else 0)
    && r.resetGroups == r.resetCarried + r.resetDropped + (if r.askedReset then 1 else 0)
  }

  /** A pending stop is behind at most one owner frame: one sent since, or one thread that
      is past its take. */
  predicate Prompt(r: Ledger, d: DispatchPc, l: LoopPc) {
    && (d.SwapStop? || l == LoopSwapStop ==> r.asked)
    && (l == LoopSwapReset ==> r.askedReset)
    && (r.asked ==> r.late + (if d.Send? then 1 else 0) + (if LoopPastTake(l) then 1 else 0) <= 1)
  }

  /** A stop asked amid no session sees none of its frames: the clear comes first. */
  predicate PromptUser(r: Ledger, u: UserPc) { r.asked && !r.amid ==> r.byUser == 0 && !AmidSession(u) }

  predicate Protocol(s: State) {
    OneAtATime(s.f, s.l, s.u) && Dispatching(s.f, s.d, s.l, s.u) && Handover(s.f, s.d, s.l, s.u)
  }

  predicate Inv(s: State) { Protocol(s) && Balanced(s.r) && Prompt(s.r, s.d, s.l) && PromptUser(s.r, s.u) }

  lemma ProtocolGivesOneOwner(s: State)
    requires Protocol(s)
    ensures AtMostOneOwner(s)
  {}

  lemma DispatchKeepsProtocol(s: State, crash: bool)
    requires Protocol(s) && Enabled(s, Dispatch(crash))
    ensures Protocol(DispatchStep(s, crash))
  {}

  lemma LoopKeepsDispatching(s: State, go: bool)
    requires Protocol(s) && Enabled(s, Loop(go))
    ensures var t := LoopStep(s, go); OneAtATime(t.f, t.l, t.u) && Dispatching(t.f, t.d, t.l, t.u)
  {}

  lemma LoopKeepsHandover(s: State, go: bool)
    requires Protocol(s) && Enabled(s, Loop(go))
    ensures var t := LoopStep(s, go); Handover(t.f, t.d, t.l, t.u)
  {
    hide LoopLedger, Rank;
    match s.l
    case LoopStop(_) =>
    case LoopStart(_) =>
    case _ =>
  }

  lemma UserKeepsOneAtATime(s: State, go: bool)
    requires Protocol(s) && Enabled(s, User(go))
    ensures var t := UserStep(s, go); OneAtATime(t.f, t.l, t.u)
  {}

  lemma UserKeepsDispatching(s: State, go: bool)
    requires Protocol(s) && Enabled(s, User(go))
    ensures var t := UserStep(s, go); Dispatching(t.f, t.d, t.l, t.u)
  {}

  lemma UserKeepsHandover(s: State, go: bool)
    requires Protocol(s) && Enabled(s, User(go))
    ensures var t := UserStep(s, go); Handover(t.f, t.d, t.l, t.u)
  {}

  lemma StepKeepsBalance(s: State, a: Action)
    requires Balanced(s.r)
    ensures Balanced(Step(s, a).r)
  {
    hide DispatchFlags, DispatchPcNext, LoopFlags, LoopPcNext, UserFlags, UserPcNext;
  }

  lemma DispatchKeepsPrompt(s: State, crash: bool)
    requires Inv(s) && Enabled(s, Dispatch(crash))
    ensures var t := DispatchStep(s, crash); Prompt(t.r, t.d, t.l) && PromptUser(t.r, t.u)
  {
    ProtocolGivesOneOwner(s);
    hide Dispatching, Handover, OneAtATime, DispatchFlags;
  }

  lemma LoopKeepsPrompt(s: State, go: bool)
    requires Inv(s) && Enabled(s, Loop(go))
    ensures var t := LoopStep(s, go); Prompt(t.r, t.d, t.l) && PromptUser(t.r, t.u)
  {
    ProtocolGivesOneOwner(s);
    hide Dispatching, Handover, OneAtATime, LoopFlags;
  }

  lemma UserKeepsPrompt(s: State, go: bool)
    requires Inv(s) && Enabled(s, User(go))
    ensures var t := UserStep(s, go); Prompt(t.r, t.d, t.l) && PromptUser(t.r, t.u)
  {
    ProtocolGivesOneOwner(s);
    hide Dispatching, Handover, OneAtATime;
  }

  lemma StepKeepsProtocol(s: State, a: Action)
    requires Protocol(s) && Enabled(s, a) && Disciplined(s, a)
    ensures Protocol(Step(s, a))
  {
    match a
    case Dispatch(crash) =>
      DispatchKeepsProtocol(s, crash);
      hide Protocol, DispatchStep;
    case Loop(go) =>
      LoopKeepsDispatching(s, go);
      LoopKeepsHandover(s, go);
      hide OneAtATime, Dispatching, Handover, LoopStep;
    case User(go) =>
      UserKeepsOneAtATime(s, go);
      UserKeepsDispatching(s, go);
      UserKeepsHandover(s, go);
      hide OneAtATime, Dispatching, Handover, UserStep;
    case _ => CallsKeepProtocol(s, a);
  }

  /** What callers begin and ask. */
  lemma CallsKeepProtocol(s: State, a: Action)
    requires Protocol(s) && Enabled(s, a) && Disciplined(s, a) && !a.Dispatch? && !a.Loop? && !a.User?
    ensures Protocol(Step(s, a))
  {}

  lemma StepKeepsInv(s: State, a: Action)
    requires Inv(s) && Enabled(s, a) && Disciplined(s, a)
    ensures Inv(Step(s, a))
  {
    StepKeepsBalance(s, a);
    StepKeepsProtocol(s, a);
    hide Balanced, Protocol, Disciplined;
    match a
    case Dispatch(crash) => DispatchKeepsPrompt(s, crash); hide DispatchStep;
    case Loop(go) => LoopKeepsPrompt(s, go); hide LoopStep;
    case User(go) => UserKeepsPrompt(s, go); hide UserStep;
    case _ =>
  }

  lemma {:induction false} RunKeepsInv(s: State, acts: seq<Action>)
    requires Inv(s) && Valid(s, acts)
    ensures Inv(Run(s, acts))
    decreases |acts|
  {
    if acts != [] {
      StepKeepsInv(s, acts[0]);
      RunKeepsInv(Step(s, acts[0]), acts[1..]);
    }
  }

  // ----- one owner, and what it does with requests -----

  /** In every interleaving in which the discipline is kept, at most one thread owns the bus: no
      two ever exchange a frame at the same time. `LaunchIsTheCondition` says that nothing
      less will do. */
  lemma MutualExclusion(acts: seq<Action>)
    requires Valid(INITIAL, acts)
    ensures AtMostOneOwner(Run(INITIAL, acts))
  {
    RunKeepsInv(INITIAL, acts);
    ProtocolGivesOneOwner(Run(INITIAL, acts));
  }

  /** In every disciplined interleaving, each group of requests (those asked before one take)
      is carried out exactly once, or dropped once, or is still pending; and while a stop is
      pending at most one frame of the dispatch thread or the loop has gone out since it was
      asked, and none of an initialization or shutdown unless it was asked amid that. */
  lemma RequestsConserved(acts: seq<Action>)
    requires Valid(INITIAL, acts)
    ensures var r := Run(INITIAL, acts).r;
            && r.groups == r.carried + r.dropped + (if r.asked then 1 else 0)
            && r.resetGroups == r.resetCarried + r.resetDropped + (if r.askedReset then 1 else 0)
            && (r.asked ==> r.late <= 1 && (!r.amid ==> r.byUser == 0))
  {
    RunKeepsInv(INITIAL, acts);
  }

  /** The exception is real: a stop asked after an initialization has dropped what was asked
      waits through all of its frames, however many. */
  lemma {:induction false} InitializationSendsOn(n: nat) returns (acts: seq<Action>)
    ensures Valid(INITIAL, acts)
    ensures var s := Run(INITIAL, acts); s.u == InitSend && s.r.asked && s.r.amid && s.r.byUser == n
  {
    if n == 0 {
      acts := [BeginInit, User(true), User(true), AskStop];
      var s1, s2, s3 := Step(INITIAL, BeginInit), Step(Step(INITIAL, BeginInit), User(true)), Step(Step(Step(INITIAL, BeginInit), User(true)), User(true));
      assert acts[1..] == [User(true), User(true), AskStop] && acts[2..] == [User(true), AskStop] && acts[3..] == [AskStop];
      assert Valid(s3, [AskStop]) && Valid(s2, [User(true), AskStop]) && Valid(s1, acts[1..]);
    } else {
      var before := InitializationSendsOn(n - 1);
      ValidAppend(INITIAL, before, User(true));
      acts := before + [User(true)];
    }
  }

  lemma {:induction false} ValidAppend(s: State, acts: seq<Action>, a: Action)
    requires Valid(s, acts) && Enabled(Run(s, acts), a) && Disciplined(Run(s, acts), a)
    ensures Valid(s, acts + [a]) && Run(s, acts + [a]) == Step(Run(s, acts), a)
    decreases |acts|
  {
    hide Step, Enabled, Disciplined;
    if acts == [] {
      assert [] + [a] == [a] && [a][1..] == [];
    } else {
      assert (acts + [a])[1..] == acts[1..] + [a];
      ValidAppend(Step(s, acts[0]), acts[1..], a);
    }
  }

  /** Only a shutdown or the start of a new session drops a request, and only an owner
      ever takes one. */
  lemma WhoTakesRequests(acts: seq<Action>, a: Action)
    requires Valid(INITIAL, acts) && Enabled(Run(INITIAL, acts), a)
    ensures var s := Run(INITIAL, acts); var t := Step(s, a);
            && (t.r.dropped != s.r.dropped || t.r.resetDropped != s.r.resetDropped
                ==> a.User? && UserOwns(s.u) && (s.u == InitClear || s.u == ShutdownClear))
            && (t.r.carried != s.r.carried
                ==> (a.Dispatch? && DispatchOwns(s.d)) || (a.Loop? && LoopOwns(s.l)))
            && (t.r.resetCarried != s.r.resetCarried ==> a.Loop? && LoopOwns(s.l))
  {
    RunKeepsInv(INITIAL, acts);
  }

  predicate NoLoopOrUser(acts: seq<Action>) { forall a :: a in acts ==> !a.Loop? && !a.User? }

  /** A fault reset asked while no loop runs outlives any number of bridge and pump
      frames, whatever else is asked meanwhile. */
  lemma {:induction false} ResetSurvivesThePump(s: State, acts: seq<Action>)
    requires Possible(s, acts) && s.r.askedReset && NoLoopOrUser(acts)
    ensures Run(s, acts).r.askedReset
    ensures Run(s, acts).r.resetCarried == s.r.resetCarried && Run(s, acts).r.resetDropped == s.r.resetDropped
    decreases |acts|
  {
    if acts != [] {
      assert acts[0] in acts;
      ResetSurvivesThePump(Step(s, acts[0]), acts[1..]);
    }
  }

  /** ... and is carried out before the loop's next frame: from its take of the resets the
      loop reaches the frame with the reset started, and none is pending there unless it
      was asked since. */
  lemma LoopFrameServesTheReset(s: State, go: bool)
    requires s.l == LoopTakeReset && s.r.askedReset
    ensures var t := LoopStep(s, go); var v := LoopStep(t, go);
            && Enabled(s, Loop(go)) && t.l == LoopSwapReset && Enabled(t, Loop(go)) && v.l == LoopSend
            && !v.r.askedReset && v.r.resetCarried == s.r.resetCarried + 1
  {}

  // ----- stopPump and shutdown end -----

  /** How many steps of its own the dispatch thread needs, once the stop flag is set, to
      clear the busy flag. */
  function Rank(s: State): nat {
    match s.d
    case Waiting => if s.f.req then 5 else 0
    case CheckLoop => 4
    case CheckPump => 3
    case CheckStop => 2
    case BridgeHead(_) => 3
    case TakeStop(_) => 6
    case SwapStop(_) => 5
    case Send(_) => 4
    case CheckStopAgain => 2
    case StoreActive => 4
    case PumpHead => 3
    case PumpGuard => 2
    case ClearBusy => 1
    case Gone => 0
  }

  /** Some thread waits in stopPump for the dispatch to be done. */
  predicate Spinning(s: State) { s.l == LoopStop(Spin) || s.u == FirstStop(Spin) }

  /** Any step but one of the waiting thread's own. */
  predicate Elsewhere(s: State, a: Action) {
    (s.l == LoopStop(Spin) ==> !a.Loop?) && (s.u == FirstStop(Spin) ==> !a.User?)
  }

  /** While a thread waits in stopPump, each step of the dispatch thread brings the end of
      the dispatch nearer, and no one else moves it away. */
  lemma SpinProgress(s: State, a: Action)
    requires Protocol(s) && Spinning(s) && Enabled(s, a) && Disciplined(s, a) && Elsewhere(s, a)
    ensures Rank(s) <= 6
    ensures Spinning(Step(s, a))
    ensures if a.Dispatch? then Rank(Step(s, a)) < Rank(s) else Rank(Step(s, a)) == Rank(s)
  {}

  function DispatchSteps(acts: seq<Action>): nat {
    if acts == [] then 0 else (if acts[0].Dispatch? then 1 else 0) + DispatchSteps(acts[1..])
  }

  predicate AllElsewhere(s: State, acts: seq<Action>)
    decreases |acts|
  {
    acts != [] ==> Elsewhere(s, acts[0]) && AllElsewhere(Step(s, acts[0]), acts[1..])
  }

  lemma SpinCertainties(s: State)
    requires Protocol(s) && Spinning(s)
    ensures Rank(s) <= 6 && (s.f.busy <==> Rank(s) > 0)
    ensures s.f.busy ==> Enabled(s, Dispatch(false)) || (s.u == UserStart(Unlock) && Enabled(s, User(true)))
  {}

  /** A waiting stopPump is released after at most six steps of the dispatch thread, in
      every interleaving with all the others' steps, and these can always be taken, at most
      after the unlock that ends an initialization: so it cannot wait forever. */
  lemma {:induction false} SpinIsBounded(s: State, acts: seq<Action>)
    requires Inv(s) && Spinning(s) && Valid(s, acts) && AllElsewhere(s, acts)
    ensures var t := Run(s, acts);
            && Inv(t) && Spinning(t)
            && DispatchSteps(acts) + Rank(t) <= Rank(s) <= 6
            && (t.f.busy <==> Rank(t) > 0)
            && (t.f.busy ==> Enabled(t, Dispatch(false)) || (t.u == UserStart(Unlock) && Enabled(t, User(true))))
    decreases |acts|
  {
    if acts == [] {
      SpinCertainties(s);
    } else {
      var a := acts[0];
      SpinProgress(s, a);
      StepKeepsInv(s, a);
      hide Step, Enabled, Disciplined, Inv, Rank, Elsewhere;
      SpinIsBounded(Step(s, a), acts[1..]);
    }
  }

  /** The join in shutdown ends: the dispatch thread is at its wait with the stop set, can
      move, and its next step is its last. */
  lemma JoinEnds(acts: seq<Action>)
    requires Valid(INITIAL, acts) && Run(INITIAL, acts).u == JoinDispatch && Run(INITIAL, acts).d != Gone
    ensures var s := Run(INITIAL, acts);
            Enabled(s, Dispatch(false)) && Step(s, Dispatch(false)).d == Gone
  {
    RunKeepsInv(INITIAL, acts);
  }

  // ----- why the discipline is needed -----

  /** From here the code, with the discipline kept from now on, can get two owners. */
  ghost predicate CanCollide(s: State) {
    exists acts :: Valid(s, acts) && !AtMostOneOwner(Run(s, acts))
  }

  lemma Collides(s: State)
    requires !AtMostOneOwner(s)
    ensures CanCollide(s)
  {
    assert Valid(s, []) && Run(s, []) == s;
  }

  /** One step earlier. */
  lemma Earlier(s: State, a: Action)
    requires Enabled(s, a) && Disciplined(s, a) && CanCollide(Step(s, a))
    ensures CanCollide(s)
  {
    hide Step, Enabled, Disciplined, AtMostOneOwner;
    var acts :| Valid(Step(s, a), acts) && !AtMostOneOwner(Run(Step(s, a), acts));
    assert ([a] + acts)[1..] == acts;
    assert Valid(s, [a] + acts);
  }

  predicate AnotherOwns(s: State) { DispatchOwns(s.d) || UserOwns(s.u) }

  /** Another thread owns the bus and no dispatch is flagged: the loop comes through stopPump. */
  lemma LoopArrives(s: State)
    requires s.l.LoopStop? && !s.f.busy && AnotherOwns(s)
    ensures CanCollide(s)
  {
    if s.l.at == StoreStop {
      Spins(Step(s, Loop(true)));
      Earlier(s, Loop(true));
    } else {
      Spins(s);
    }
  }

  lemma Spins(s: State)
    requires s.l == LoopStop(Spin) || s.l == LoopStop(DropActive)
    requires !s.f.busy && AnotherOwns(s)
    ensures CanCollide(s)
  {
    if s.l.at == Spin {
      Collides(Step(s, Loop(true)));
      Earlier(s, Loop(true));
    } else {
      Collides(s);
    }
  }

  /** The loop owns the bus and nothing is dispatched: the shutdown goes through. */
  lemma ShutdownArrives(s: State)
    requires LoopOwns(s.l) && Quiet(s.f, s.d) && s.f.lock == Free
    requires s.u == FirstStop(DropActive) || s.u == PostStop || (s.u == JoinDispatch && s.f.stop)
    ensures CanCollide(s)
  {
    if s.u == FirstStop(DropActive) {
      var t := Step(s, User(true));
      Joins(Step(t, User(true)));
      Earlier(t, User(true));
      Earlier(s, User(true));
    } else if s.u == PostStop {
      Joins(Step(s, User(true)));
      Earlier(s, User(true));
    } else {
      Joins(s);
    }
  }

  lemma Joins(s: State)
    requires LoopOwns(s.l) && s.u == JoinDispatch && (s.d == Waiting || s.d == Gone) && s.f.stop && s.f.lock == Free
    ensures CanCollide(s)
  {
    if s.d == Gone {
      Collides(Step(s, User(true)));
      Earlier(s, User(true));
    } else {
      var t := Step(s, Dispatch(false));
      Collides(Step(t, User(true)));
      Earlier(t, User(true));
      Earlier(s, Dispatch(false));
    }
  }

  /** The loop and the shutdown are both in stopPump, the dispatch done: one after the other
      they come through. */
  lemma BothCome(s: State)
    requires s.l.LoopStop? && Quiet(s.f, s.d) && s.f.lock == Free
    requires s.u == FirstStop(DropActive) || s.u == PostStop || (s.u == JoinDispatch && s.f.stop)
    ensures CanCollide(s)
  {
    if s.l.at == StoreStop {
      var t := Step(s, Loop(true));
      var v := Step(t, Loop(true));
      ShutdownArrives(v);
      Earlier(t, Loop(true));
      Earlier(s, Loop(true));
    } else if s.l.at == Spin {
      ShutdownArrives(Step(s, Loop(true)));
      Earlier(s, Loop(true));
    } else {
      ShutdownArrives(s);
    }
  }

  /** What the dispatch keeps to while the shutdown waits for it, whatever the loop does. */
  predicate Finishing(s: State) {
    && s.f.pumpStop && !s.f.stop && s.f.lock == Free && s.d != Gone
    && (InBody(s.d) ==> s.f.busy && !s.f.req) && (s.f.busy ==> s.f.req || InBody(s.d)) && (s.f.req ==> s.f.busy)
  }

  lemma DispatchFinishes(s: State)
    requires Finishing(s) && s.f.busy
    ensures Enabled(s, Dispatch(false)) && Finishing(DispatchStep(s, false)) && 0 <= Rank(DispatchStep(s, false)) < Rank(s)
  {}

  /** ... and the dispatch is done in time. */
  lemma {:induction false} DispatchThenBoth(s: State)
    requires Finishing(s) && s.l.LoopStop? && s.u == FirstStop(Spin)
    ensures CanCollide(s)
    decreases Rank(s)
  {
    if s.f.busy {
      DispatchFinishes(s);
      DispatchThenBoth(DispatchStep(s, false));
      Earlier(s, Dispatch(false));
    } else {
      BothCome(Step(s, User(true)));
      Earlier(s, User(true));
    }
  }

  /** A shutdown has only begun, and a loop that is up to claim the bus or has it is there. */
  lemma ShutdownMeetsLoop(s: State)
    requires Finishing(s.(f := s.f.(pumpStop := true))) && s.u.FirstStop?
    requires s.l.LoopStop? || (LoopOwns(s.l) && Quiet(s.f, s.d))
    requires (s.u.at == Spin ==> s.f.pumpStop) && (s.u.at == DropActive ==> Quiet(s.f, s.d))
    ensures CanCollide(s)
  {
    if s.u.at == StoreStop {
      var t := Step(s, User(true));
      if s.l.LoopStop? {
        DispatchThenBoth(t);
      } else {
        ShutdownArrives(Step(t, User(true)));
        Earlier(t, User(true));
      }
      Earlier(s, User(true));
    } else if s.u.at == Spin {
      if s.l.LoopStop? {
        DispatchThenBoth(s);
      } else {
        ShutdownArrives(Step(s, User(true)));
        Earlier(s, User(true));
      }
    } else if s.l.LoopStop? {
      BothCome(s);
    } else {
      ShutdownArrives(s);
    }
  }

  /** The flags with a dispatch posted and nothing in its way. */
  predicate Clear(f: Flags) { f.lock == Free && !f.stop && !f.pumpStop && !f.rtLoop && !f.pumpActive }

  /** The dispatch thread has the bus with no dispatch flagged, and the loop is over: the next
      loop comes through. */
  lemma Relaunches(s: State)
    requires s.d == BridgeHead(0) && s.l == LoopDone && s.u == Idle && s.f.op && !s.f.busy
    ensures CanCollide(s)
  {
    var t := Step(s, Join);
    LoopArrives(Step(t, Launch));
    Earlier(t, Launch);
    Earlier(s, Join);
  }

  /** The dispatch thread goes through its gates. */
  lemma {:induction false} DispatchArrives(s: State)
    requires Clear(s.f) && (s.d == CheckLoop || s.d == CheckPump || s.d == CheckStop || (s.d == Waiting && s.f.req))
    requires s.l == LoopStop(DropActive) || (s.l == LoopDone && s.u == Idle && s.f.op && !s.f.busy)
    ensures CanCollide(s)
    decreases Rank(s)
  {
    var t := DispatchStep(s, false);
    if s.d != CheckStop {
      DispatchArrives(t);
    } else if s.l == LoopDone {
      Relaunches(t);
    } else {
      Collides(t);
    }
    Earlier(s, Dispatch(false));
  }

  /** The loop's own startPump posts while the dispatch thread is about to clear the busy flag
      of the dispatch before: the clear is late, and the new dispatch runs unflagged. */
  lemma {:induction false} PostsBeforeTheClear(s: State)
    requires s.l.LoopStart? && s.d == ClearBusy && s.u == Idle && s.f.up && s.f.op && !s.f.stop && !s.f.rtLoop && !s.f.pumpActive
    requires s.f.lock == (if HoldsLock(s.l.start) then HeldByLoop else Free)
    requires (s.l.start == PostRequest || s.l.start == SetBusy || s.l.start == Unlock) ==> !s.f.pumpStop
    requires (s.l.start == SetBusy || s.l.start == Unlock) ==> s.f.req
    ensures CanCollide(s)
    decreases match s.l.start case LoadActive => 6 case TakeLock => 5 case ResetStop => 4 case PostRequest => 3 case SetBusy => 2 case Unlock => 1
  {
    var t := LoopStep(s, true);
    if s.l.start == Unlock {
      DispatchArrives(DispatchStep(t, false));
      Earlier(t, Dispatch(false));
    } else {
      PostsBeforeTheClear(t);
    }
    Earlier(s, Loop(true));
  }

  /** The loop has the bus; the dispatch it stopped is on its way out. */
  lemma {:induction false} LateClear(s: State)
    requires s.l == LoopStop(DropActive) && s.u == Idle && s.f.up && s.f.op && s.f.lock == Free && !s.f.stop && !s.f.rtLoop
    requires s.f.pumpStop && !s.f.pumpActive && (s.d == Waiting ==> s.f.req)
    requires s.d == Waiting || s.d == CheckLoop || s.d == CheckPump || s.d == CheckStop || s.d == ClearBusy
    ensures CanCollide(s)
    decreases Rank(s)
  {
    if s.d != ClearBusy {
      LateClear(DispatchStep(s, false));
      Earlier(s, Dispatch(false));
    } else {
      var t := LoopStep(s, true);
      var v := LoopStep(t, false);
      PostsBeforeTheClear(LoopStep(v, true));
      Earlier(v, Loop(true));
      Earlier(t, Loop(false));
      Earlier(s, Loop(true));
    }
  }

  /** The loop has come through stopPump before the initialization's startPump posts. */
  lemma {:induction false} StartMeetsOwner(s: State)
    requires s.l == LoopStop(DropActive) && s.u.UserStart? && s.d == Waiting && s.f.up && s.f.op && !s.f.stop && !s.f.rtLoop && !s.f.pumpActive
    requires s.f.lock == (if HoldsLock(s.u.start) then HeldByUser else Free)
    requires s.u.start == SetBusy || s.u.start == Unlock ==> s.f.req
    requires BeforePost(s.u.start) && s.u.start != PostRequest ==> s.f.pumpStop
    ensures CanCollide(s)
    decreases match s.u.start case LoadActive => 6 case TakeLock => 5 case ResetStop => 4 case PostRequest => 3 case SetBusy => 2 case Unlock => 1
  {
    var t := UserStep(s, true);
    if s.u.start != Unlock {
      StartMeetsOwner(t);
    } else if t.f.pumpStop {
      LateClear(t);
    } else {
      DispatchArrives(t);
    }
    Earlier(s, User(true));
  }

  /** An initialization is in startPump, and the loop is launched. */
  lemma StartMeetsLaunch(s: State)
    requires s.l == LoopStop(StoreStop) && s.u.UserStart? && s.u.start != Unlock && s.d == Waiting && !s.f.busy
    requires s.f.up && s.f.op && !s.f.stop && !s.f.rtLoop && !s.f.pumpActive
    requires s.f.lock == (if HoldsLock(s.u.start) then HeldByUser else Free) && (s.u.start == SetBusy ==> s.f.req)
    ensures CanCollide(s)
  {
    var t := LoopStep(s, true);
    StartMeetsOwner(LoopStep(t, true));
    Earlier(t, Loop(true));
    Earlier(s, Loop(true));
  }

  /** A launch amid an initialization or a shutdown. */
  lemma EarlyLaunchCollides(s: State)
    requires Protocol(s) && Enabled(s, Launch) && !Disciplined(s, Launch)
    ensures CanCollide(Step(s, Launch))
  {
    var t := Step(s, Launch);
    if UserOwns(s.u) {
      LoopArrives(t);
    } else if s.u.UserStart? {
      StartMeetsLaunch(t);
    } else if s.u.FirstStop? {
      ShutdownMeetsLoop(t);
    } else {
      BothCome(t);
    }
  }

  /** A launch is safe exactly when no initialization or shutdown is under way: after a
      disciplined run, the code can get two owners from a launch it lets through if and only
      if the launch breaks the discipline. */
  lemma LaunchIsTheCondition(acts: seq<Action>)
    requires Valid(INITIAL, acts) && Enabled(Run(INITIAL, acts), Launch)
    ensures CanCollide(Step(Run(INITIAL, acts), Launch)) <==> !Disciplined(Run(INITIAL, acts), Launch)
  {
    RunKeepsInv(INITIAL, acts);
    var s := Run(INITIAL, acts);
    hide Run, Valid, Enabled;
    if Disciplined(s, Launch) {
      StepKeepsInv(s, Launch);
      NoCollision(Step(s, Launch));
    } else {
      EarlyLaunchCollides(s);
    }
  }

  lemma NoCollision(s: State)
    requires Inv(s)
    ensures !CanCollide(s)
  {
    forall acts | Valid(s, acts) ensures AtMostOneOwner(Run(s, acts)) {
      RunKeepsInv(s, acts);
      ProtocolGivesOneOwner(Run(s, acts));
    }
  }

  /** A shutdown that begins while a loop is up to claim the bus or has it collides with it too. */
  lemma LateShutdown(s: State)
    requires Protocol(s) && s.u == Idle && s.f.up && (s.l.LoopStop? || LoopOwns(s.l))
    ensures CanCollide(Step(s, BeginShutdown))
  {
    ShutdownMeetsLoop(Step(s, BeginShutdown));
  }

  // ----- and that the code lets such a launch through -----

  ghost predicate Reached(s: State) { exists acts :: Valid(INITIAL, acts) && Run(INITIAL, acts) == s }

  lemma Onward(s: State, a: Action)
    requires Reached(s) && Enabled(s, a) && Disciplined(s, a)
    ensures Reached(Step(s, a))
  {
    hide Step, Enabled, Disciplined;
    var acts :| Valid(INITIAL, acts) && Run(INITIAL, acts) == s;
    ValidAppend(INITIAL, acts, a);
  }

  /** The end of an initialization: operational, and about to start the pump. */
  const AT_THE_TAIL: State := State(
    Flags(Free, false, false, false, false, false, false, true, true), INITIAL.r, Waiting, NoLoop, UserStart(LoadActive))

  lemma TailIsReached()
    ensures Reached(AT_THE_TAIL)
  {
    assert Valid(INITIAL, []) && Run(INITIAL, []) == INITIAL;
    var s1 := Step(INITIAL, BeginInit);
    var s2 := Step(s1, User(false));
    var s3 := Step(s2, User(false));
    Onward(INITIAL, BeginInit);
    Onward(s1, User(false));
    Onward(s2, User(false));
    Onward(s3, User(false));
  }

  /** After an initialization: the pump's dispatch posted and not yet picked up. */
  const READY: State := State(Flags(Free, true, false, false, true, false, false, true, true), INITIAL.r, Waiting, NoLoop, Idle)

  lemma ReadyIsReached()
    ensures Reached(READY)
  {
    TailIsReached();
    hide Reached;
    var s1 := Step(AT_THE_TAIL, User(true));
    var s2 := Step(s1, User(true));
    var s3 := Step(s2, User(true));
    Onward(AT_THE_TAIL, User(true));
    Onward(s1, User(true));
    Onward(s2, User(true));
    var s4 := Step(s3, User(true));
    var s5 := Step(s4, User(true));
    Onward(s3, User(true));
    Onward(s4, User(true));
    Onward(s5, User(true));
  }

  /** The beginning of a shutdown: still operational. */
  const AT_THE_HEAD: State := READY.(u := FirstStop(StoreStop))

  lemma HeadIsReached()
    ensures Reached(AT_THE_HEAD)
  {
    ReadyIsReached();
    hide Reached;
    Onward(READY, BeginShutdown);
  }

  /** The code's own gate, the master being operational, lets a launch through at the tail of an
      initialization and during a shutdown, and both end with two owners. */
  lemma EarlyLaunchBreaksExclusion()
    ensures Reached(AT_THE_TAIL) && Enabled(AT_THE_TAIL, Launch) && CanCollide(Step(AT_THE_TAIL, Launch))
    ensures Reached(AT_THE_HEAD) && Enabled(AT_THE_HEAD, Launch) && CanCollide(Step(AT_THE_HEAD, Launch))
  {
    TailIsReached();
    HeadIsReached();
    hide Reached;
    EarlyLaunchCollides(AT_THE_TAIL);
    EarlyLaunchCollides(AT_THE_HEAD);
  }
}
