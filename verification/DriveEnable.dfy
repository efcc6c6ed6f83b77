/** The enable machine against the drive it commands: a drive that follows the device control
    state machine of section 10.1 of CiA DSP-402 V2.0, over a bus that loses frames. */
module DriveEnable {
  import opened A6Drive

  // ----- how long the command position is held -----

  /** A run of enable steps on any inputs. */
  predicate EnableRun(ds: seq<Drive>, ins: seq<Inputs>, setup: Setup) {
    && |ds| == |ins| + 1
    && setup.bound && !ds[0].sync.active && ds[0].sync.count == 0
    && forall k :: 0 <= k < |ins| ==> ds[k + 1] == EnableStep(ds[k], ins[k], setup)
  }

  /** How many of the last steps, without a break, saw Switched On. */
  function Streak(ds: seq<Drive>, k: nat): nat
    requires k < |ds|
  {
    if k == 0 || ds[k].seen.state != SwitchedOn then 0 else Streak(ds, k - 1) + 1
  }

  /** Over any sequence of frames, good or bad: a step that sees Switched On writes the actual
      position as the target, and Enable Operation exactly when more than `syncCycles` steps
      in a row have seen Switched On; before that it writes Switch On. */
  lemma {:induction false} EnableWaitsForTheSync(ds: seq<Drive>, ins: seq<Inputs>, setup: Setup, k: nat)
    requires EnableRun(ds, ins, setup) && k < |ds|
    ensures ds[k].sync == Sync(Streak(ds, k) > 0, if Streak(ds, k) > setup.syncCycles then setup.syncCycles else Streak(ds, k))
    ensures k > 0 && ds[k].seen.state == SwitchedOn ==>
      && ds[k].out.target == ds[k].seen.counts
      && ds[k].out.cw == (if Streak(ds, k) > setup.syncCycles then CW_ENABLE else CW_SWITCH_ON)
    ensures k > 0 && ds[k].out.cw == CW_ENABLE && ds[k - 1].out.cw != CW_ENABLE ==>
      ds[k].seen.state == OperationEnabled || Streak(ds, k) > setup.syncCycles
  {
    if k > 0 {
      EnableWaitsForTheSync(ds, ins, setup, k - 1);
      assert ds[k - 1 + 1] == EnableStep(ds[k - 1], ins[k - 1], setup);
    }
  }

  // ----- the drive, the bus and the master -----

  /** An output frame, with the actual position and the sync count it was written with. */
  datatype Frame = Frame(out: Outputs, basis: int, held: nat)

  /** `device`: the state the drive is in; `got`: the last frame it received; `i`: the inputs
      the master holds; `d`, `basis`, `held`: the master's drive object and pending frame. */
  datatype System = System(device: DriveState, got: Frame, i: Inputs, d: Drive, basis: int, held: nat)

  /** What the drive does by itself, besides obeying its controlword. */
  datatype Move = Obey | PowerCycle | BootDone | Trip | ReactionDone | Stop | StopDone

  /** Transitions 2 to 12, 15 and 16 by command, 0, 1, 13 and 14 by themselves. */
  function Obeyed(s: DriveState, c: Command): DriveState {
    match s
    case SwitchOnDisabled => if c == Shutdown then ReadyToSwitchOn else s
    case ReadyToSwitchOn =>
      (match c
       case SwitchOn => SwitchedOn
       case EnableOperation => SwitchedOn
       case Shutdown => s
       case _ => SwitchOnDisabled)
    case SwitchedOn =>
      (match c
       case EnableOperation => OperationEnabled
       case Shutdown => ReadyToSwitchOn
       case SwitchOn => s
       case _ => SwitchOnDisabled)
    case OperationEnabled =>
      (match c
       case EnableOperation => s
       case SwitchOn => SwitchedOn
       case Shutdown => ReadyToSwitchOn
       case QuickStop => QuickStopActive
       case _ => SwitchOnDisabled)
    case QuickStopActive =>
      (match c
       case EnableOperation => OperationEnabled
       case DisableVoltage => SwitchOnDisabled
       case FaultReset => SwitchOnDisabled
       case _ => s)
    case Fault => if c == FaultReset then SwitchOnDisabled else s
    case _ => s
  }

  function Moved(s: DriveState, c: Command, m: Move): DriveState {
    match m
    case Obey => Obeyed(s, c)
    case PowerCycle => NotReadyToSwitchOn
    case BootDone => if s == NotReadyToSwitchOn then SwitchOnDisabled else s
    case Trip => if Faulted(s) then s else FaultReactionActive
    case ReactionDone => if s == FaultReactionActive then Fault else s
    case Stop => if s == OperationEnabled then QuickStopActive else s
    case StopDone => if s == QuickStopActive then SwitchOnDisabled else s
  }

  /** What the control loop does with the drive in a cycle: the enable step, after which an
      enabled drive is given any target, torque and profile handshake; a disable; a step of
      the fault reset; or nothing, which still reads the status. `ServeStop` is a stop request
      carried out before a frame, which reads nothing; `Park` is the parking that follows a
      stop of the loop: it writes a target whatever the drive is doing. */
  datatype Act =
    | Enable(target: int, torque: int, newSetpoint: bool) | Disable | ResetFault | Nothing | ServeStop | Park(target: int)

  datatype Event =
    /** A frame that reaches the drive; the answer counts if `valid`. */
    | Exchange(sw: bv16, counts: int, valid: bool)
    /** A frame that does not. */
    | Lost(sw: bv16, counts: int)
    | Device(m: Move)
    | Master(act: Act)

  /** An enable step writes the target in Switched On, and what follows it in Operation
      Enabled; the pending frame remembers what it was written with. */
  function Composed(s: System, e: Drive): System {
    if e.seen.state == SwitchedOn || e.seen.state == OperationEnabled
    then s.(d := e, basis := e.seen.counts, held := e.sync.count)
    else s.(d := e)
  }

  function Given(e: Drive, target: int, torque: int, newSetpoint: bool): Drive {
    if e.seen.state == OperationEnabled
    then e.(out := e.out.(cw := Handshake(e.out.cw, newSetpoint), target := target, torque := torque))
    else e
  }

  /** The reset machine finds the fault gone and goes on to an enable step. */
  predicate ResetOver(d: Drive, i: Inputs) {
    StartReset(d.reset).cycles + 1 > 15 && !Faulted(Updated(d.seen, i).state)
  }

  function Acted(s: System, act: Act, setup: Setup): System {
    var seen := Updated(s.d.seen, s.i);
    match act
    case Enable(target, torque, newSetpoint) => Composed(s, Given(EnableStep(s.d, s.i, setup), target, torque, newSetpoint))
    case Disable => s.(d := s.d.(seen := seen, out := s.d.out.(cw := CW_DISABLE)))
    case ResetFault =>
      if ResetOver(s.d, s.i) then Composed(s, ResetStep(s.d, s.i, setup)) else s.(d := ResetStep(s.d, s.i, setup))
    case Nothing => s.(d := s.d.(seen := seen))
    case ServeStop => s.(d := s.d.(out := s.d.out.(cw := CW_DISABLE)))
    case Park(target) => s.(d := s.d.(out := s.d.out.(target := target)))
  }

  /** A frame carries what the drive shows; a lost one leaves anything behind, marked bad. */
  predicate Possible(s: System, ev: Event) {
    ev.Exchange? && ev.valid ==> Shows(s.device, ev.sw)
  }

  function Step(s: System, ev: Event, setup: Setup): System {
    match ev
    case Exchange(sw, counts, valid) => s.(got := Frame(s.d.out, s.basis, s.held), i := Inputs(sw, counts, valid))
    case Lost(sw, counts) => s.(i := Inputs(sw, counts, false))
    case Device(m) => s.(device := Moved(s.device, Decode(s.got.out.cw), m))
    case Master(act) => Acted(s, act, setup)
  }

  // ----- no drive is enabled with a target that is not its position -----

  /** A frame whose target is the actual position it was written with, after a full sync; on a
      torque drive it also asks for no torque, in the cyclic torque mode. */
  predicate Synced(f: Frame, setup: Setup) {
    && f.out.target == f.basis && f.held >= setup.syncCycles
    && (setup.torqueMode ==> f.out.torque == 0 && f.out.mode == 10)
  }

  function Pending(s: System): Frame { Frame(s.d.out, s.basis, s.held) }

  /** What ties the drive, the last frame it received, the pending one and a status `cur` the
      master goes by: how far behind each other they can be. */
  predicate InStep(s: System, cur: DriveState, setup: Setup) {
    var r, o := Decode(s.got.out.cw), Decode(s.d.out.cw);
    var full := SyncDone(s.d.sync, setup.syncCycles);
    match s.device
    case ReadyToSwitchOn =>
      && cur != OperationEnabled && cur != SwitchedOn && r != EnableOperation && o != EnableOperation
      && (r == SwitchOn || o == SwitchOn ==> cur == ReadyToSwitchOn) && (r == SwitchOn ==> o != Shutdown)
    case SwitchedOn =>
      && (cur == ReadyToSwitchOn || cur == SwitchedOn) && r != Shutdown && o != Shutdown
      && (r == EnableOperation ==> Synced(s.got, setup) && o != SwitchOn)
      && (o == EnableOperation ==> Synced(Pending(s), setup))
      && (r == EnableOperation || o == EnableOperation ==> cur == SwitchedOn && full)
    case OperationEnabled => Following(r, o, cur, full)
    case QuickStopActive => Following(r, o, cur, full) || Resting(r, o, cur)
    case _ =>
      && (r == Shutdown || o == Shutdown ==> cur != OperationEnabled && cur != SwitchedOn)
      && (r == Shutdown ==> o != EnableOperation && (o == SwitchOn ==> cur == ReadyToSwitchOn))
  }

  predicate Following(r: Command, o: Command, cur: DriveState, full: bool) {
    && (cur == OperationEnabled || cur == QuickStopActive || (cur == SwitchedOn && full))
    && r != Shutdown && r != SwitchOn && o != Shutdown && o != SwitchOn
  }

  /** A quick stop that was there when the loop started. */
  predicate Resting(r: Command, o: Command, cur: DriveState) {
    && cur != SwitchOnDisabled && cur != ReadyToSwitchOn && cur != SwitchedOn && cur != OperationEnabled
    && r != EnableOperation && r != SwitchOn && o != EnableOperation && o != SwitchOn
  }

  /** Both the status the master holds and the one it is about to read are in step. */
  predicate Inv(s: System, setup: Setup) {
    InStep(s, s.d.seen.state, setup) && InStep(s, Updated(s.d.seen, s.i).state, setup)
  }

  lemma ExchangeKeepsInv(s: System, sw: bv16, counts: int, valid: bool, setup: Setup)
    requires setup.bound && setup.syncCycles > 0 && Inv(s, setup) && Possible(s, Exchange(sw, counts, valid))
    ensures Inv(Step(s, Exchange(sw, counts, valid), setup), setup)
  {
    if valid {
      ParseReadsTheTable(s.device, sw);
    }
    hide Decode, Parse, Shows;
  }

  lemma DeviceKeepsInv(s: System, m: Move, setup: Setup)
    requires setup.bound && setup.syncCycles > 0 && Inv(s, setup)
    ensures Inv(Step(s, Device(m), setup), setup)
  {
    hide Decode, Parse, Updated, Synced, SyncDone;
  }

  lemma EnableWrites(d: Drive, i: Inputs, setup: Setup)
    requires setup.bound
    ensures var e, seen := EnableStep(d, i, setup), Updated(d.seen, i);
      && e.seen == seen
      && Decode(e.out.cw) == (match seen.state
          case SwitchOnDisabled => Shutdown
          case ReadyToSwitchOn => SwitchOn
          case SwitchedOn => if SyncDone(d.sync, setup.syncCycles) then EnableOperation else SwitchOn
          case OperationEnabled => EnableOperation
          case _ => Decode(d.out.cw))
      && (seen.state == SwitchedOn && SyncDone(d.sync, setup.syncCycles) ==>
          Synced(Frame(e.out, seen.counts, e.sync.count), setup) && SyncDone(e.sync, setup.syncCycles))
      && (seen.state != SwitchedOn && seen.state != OperationEnabled ==> e.out == d.out.(cw := e.out.cw))
  {
    ControlwordTable();
    hide Decode, Parse;
  }

  lemma ComposedKeepsInv(s: System, act: Act, setup: Setup)
    requires setup.bound && setup.syncCycles > 0 && Inv(s, setup)
    requires act.Enable? || (act.ResetFault? && ResetOver(s.d, s.i))
    ensures Inv(Acted(s, act, setup), setup)
  {
    EnableWrites(s.d, s.i, setup);
    if act.Enable? {
      var e := EnableStep(s.d, s.i, setup);
      HandshakeKeepsTheCommand(e.out.cw, act.newSetpoint);
    }
    hide Decode, Parse, Handshake, EnableOutputs, Synced;
  }

  /** Writing a command that takes the drive no closer to being enabled. */
  lemma BackOffKeepsInv(s: System, n: System, setup: Setup)
    requires setup.syncCycles > 0 && Inv(s, setup)
    requires n.device == s.device && n.got == s.got && n.i == s.i && n.d.sync == s.d.sync
    requires n.d.seen == Updated(s.d.seen, s.i) || n.d.seen == s.d.seen
    requires (n.d.out == s.d.out && n.basis == s.basis && n.held == s.held)
          || Decode(n.d.out.cw) == QuickStop || Decode(n.d.out.cw) == DisableVoltage || Decode(n.d.out.cw) == FaultReset
    ensures Inv(n, setup)
  {
    hide Decode, Parse, Synced;
  }

  /** The parking write that can do harm: the drive has been asked to enable and is still shown
      in Switched On, and the target is not the one it was asked with. */
  predicate Harmless(s: System, target: int) {
    s.d.seen.state != SwitchedOn || Decode(s.d.out.cw) != EnableOperation || target == s.basis
  }

  /** What actually decides: whether the drive is still there. */
  predicate Harmful(s: System, target: int) {
    s.device == SwitchedOn && Decode(s.d.out.cw) == EnableOperation && target != s.basis
  }

  lemma ParkKeepsInv(s: System, target: int, setup: Setup)
    requires setup.syncCycles > 0 && Inv(s, setup) && !Harmful(s, target)
    ensures Inv(Acted(s, Park(target), setup), setup)
  {
    hide Decode, Parse;
  }

  lemma MasterKeepsInv(s: System, act: Act, setup: Setup)
    requires setup.bound && setup.syncCycles > 0 && Inv(s, setup) && (act.Park? ==> !Harmful(s, act.target))
    ensures Inv(Acted(s, act, setup), setup)
  {
    if act.Enable? || (act.ResetFault? && ResetOver(s.d, s.i)) {
      ComposedKeepsInv(s, act, setup);
    } else if act.Park? {
      ParkKeepsInv(s, act.target, setup);
    } else {
      ControlwordTable();
      hide Decode, Parse, Inv;
      BackOffKeepsInv(s, Acted(s, act, setup), setup);
    }
  }

  function Run(s: System, events: seq<Event>, setup: Setup): System
    decreases |events|
  {
    if events == [] then s else Run(Step(s, events[0], setup), events[1..], setup)
  }

  /** Every event possible where it happens, and every parking write harmless by what the master
      knows. */
  predicate Regular(s: System, events: seq<Event>, setup: Setup)
    decreases |events|
  {
    events == [] || (Allowed(s, events[0]) && Regular(Step(s, events[0], setup), events[1..], setup))
  }

  predicate Allowed(s: System, ev: Event) {
    Possible(s, ev) && (ev.Master? && ev.act.Park? ==> Harmless(s, ev.act.target))
  }

  /** After initialisation: Shutdown was sent and is pending, and nothing was read yet. */
  predicate Booted(s: System) {
    && s.device != Unknown && Decode(s.got.out.cw) == Shutdown && Decode(s.d.out.cw) == Shutdown
    && s.d.seen.state == Unknown && s.d.sync == Sync(false, 0) && !s.i.valid
  }

  /** ... and the drive, which the pump has been sending Shutdown to, is not switched on. */
  predicate Initial(s: System) { Booted(s) && s.device != SwitchedOn && s.device != OperationEnabled }

  /** While a drive is in Switched On and asked to enable, the master goes by Switched On. */
  lemma HarmlessIsNotHarmful(s: System, target: int, setup: Setup)
    requires Inv(s, setup) && Harmless(s, target)
    ensures !Harmful(s, target)
  {
    hide Decode, Parse;
  }

  lemma StepKeepsInv(s: System, ev: Event, setup: Setup)
    requires setup.bound && setup.syncCycles > 0 && Inv(s, setup) && Allowed(s, ev)
    ensures Inv(Step(s, ev, setup), setup)
  {
    match ev
    case Exchange(sw, counts, valid) => ExchangeKeepsInv(s, sw, counts, valid, setup);
    case Lost(_, _) => hide InStep;
    case Device(m) => DeviceKeepsInv(s, m, setup);
    case Master(act) =>
      if act.Park? {
        HarmlessIsNotHarmful(s, act.target, setup);
      }
      MasterKeepsInv(s, act, setup);
  }

  lemma {:induction false} RunKeepsInv(s: System, events: seq<Event>, setup: Setup)
    requires setup.bound && setup.syncCycles > 0 && Inv(s, setup) && Regular(s, events, setup)
    ensures Inv(Run(s, events, setup), setup)
    decreases |events|
  {
    hide Inv, Step;
    if events != [] {
      StepKeepsInv(s, events[0], setup);
      RunKeepsInv(Step(s, events[0], setup), events[1..], setup);
    }
  }

  /** Whatever is lost on the bus, however late the drive obeys, trips, stops or loses power,
      and in whatever order the master disables, resets, enables and parks: the frame a drive in
      Switched On takes transition 4 on carries its own actual position as the target, after a
      full sync. */
  lemma NeverEnabledUnsynced(s: System, events: seq<Event>, m: Move, setup: Setup)
    requires setup.bound && setup.syncCycles > 0 && Initial(s) && Regular(s, events, setup)
    ensures var before := Run(s, events, setup); var after := Step(before, Device(m), setup);
      before.device == SwitchedOn && after.device == OperationEnabled ==>
        Synced(before.got, setup) && Decode(before.got.out.cw) == EnableOperation
  {
    assert Inv(s, setup) by { hide Decode; }
    RunKeepsInv(s, events, setup);
    hide Run, Regular, Decode, Synced;
  }

  /** No position drive skips the sync: Operation Enabled is reached from Switched On only, or
      back from a quick stop that began there. */
  lemma EnabledOnlyFromSwitchedOn(s: DriveState, c: Command, m: Move)
    ensures Moved(s, c, m) == OperationEnabled ==> s == OperationEnabled || s == SwitchedOn || s == QuickStopActive
    ensures Moved(s, c, m) == QuickStopActive ==> s == QuickStopActive || s == OperationEnabled
  {}

  // ----- the disable -----

  /** A drive that obeys a disable is not enabled, and none becomes enabled while the frame it
      last received is one, whatever it does by itself: 0x0003 is Quick Stop to it. */
  lemma {:induction false} DisableEnds(s: DriveState, moves: seq<Move>)
    ensures Obeyed(s, Decode(CW_DISABLE)) != OperationEnabled
    ensures s != OperationEnabled ==> AllMoves(s, Decode(CW_DISABLE), moves) != OperationEnabled
    decreases |moves|
  {
    ControlwordTable();
    if moves != [] {
      DisableEnds(Moved(s, Decode(CW_DISABLE), moves[0]), moves[1..]);
    }
  }

  function AllMoves(s: DriveState, c: Command, moves: seq<Move>): DriveState
    decreases |moves|
  {
    if moves == [] then s else AllMoves(Moved(s, c, moves[0]), c, moves[1..])
  }

  // ----- where the guarantee ends -----

  /** Some run from here enables the drive from Switched On on a frame that is not synced. */
  ghost predicate CanGoWrong(s: System, setup: Setup) {
    exists events, m :: Regular(s, events, setup) && GoesWrong(Run(s, events, setup), m, setup)
  }

  predicate GoesWrong(s: System, m: Move, setup: Setup) {
    s.device == SwitchedOn && Step(s, Device(m), setup).device == OperationEnabled && !Synced(s.got, setup)
  }

  lemma WrongHere(s: System, setup: Setup)
    requires s.device == SwitchedOn && Decode(s.got.out.cw) == EnableOperation && !Synced(s.got, setup)
    ensures CanGoWrong(s, setup)
  {
    assert GoesWrong(Run(s, [], setup), Obey, setup) by { hide Decode, Synced; }
    assert Regular(s, [], setup);
  }

  /** One event earlier. */
  lemma Earlier(s: System, ev: Event, setup: Setup)
    requires Allowed(s, ev) && CanGoWrong(Step(s, ev, setup), setup)
    ensures CanGoWrong(s, setup)
  {
    hide Allowed, Step, GoesWrong;
    var events, m :| Regular(Step(s, ev, setup), events, setup) && GoesWrong(Run(Step(s, ev, setup), events, setup), m, setup);
    assert ([ev] + events)[1..] == events;
    assert Regular(s, [ev] + events, setup);
    assert GoesWrong(Run(s, [ev] + events, setup), m, setup);
  }

  /** An Enable Operation that nobody synchronised is pending, and the drive is on its way. */
  lemma UnsyncedArrives(s: System, setup: Setup)
    requires s.device == ReadyToSwitchOn || s.device == SwitchedOn
    requires Decode(s.d.out.cw) == EnableOperation && !Synced(Pending(s), setup)
    ensures CanGoWrong(s, setup)
  {
    hide Decode;
    var t := Step(s, Exchange(0, 0, false), setup);
    if s.device == SwitchedOn {
      WrongHere(t, setup);
    } else {
      WrongHere(Step(t, Device(Obey), setup), setup);
      Earlier(t, Device(Obey), setup);
    }
    Earlier(s, Exchange(0, 0, false), setup);
  }

  predicate Counting(s: System) { !s.d.sync.active ==> s.d.sync.count == 0 }

  /** The master still goes by Operation Enabled, and the drive is on its way up. */
  lemma EnabledTooSoon(s: System, setup: Setup)
    requires setup.bound && setup.syncCycles > 0 && Counting(s) && Updated(s.d.seen, s.i).state == OperationEnabled
    requires s.device == ReadyToSwitchOn || s.device == SwitchedOn
    ensures CanGoWrong(s, setup)
  {
    EnableWrites(s.d, s.i, setup);
    HandshakeKeepsTheCommand(EnableStep(s.d, s.i, setup).out.cw, false);
    var t := Step(s, Master(Enable(0, 0, false)), setup);
    hide Decode, Parse, EnableOutputs, Handshake;
    assert t.held == 0 && Decode(t.d.out.cw) == EnableOperation;
    UnsyncedArrives(t, setup);
    Earlier(s, Master(Enable(0, 0, false)), setup);
  }

  /** A drive that is still enabled is caught by the old Shutdown on its way down. */
  lemma StartedEnabled(s: System, setup: Setup)
    requires setup.bound && setup.syncCycles > 0 && Booted(s) && s.device == OperationEnabled
    ensures CanGoWrong(s, setup)
  {
    var t := Step(s, Exchange(0x0027, 0, true), setup);
    assert Updated(t.d.seen, t.i).state == OperationEnabled;
    hide Decode, Parse;
    EnabledTooSoon(Step(t, Device(Obey), setup), setup);
    Earlier(t, Device(Obey), setup);
    Earlier(s, Exchange(0x0027, 0, true), setup);
  }

  /** The master goes by Ready To Switch On, the drive has gone all the way: it is told to
      switch on, which takes it back to Switched On, and read as enabled. */
  lemma StaleReady(s: System, setup: Setup)
    requires setup.bound && setup.syncCycles > 0 && Counting(s) && s.i.valid && Parse(s.i.sw) == ReadyToSwitchOn
    requires s.device == OperationEnabled
    ensures CanGoWrong(s, setup)
  {
    EnableWrites(s.d, s.i, setup);
    var t := Step(s, Master(Enable(0, 0, false)), setup);
    var v := Step(t, Exchange(0x0027, 0, true), setup);
    assert Shows(OperationEnabled, 0x0027) && Parse(0x0027) == OperationEnabled;
    hide Decode, Parse, EnableOutputs, Shows;
    EnabledTooSoon(Step(v, Device(Obey), setup), setup);
    Earlier(v, Device(Obey), setup);
    Earlier(t, Exchange(0x0027, 0, true), setup);
    Earlier(s, Master(Enable(0, 0, false)), setup);
  }

  /** A drive that goes down to Ready while the master goes by Switched On is asked to enable
      after the sync all the same. */
  lemma {:induction false} StaleSwitchedOn(s: System, setup: Setup)
    requires setup.bound && setup.syncCycles > 0 && Counting(s) && s.i.valid && Parse(s.i.sw) == SwitchedOn && s.device == ReadyToSwitchOn
    requires Decode(s.d.out.cw) != EnableOperation || SyncDone(s.d.sync, setup.syncCycles)
    ensures CanGoWrong(s, setup)
    decreases setup.syncCycles - (if s.d.sync.active then s.d.sync.count else 0), Decode(s.d.out.cw) != EnableOperation
  {
    if Decode(s.d.out.cw) == EnableOperation {
      AskedFromReady(s, setup);
    } else {
      EnableWrites(s.d, s.i, setup);
      hide Decode, Parse, EnableOutputs;
      var t := Step(s, Master(Enable(0, 0, false)), setup);
      StaleSwitchedOn(t, setup);
      Earlier(s, Master(Enable(0, 0, false)), setup);
    }
  }

  lemma AskedFromReady(s: System, setup: Setup)
    requires setup.bound && setup.syncCycles > 0 && Counting(s) && s.device == ReadyToSwitchOn && Decode(s.d.out.cw) == EnableOperation
    ensures CanGoWrong(s, setup)
  {
    var t := Step(s, Exchange(0x0021, 0, true), setup);
    assert Shows(ReadyToSwitchOn, 0x0021) && Parse(0x0021) == ReadyToSwitchOn;
    hide Decode, Parse, Shows;
    var v := Step(t, Device(Obey), setup);
    StaleReady(Step(v, Device(Obey), setup), setup);
    Earlier(v, Device(Obey), setup);
    Earlier(t, Device(Obey), setup);
    Earlier(s, Exchange(0x0021, 0, true), setup);
  }

  lemma StartedSwitchedOn(s: System, setup: Setup)
    requires setup.bound && setup.syncCycles > 0 && Booted(s) && s.device == SwitchedOn
    ensures CanGoWrong(s, setup)
  {
    var t := Step(s, Exchange(0x0023, 0, true), setup);
    assert Shows(SwitchedOn, 0x0023) && Parse(0x0023) == SwitchedOn;
    hide Decode, Parse, Shows;
    StaleSwitchedOn(Step(t, Device(Obey), setup), setup);
    Earlier(t, Device(Obey), setup);
    Earlier(s, Exchange(0x0023, 0, true), setup);
  }

  lemma NothingGoesWrong(s: System, setup: Setup)
    requires setup.bound && setup.syncCycles > 0 && Inv(s, setup)
    ensures !CanGoWrong(s, setup)
  {
    forall events, m | Regular(s, events, setup) ensures !GoesWrong(Run(s, events, setup), m, setup) {
      RunKeepsInv(s, events, setup);
      hide Regular, Run, Decode, Synced;
    }
  }

  /** The condition on the drive when the loop starts: exactly one that is in Switched On or
      Operation Enabled by then can be enabled on an unsynchronised target, whatever the sync
      length, on a position or a torque drive. */
  lemma StartIsTheCondition(s: System, setup: Setup)
    requires setup.bound && setup.syncCycles > 0 && Booted(s)
    ensures CanGoWrong(s, setup) <==> s.device == SwitchedOn || s.device == OperationEnabled
  {
    hide Decode;
    if s.device == SwitchedOn {
      StartedSwitchedOn(s, setup);
    } else if s.device == OperationEnabled {
      StartedEnabled(s, setup);
    } else {
      NothingGoesWrong(s, setup);
    }
  }

  /** The condition on a parking write, after any regular run: it does harm exactly if the drive
      is in Switched On, has been asked to enable, and is given another target. The master
      cannot see the first of these; by the other two, `Harmless` is what it can check. */
  lemma ParkIsTheCondition(s: System, events: seq<Event>, target: int, setup: Setup)
    requires setup.bound && setup.syncCycles > 0 && Initial(s) && Regular(s, events, setup)
    ensures var n := Run(s, events, setup);
      && (CanGoWrong(Step(n, Master(Park(target)), setup), setup) <==> Harmful(n, target))
      && (Harmful(n, target) ==> !Harmless(n, target))
  {
    assert Inv(s, setup) by { hide Decode; }
    RunKeepsInv(s, events, setup);
    var n := Run(s, events, setup);
    hide Run, Regular, Decode;
    if Harmful(n, target) {
      UnsyncedArrives(Step(n, Master(Park(target)), setup), setup);
    } else {
      MasterKeepsInv(n, Park(target), setup);
      NothingGoesWrong(Step(n, Master(Park(target)), setup), setup);
    }
    if Harmless(n, target) {
      HarmlessIsNotHarmful(n, target, setup);
    }
  }

  // ----- such a moment comes in every start -----

  ghost predicate Reached(n: System, setup: Setup) {
    exists s, events :: Initial(s) && Regular(s, events, setup) && Run(s, events, setup) == n
  }

  lemma {:induction false} RunsOn(s: System, events: seq<Event>, ev: Event, setup: Setup)
    requires Regular(s, events, setup) && Allowed(Run(s, events, setup), ev)
    ensures Regular(s, events + [ev], setup) && Run(s, events + [ev], setup) == Step(Run(s, events, setup), ev, setup)
    decreases |events|
  {
    hide Step, Allowed;
    if events == [] {
      assert [] + [ev] == [ev] && [ev][1..] == [];
    } else {
      assert (events + [ev])[1..] == events[1..] + [ev];
      RunsOn(Step(s, events[0], setup), events[1..], ev, setup);
    }
  }

  lemma Onward(n: System, ev: Event, setup: Setup)
    requires Reached(n, setup) && Allowed(n, ev)
    ensures Reached(Step(n, ev, setup), setup)
  {
    hide Step, Allowed, Initial;
    var s, events :| Initial(s) && Regular(s, events, setup) && Run(s, events, setup) == n;
    RunsOn(s, events, ev, setup);
  }

  function Boot(): System {
    var out := Outputs(CW_SHUTDOWN, 0, 0, 0);
    System(SwitchOnDisabled, Frame(out, 0, 0), Inputs(0, 0, false), Drive(Seen(Unknown, 0, 0), Sync(false, 0), Reset(false, 0), out), 0, 0)
  }

  /** In Switched On, and still syncing. */
  lemma {:induction false} SyncReachesTheAsk(s: System, setup: Setup) returns (n: System)
    requires setup.bound && setup.syncCycles > 0 && Reached(s, setup) && s.device == SwitchedOn && s.i.valid && Parse(s.i.sw) == SwitchedOn
    ensures Reached(n, setup) && n.device == SwitchedOn && Decode(n.d.out.cw) == EnableOperation
    decreases setup.syncCycles - (if s.d.sync.active then s.d.sync.count else 0)
  {
    EnableWrites(s.d, s.i, setup);
    n := Step(s, Master(Enable(0, 0, false)), setup);
    hide Decode, Parse, EnableOutputs, Reached;
    Onward(s, Master(Enable(0, 0, false)), setup);
    if !SyncDone(s.d.sync, setup.syncCycles) {
      n := SyncReachesTheAsk(n, setup);
    }
  }

  /** Every drive that starts passes through the state in which a parking write does harm. */
  lemma HarmIsReached(setup: Setup) returns (n: System, target: int)
    requires setup.bound && setup.syncCycles > 0
    ensures Reached(n, setup) && Harmful(n, target)
  {
    ControlwordTable();
    var s0 := Boot();
    assert Initial(s0) && Regular(s0, [], setup) && Run(s0, [], setup) == s0;
    assert Shows(ReadyToSwitchOn, 0x0021) && Parse(0x0021) == ReadyToSwitchOn;
    assert Shows(SwitchedOn, 0x0023) && Parse(0x0023) == SwitchedOn;
    var s1 := Step(s0, Device(Obey), setup);
    Onward(s0, Device(Obey), setup);
    var s2 := Step(s1, Exchange(0x0021, 0, true), setup);
    Onward(s1, Exchange(0x0021, 0, true), setup);
    EnableWrites(s2.d, s2.i, setup);
    hide Decode, Parse, EnableOutputs, Reached, Shows;
    var s3 := Step(s2, Master(Enable(0, 0, false)), setup);
    Onward(s2, Master(Enable(0, 0, false)), setup);
    var s4 := Step(s3, Exchange(0x0021, 0, true), setup);
    Onward(s3, Exchange(0x0021, 0, true), setup);
    var s5 := Step(s4, Device(Obey), setup);
    Onward(s4, Device(Obey), setup);
    var s6 := Step(s5, Exchange(0x0023, 0, true), setup);
    Onward(s5, Exchange(0x0023, 0, true), setup);
    n := SyncReachesTheAsk(s6, setup);
    target := n.basis + 1;
  }
}
