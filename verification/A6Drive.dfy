/** One servo drive as the master handles it: the status it last read, the enable and the
    fault-reset step machines, and the outputs it writes into the process image. */
module A6Drive {

  datatype DriveState =
    | Unknown | NotReadyToSwitchOn | SwitchOnDisabled | ReadyToSwitchOn | SwitchedOn
    | OperationEnabled | QuickStopActive | FaultReactionActive | Fault

  // ----- the statusword -----

  function Parse(sw: bv16): DriveState {
    if sw & 0x004F == 0x000F then FaultReactionActive
    else if sw & 0x0008 != 0 then Fault
    else if sw & 0x004F == 0x0000 then NotReadyToSwitchOn
    else if sw & 0x006F == 0x0040 then SwitchOnDisabled
    else if sw & 0x006F == 0x0021 then ReadyToSwitchOn
    else if sw & 0x006F == 0x0023 then SwitchedOn
    else if sw & 0x006F == 0x0027 then OperationEnabled
    else if sw & 0x0067 == 0x0007 then QuickStopActive
    else Unknown
  }

  /** The statuswords a drive in state `s` may show: section 10.1 of CiA DSP-402 V2.0. */
  predicate Shows(s: DriveState, sw: bv16) {
    match s
    case NotReadyToSwitchOn => sw & 0x004F == 0x0000
    case SwitchOnDisabled => sw & 0x004F == 0x0040
    case ReadyToSwitchOn => sw & 0x006F == 0x0021
    case SwitchedOn => sw & 0x006F == 0x0023
    case OperationEnabled => sw & 0x006F == 0x0027
    case QuickStopActive => sw & 0x006F == 0x0007
    case FaultReactionActive => sw & 0x004F == 0x000F
    case Fault => sw & 0x004F == 0x0008
    case Unknown => false
  }

  /** Every statusword of the standard is read as its state, except Switch On Disabled with
      the quick-stop bit set: the standard leaves that bit open, the parser wants it clear. */
  lemma ParseReadsTheTable(s: DriveState, sw: bv16)
    requires Shows(s, sw)
    ensures Parse(sw) == s <==> !(s == SwitchOnDisabled && sw & 0x0020 != 0)
    ensures s == SwitchOnDisabled && sw & 0x0020 != 0 ==> Parse(sw) == Unknown
  {}

  /** What is read as a state other than Fault shows that state. */
  lemma ParseInventsNothing(sw: bv16)
    requires Parse(sw) != Unknown && Parse(sw) != Fault
    ensures Shows(Parse(sw), sw)
  {}

  // ----- the controlword -----

  const CW_DISABLE_VOLTAGE: bv16 := 0x0000
  const CW_DISABLE: bv16 := 0x0003
  const CW_SHUTDOWN: bv16 := 0x0006
  const CW_SWITCH_ON: bv16 := 0x0007
  const CW_ENABLE: bv16 := 0x000F
  const CW_FAULT_RESET: bv16 := 0x0080

  datatype Command = Shutdown | SwitchOn | EnableOperation | DisableVoltage | QuickStop | FaultReset

  /** The command a controlword carries: section 10.1 of CiA DSP-402 V2.0. */
  function Decode(cw: bv16): Command {
    if cw & 0x80 != 0 then FaultReset
    else if cw & 0x02 == 0 then DisableVoltage
    else if cw & 0x04 == 0 then QuickStop
    else if cw & 0x01 == 0 then Shutdown
    else if cw & 0x08 == 0 then SwitchOn
    else EnableOperation
  }

  /** disableOperation writes 0x0003, which the standard reads as Quick Stop. */
  lemma ControlwordTable()
    ensures Decode(CW_SHUTDOWN) == Shutdown && Decode(CW_SWITCH_ON) == SwitchOn && Decode(CW_ENABLE) == EnableOperation
    ensures Decode(CW_DISABLE_VOLTAGE) == DisableVoltage && Decode(CW_DISABLE) == QuickStop && Decode(CW_FAULT_RESET) == FaultReset
    ensures CW_DISABLE_VOLTAGE == 0 && (CW_SHUTDOWN | CW_SWITCH_ON | CW_ENABLE | CW_DISABLE) & 0xFFF0 == 0 && CW_FAULT_RESET & 0xFF7F == 0
  {}

  /** The profile-position handshake: bit 5 set, bit 4 the new set-point. */
  function Handshake(cw: bv16, newSetpoint: bool): bv16 {
    if newSetpoint then cw | 0x20 | 0x10 else (cw | 0x20) & 0xFFEF
  }

  /** The handshake never changes the command; it raises bit 4 for a new set-point and lowers it
      for none, and asks for set-points to take over at once. */
  lemma HandshakeKeepsTheCommand(cw: bv16, newSetpoint: bool)
    ensures Decode(Handshake(cw, newSetpoint)) == Decode(cw)
    ensures (Handshake(cw, newSetpoint) & 0x10 != 0 <==> newSetpoint) && Handshake(cw, newSetpoint) & 0x20 != 0
    ensures Handshake(cw, newSetpoint) & 0xFFCF == cw & 0xFFCF
  {}

  // ----- the drive -----

  /** What the last good frame said. */
  datatype Seen = Seen(state: DriveState, sw: bv16, counts: int)

  /** The command-position sync. */
  datatype Sync = Sync(active: bool, count: nat)

  datatype Reset = Reset(pending: bool, cycles: nat)

  datatype Outputs = Outputs(cw: bv16, target: int, torque: int, mode: int)

  /** The inputs of the latest frame, good or bad. */
  datatype Inputs = Inputs(sw: bv16, counts: int, valid: bool)

  datatype Setup = Setup(bound: bool, syncCycles: nat, torqueMode: bool)

  datatype Drive = Drive(seen: Seen, sync: Sync, reset: Reset, out: Outputs)

  /** A bad frame leaves what was seen alone. */
  function Updated(seen: Seen, i: Inputs): Seen {
    if i.valid then Seen(Parse(i.sw), i.sw, i.counts) else seen
  }

  /** The sync restarts whenever the drive is not in Switched On, and counts to its length. */
  function SyncStep(s: Sync, state: DriveState, cycles: nat): Sync {
    if state != SwitchedOn then (if s.active then Sync(false, 0) else s)
    else
      var count := if s.active then s.count else 0;
      Sync(true, if count < cycles then count + 1 else count)
  }

  /** Whether the step about to be taken follows a full sync. */
  predicate SyncDone(s: Sync, cycles: nat) { (if s.active then s.count else 0) >= cycles }

  function EnableOutputs(o: Outputs, s: Sync, seen: Seen, setup: Setup): Outputs {
    match seen.state
    case SwitchOnDisabled => o.(cw := CW_SHUTDOWN)
    case ReadyToSwitchOn => o.(cw := CW_SWITCH_ON)
    case SwitchedOn =>
      Outputs(if SyncDone(s, setup.syncCycles) then CW_ENABLE else CW_SWITCH_ON, seen.counts,
              if setup.torqueMode then 0 else o.torque, if setup.torqueMode then 10 else o.mode)
    case OperationEnabled => o.(cw := CW_ENABLE)
    case _ => o
  }

  /** One step of the enable machine. */
  function EnableStep(d: Drive, i: Inputs, setup: Setup): Drive {
    if !setup.bound then d
    else
      var seen := Updated(d.seen, i);
      Drive(seen, SyncStep(d.sync, seen.state, setup.syncCycles), d.reset, EnableOutputs(d.out, d.sync, seen, setup))
  }

  predicate Faulted(s: DriveState) { s == Fault || s == FaultReactionActive }

  function StartReset(r: Reset): Reset { if r.pending then r else Reset(true, 0) }

  /** One step of the fault-reset machine: five cycles of 0, ten of Fault Reset, then an
      alternation of both until the fault is gone or a hundred cycles have passed. */
  function ResetStep(d: Drive, i: Inputs, setup: Setup): Drive {
    if !setup.bound then d
    else
      var n := StartReset(d.reset).cycles + 1;
      var e := d.(seen := Updated(d.seen, i), reset := Reset(true, n));
      if n <= 5 then e.(out := e.out.(cw := CW_DISABLE_VOLTAGE))
      else if n <= 15 then e.(out := e.out.(cw := CW_FAULT_RESET))
      else if !Faulted(e.seen.state) then EnableStep(e.(reset := Reset(false, 0)), i, setup)
      else if n > 100 then e.(reset := Reset(false, 0))
      else e.(out := e.out.(cw := if n % 20 < 10 then CW_FAULT_RESET else CW_DISABLE_VOLTAGE))
  }

  /** Whether the step found the fault gone and the drive enabled. */
  predicate ResetCleared(d: Drive, i: Inputs, setup: Setup) {
    setup.bound && StartReset(d.reset).cycles + 1 > 15 && Updated(d.seen, i).state == OperationEnabled
  }

  class A6Drive {
    const setup: Setup
    var state: DriveState
    var lastStatusword: bv16
    var lastActualCounts: int
    var sync: Sync
    var reset: Reset
    var out: Outputs
    /** The input half of the process image and the frame-valid flag. */
    var inputs: Inputs

    ghost function Value(): Drive
      reads this
    {
      Drive(Seen(state, lastStatusword, lastActualCounts), sync, reset, out)
    }

    constructor (setup: Setup)
      ensures this.setup == setup
      ensures Value() == Drive(Seen(Unknown, 0, 0), Sync(false, 0), Reset(false, 0), Outputs(0, 0, 0, 0))
    {
      this.setup := setup;
      state, lastStatusword, lastActualCounts := Unknown, 0, 0;
      sync, reset, out := Sync(false, 0), Reset(false, 0), Outputs(0, 0, 0, 0);
      inputs := Inputs(0, 0, true);
    }

    method UpdateStatus()
      modifies this`state, this`lastStatusword, this`lastActualCounts
      ensures Value().seen == if setup.bound then Updated(old(Value().seen), inputs) else old(Value().seen)
    {
      if !setup.bound { return; }
      if !inputs.valid { return; }
      lastStatusword := inputs.sw;
      lastActualCounts := inputs.counts;
      var newState := Parse(lastStatusword);
      if newState != state {
        state := newState;
      }
    }

    method PrimeTorqueCommand()
      modifies this`out
      ensures out == old(out).(torque := if setup.torqueMode then 0 else old(out).torque,
                               mode := if setup.torqueMode then 10 else old(out).mode)
    {
      if !setup.torqueMode { return; }
      out := out.(torque := 0);
      out := out.(mode := 10);
    }

    method StepEnableStateMachine() returns (enabled: bool)
      modifies this`state, this`lastStatusword, this`lastActualCounts, this`sync, this`out
      ensures Value() == EnableStep(old(Value()), inputs, setup)
      ensures enabled <==> setup.bound && state == OperationEnabled
    {
      if !setup.bound { return false; }
      UpdateStatus();
      if state != SwitchedOn && sync.active {
        sync := Sync(false, 0);
      }
      match state {
        case SwitchOnDisabled =>
          out := out.(cw := CW_SHUTDOWN);
        case ReadyToSwitchOn =>
          out := out.(cw := CW_SWITCH_ON);
        case SwitchedOn =>
          if !sync.active {
            sync := Sync(true, 0);
          }
          out := out.(target := lastActualCounts);
          PrimeTorqueCommand();
          if sync.count < setup.syncCycles {
            out := out.(cw := CW_SWITCH_ON);
            sync := sync.(count := sync.count + 1);
          } else {
            out := out.(cw := CW_ENABLE);
          }
        case OperationEnabled =>
          out := out.(cw := CW_ENABLE);
          return true;
        case _ =>
      }
      return false;
    }

    method DisableOperation()
      modifies this`out
      ensures out == if setup.bound then old(out).(cw := CW_DISABLE) else old(out)
    {
      if !setup.bound { return; }
      out := out.(cw := CW_DISABLE);
    }

    method StartFaultReset()
      modifies this`reset
      ensures reset == StartReset(old(reset))
    {
      if !reset.pending {
        reset := Reset(true, 0);
      }
    }

    method StepFaultReset() returns (cleared: bool)
      modifies this`state, this`lastStatusword, this`lastActualCounts, this`sync, this`reset, this`out
      ensures Value() == ResetStep(old(Value()), inputs, setup)
      ensures cleared <==> ResetCleared(old(Value()), inputs, setup)
    {
      if !setup.bound { return false; }
      if !reset.pending { StartFaultReset(); }
      UpdateStatus();
      reset := reset.(cycles := reset.cycles + 1);
      if reset.cycles <= 5 {
        out := out.(cw := CW_DISABLE_VOLTAGE);
        return false;
      }
      if reset.cycles <= 15 {
        out := out.(cw := CW_FAULT_RESET);
        return false;
      }
      if state != Fault && state != FaultReactionActive {
        reset := Reset(false, 0);
        cleared := StepEnableStateMachine();
        return;
      }
      if reset.cycles > 100 {
        reset := Reset(false, 0);
        return false;
      }
      if reset.cycles % 20 < 10 {
        out := out.(cw := CW_FAULT_RESET);
      } else {
        out := out.(cw := CW_DISABLE_VOLTAGE);
      }
      return false;
    }
  }
}
