/** The fault monitor of the control loop, composed with the drives it resets. */
module DriveFault {
  import opened A6Drive

  const MAX_DRIVES: nat := 8
  const MAX_FAULT_RETRIES: nat := 5
  const FAULT_CLEAR_STABLE_CYCLES: nat := 100
  const HEALTHY_CYCLES_RESET: nat := 500

  /** What the monitor keeps of one drive. */
  datatype Track = Track(
    faultSeen: bool, retries: nat, locked: bool, healthyCycle: nat, opEnabledSince: nat, resetActive: bool)

  const CLEAN: Track := Track(false, 0, false, 0, 0, false)

  datatype Result = Result(
    disable: bool, firstFaultSeen: bool, allClearRehome: bool, lockoutJustOccurred: bool, seedPosition: bool, skipEnableSM: bool)

  const PROCEED: Result := Result(false, false, false, false, false, false)

  /** Cycles from `before` to `now` on a 64-bit counter. */
  function Elapsed(now: nat, before: nat): int {
    if now >= before then now - before else now - before + 0x1_0000_0000_0000_0000
  }

  datatype Outcome = Outcome(t: Track, d: Drive, r: Result)

  /** A step that sees Fault or Fault Reaction Active. `others`: some other drive's fault is
      seen. */
  function FaultStep(t: Track, d: Drive, i: Inputs, setup: Setup, state: DriveState, cycle: nat, others: bool): Outcome {
    var first := !t.faultSeen;
    var u := if first then t.(faultSeen := true, resetActive := false) else t;
    var r := PROCEED.(firstFaultSeen := first);
    if state != Fault then Outcome(u, d, r.(skipEnableSM := true))
    else if u.retries >= MAX_FAULT_RETRIES then
      Outcome(u.(locked := true), d, r.(disable := true, lockoutJustOccurred := !u.locked))
    else
      var v := if u.resetActive then u else u.(resetActive := true, retries := u.retries + 1);
      var e := if u.resetActive then d else d.(reset := StartReset(d.reset));
      var after := ResetStep(e, i, setup);
      if ResetCleared(e, i, setup) then
        Outcome(v.(resetActive := false, opEnabledSince := 0, healthyCycle := cycle, faultSeen := false), after,
                r.(allClearRehome := !others, seedPosition := true))
      else
        Outcome(if after.reset.pending then v else v.(resetActive := false), after, r.(skipEnableSM := true))
  }

  /** A step that sees anything else. */
  function HealthyStep(t: Track, state: DriveState, cycle: nat, others: bool): (Track, Result) {
    var since := if t.opEnabledSince == 0 then cycle else t.opEnabledSince;
    var stable := t.faultSeen && state == OperationEnabled && Elapsed(cycle, since) >= FAULT_CLEAR_STABLE_CYCLES;
    var u :=
      if !t.faultSeen then t
      else if state != OperationEnabled then t.(opEnabledSince := 0)
      else if !stable then t.(opEnabledSince := since)
      else t.(opEnabledSince := since, faultSeen := false, resetActive := false, healthyCycle := cycle);
    (if u.retries > 0 && u.healthyCycle > 0 && Elapsed(cycle, u.healthyCycle) > HEALTHY_CYCLES_RESET then u.(retries := 0) else u,
     PROCEED.(allClearRehome := stable && !others))
  }

  function TrackStep(t: Track, d: Drive, i: Inputs, setup: Setup, state: DriveState, cycle: nat, others: bool): Outcome {
    if t.locked then Outcome(t, d, PROCEED.(disable := true))
    else if Faulted(state) then FaultStep(t, d, i, setup, state, cycle, others)
    else
      var (u, r) := HealthyStep(t, state, cycle, others);
      Outcome(u, d, r)
  }

  /** Some drive other than `i` has its fault seen. */
  predicate OthersSeen(ts: seq<Track>, i: nat) {
    exists j :: 0 <= j < |ts| && j != i && ts[j].faultSeen
  }

  lemma OthersUnchanged(ts: seq<Track>, i: nat, us: seq<Track>)
    requires i < |ts| == |us| && us == ts[i := us[i]]
    ensures OthersSeen(ts, i) <==> OthersSeen(us, i)
  {
    if j :| 0 <= j < |us| && j != i && us[j].faultSeen {
      assert ts[j].faultSeen;
    }
    if j :| 0 <= j < |ts| && j != i && ts[j].faultSeen {
      assert us[j].faultSeen;
    }
  }

  lemma AnyIsOthers(ts: seq<Track>, i: nat, us: seq<Track>)
    requires i < |ts| == |us| && us == ts[i := us[i]] && !us[i].faultSeen
    ensures (exists j :: 0 <= j < |us| && us[j].faultSeen) <==> OthersSeen(ts, i)
  {
    if j :| 0 <= j < |us| && us[j].faultSeen {
      assert j != i && ts[j].faultSeen;
    }
    if j :| 0 <= j < |ts| && j != i && ts[j].faultSeen {
      assert us[j].faultSeen;
    }
  }

  function Cleared(t: Track): Track { t.(locked := false, retries := 0, faultSeen := false, resetActive := false) }

  class DriveFaultMonitor {
    var numDrives: nat
    const tracks: array<Track>

    ghost predicate Valid()
      reads this
    {
      tracks.Length == MAX_DRIVES && numDrives <= MAX_DRIVES
    }

    /** The tracks of the configured drives. */
    ghost function Tracks(): seq<Track>
      reads this, tracks
      requires Valid()
    {
      tracks[..numDrives]
    }

    constructor ()
      ensures Valid() && fresh(tracks) && numDrives == 0
    {
      tracks := new Track[MAX_DRIVES](_ => CLEAN);
      numDrives := 0;
    }

    /** No more than eight drives are watched, however many there are. */
    method Configure(n: nat)
      requires Valid()
      modifies this, tracks
      ensures Valid() && numDrives == (if n <= 8 then n else 8)
      ensures forall k :: 0 <= k < MAX_DRIVES ==> tracks[k] == CLEAN
    {
      numDrives := if n <= MAX_DRIVES then n else MAX_DRIVES;
      Clear();
    }

    method Clear()
      requires Valid()
      modifies tracks
      ensures forall k :: 0 <= k < MAX_DRIVES ==> tracks[k] == CLEAN
    {
      for k := 0 to MAX_DRIVES
        invariant forall j :: 0 <= j < k ==> tracks[j] == CLEAN
      {
        tracks[k] := CLEAN;
      }
    }

    method ClearLockout(i: int)
      requires Valid()
      modifies tracks
      ensures Tracks() == if 0 <= i < numDrives then old(Tracks())[i := Cleared(old(Tracks())[i])] else old(Tracks())
    {
      if i < 0 || i >= numDrives { return; }
      tracks[i] := tracks[i].(locked := false);
      tracks[i] := tracks[i].(retries := 0);
      tracks[i] := tracks[i].(faultSeen := false);
      tracks[i] := tracks[i].(resetActive := false);
    }

    method IsAnyFaultSeen() returns (any: bool)
      requires Valid()
      ensures any <==> exists j :: 0 <= j < numDrives && Tracks()[j].faultSeen
    {
      for j := 0 to numDrives
        invariant forall k :: 0 <= k < j ==> !Tracks()[k].faultSeen
      {
        if tracks[j].faultSeen {
          assert Tracks()[j].faultSeen;
          return true;
        }
      }
      return false;
    }

    /** The per-cycle, per-drive step. `state`: the drive's state as fetched this cycle. */
    method Step(i: int, drive: A6Drive?, state: DriveState, cycle: nat) returns (r: Result)
      requires Valid()
      modifies tracks, if drive == null then {} else {drive}
      ensures i < 0 || i >= numDrives || drive == null ==> r == PROCEED && Tracks() == old(Tracks())
      ensures drive != null && (i < 0 || i >= numDrives) ==> drive.Value() == old(drive.Value())
      ensures drive != null ==> drive.inputs == old(drive.inputs)
      ensures 0 <= i < numDrives && drive != null ==>
        var o := TrackStep(old(Tracks())[i], old(drive.Value()), drive.inputs, drive.setup, state, cycle, OthersSeen(old(Tracks()), i));
        Tracks() == old(Tracks())[i := o.t] && drive.Value() == o.d && r == o.r
    {
      r := PROCEED;
      if i < 0 || i >= numDrives || drive == null { return; }
      if tracks[i].locked {
        r := r.(disable := true);
        return;
      }
      if state == Fault || state == FaultReactionActive {
        r := StepFault(i, drive, state, cycle);
        return;
      }
      r := StepHealthy(i, state, cycle);
    }

    method StepHealthy(i: nat, state: DriveState, cycle: nat) returns (r: Result)
      requires Valid() && i < numDrives && !Faulted(state)
      modifies tracks
      ensures var o := HealthyStep(old(Tracks())[i], state, cycle, OthersSeen(old(Tracks()), i));
        Tracks() == old(Tracks())[i := o.0] && r == o.1
    {
      r := PROCEED;
      if tracks[i].faultSeen {
        if state == OperationEnabled {
          if tracks[i].opEnabledSince == 0 {
            tracks[i] := tracks[i].(opEnabledSince := cycle);
          }
          var stableCycles := Elapsed(cycle, tracks[i].opEnabledSince);
          if stableCycles >= FAULT_CLEAR_STABLE_CYCLES {
            tracks[i] := tracks[i].(faultSeen := false, resetActive := false, healthyCycle := cycle);
            var any := IsAnyFaultSeen();
            AnyIsOthers(old(Tracks()), i, Tracks());
            if !any { r := r.(allClearRehome := true); }
          }
        } else {
          tracks[i] := tracks[i].(opEnabledSince := 0);
        }
      }
      if tracks[i].retries > 0 && tracks[i].healthyCycle > 0
         && Elapsed(cycle, tracks[i].healthyCycle) > HEALTHY_CYCLES_RESET {
        tracks[i] := tracks[i].(retries := 0);
      }
    }

    method StepFault(i: nat, drive: A6Drive, state: DriveState, cycle: nat) returns (r: Result)
      requires Valid() && i < numDrives && Faulted(state)
      modifies tracks, drive
      ensures drive.inputs == old(drive.inputs)
      ensures var o := FaultStep(old(Tracks())[i], old(drive.Value()), drive.inputs, drive.setup, state, cycle, OthersSeen(old(Tracks()), i));
        Tracks() == old(Tracks())[i := o.t] && drive.Value() == o.d && r == o.r
    {
      hide ResetStep, ResetCleared;
      r := PROCEED;
      if !tracks[i].faultSeen {
        tracks[i] := tracks[i].(faultSeen := true, resetActive := false);
        r := r.(firstFaultSeen := true);
      }
      if state == Fault {
        if tracks[i].retries >= MAX_FAULT_RETRIES {
          if !tracks[i].locked {
            tracks[i] := tracks[i].(locked := true);
            r := r.(lockoutJustOccurred := true);
          }
          r := r.(disable := true);
          return;
        }
        OthersUnchanged(old(Tracks()), i, Tracks());
        var a := StepReset(i, drive, cycle);
        r := a.(firstFaultSeen := r.firstFaultSeen);
        return;
      }
      r := r.(skipEnableSM := true);
    }

    /** Starts a reset attempt unless one is under way, and steps it. */
    method StepReset(i: nat, drive: A6Drive, cycle: nat) returns (r: Result)
      requires Valid() && i < numDrives && Tracks()[i].faultSeen && Tracks()[i].retries < MAX_FAULT_RETRIES
      modifies tracks, drive
      ensures drive.inputs == old(drive.inputs)
      ensures var o := FaultStep(old(Tracks())[i], old(drive.Value()), drive.inputs, drive.setup, Fault, cycle, OthersSeen(old(Tracks()), i));
        Tracks() == old(Tracks())[i := o.t] && drive.Value() == o.d && r == o.r
    {
      hide ResetStep, ResetCleared;
      r := PROCEED;
      if !tracks[i].resetActive {
        tracks[i] := tracks[i].(resetActive := true, retries := tracks[i].retries + 1);
        drive.StartFaultReset();
      }
      var cleared := drive.StepFaultReset();
      if cleared {
        tracks[i] := tracks[i].(resetActive := false, opEnabledSince := 0, healthyCycle := cycle, faultSeen := false);
        var any := IsAnyFaultSeen();
        AnyIsOthers(old(Tracks()), i, Tracks());
        if !any { r := r.(allClearRehome := true); }
        r := r.(seedPosition := true);
        return;
      } else if !drive.reset.pending {
        tracks[i] := tracks[i].(resetActive := false);
      }
      r := r.(skipEnableSM := true);
    }
  }
}
