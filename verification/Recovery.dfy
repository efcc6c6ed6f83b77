/** The recovery scan: what the master does, slave by slave, to bring dropped slaves back to
    operation. What the bus answers is adversarial. */
module Recovery {

  const EC_STATE_NONE: nat := 0
  const EC_STATE_INIT: nat := 1
  const EC_STATE_SAFE_OP: nat := 4
  const EC_STATE_OPERATIONAL: nat := 8
  const EC_STATE_ERROR: nat := 16
  const EC_STATE_ACK: nat := 16
  const MAX_RECONFIG_ATTEMPTS: nat := 5

  /** The slave as the bus library keeps it, with the scan's own counters for it. */
  datatype Slave = Slave(state: nat, isLost: bool, hasDc: bool, mailboxLost: bool, fails: nat, lostPending: bool)

  /** A call into the bus library that may crash. */
  datatype Call = Crashed | Returned(rc: int)

  /** What the bus answers about one slave in one scan: the state read at its start, the result
      of the reconfiguration walk and the state it leaves, the state the NONE check leaves,
      whether the start-time margin came out thin, the result of the address recovery. */
  datatype Answer = Answer(read: nat, walk: Call, walked: nat, checked: nat, thin: bool, recover: Call)

  /** A scan as one slave sees it: aborted, stopped before the slave's turn, or carried out. */
  datatype Scan = Aborted | Stopped(a: Answer) | Scanned(a: Answer)

  /** What the scan does on the bus for a slave. */
  datatype Act = Acknowledge | RequestOp | Disarm | Walk(result: Call) | Arm | NotePending | MarkLost | Readdress(result: Call)

  datatype Effect = Effect(s: Slave, acts: seq<Act>)

  function Reached(c: Call): bool { c.Returned? && c.rc >= EC_STATE_SAFE_OP }

  // ----- the branches -----

  function NoteFailure(s: Slave): Slave { s.(fails := s.fails + 1) }

  /** The reconfiguration: disarm, walk, and only from a walk that reached SAFE_OP re-arm and
      request OP. */
  function Reconfigure(s: Slave, a: Answer): Effect {
    var disarm := if s.hasDc then [Disarm] else [];
    var walked := s.(state := a.walked);
    if !Reached(a.walk) then Effect(NoteFailure(walked), disarm + [Walk(a.walk)])
    else
      var arm := if !s.hasDc then [] else if a.thin then [Arm, Arm] else [Arm];
      Effect(walked.(fails := 0, isLost := false, state := EC_STATE_OPERATIONAL), disarm + [Walk(a.walk)] + arm + [RequestOp])
  }

  /** The double confirmation of a slave that reads NONE. */
  function Confirm(s: Slave, a: Answer): Effect {
    var c := s.(state := a.checked);
    if a.checked != EC_STATE_NONE then Effect(c, [])
    else if !s.lostPending then Effect(c.(lostPending := true), [NotePending])
    else Effect(c.(lostPending := false, isLost := true, mailboxLost := true), [MarkLost])
  }

  /** The address recovery at the end of a slave's turn. */
  function Tail(e: Effect, a: Answer): Effect {
    if e.s.isLost && e.s.state <= EC_STATE_INIT then
      Effect(if a.recover.Returned? && a.recover.rc != 0 then e.s.(isLost := false, fails := 0) else e.s,
             e.acts + [Readdress(a.recover)])
    else e
  }

  predicate Capped(s: Slave) { s.fails >= MAX_RECONFIG_ATTEMPTS }

  /** One slave's turn in a scan. */
  function Turn(old': Slave, a: Answer): Effect {
    var s := old'.(state := a.read, lostPending := old'.lostPending && a.read == EC_STATE_NONE);
    if s.state == EC_STATE_OPERATIONAL then Effect(s, [])
    else if s.state == EC_STATE_SAFE_OP + EC_STATE_ERROR then
      Tail(Effect(s.(state := EC_STATE_SAFE_OP + EC_STATE_ACK), [Acknowledge]), a)
    else if s.state == EC_STATE_SAFE_OP then
      Tail(Effect(s.(state := EC_STATE_OPERATIONAL, mailboxLost := false), [RequestOp]), a)
    else if s.state > EC_STATE_NONE then
      if Capped(s) then Effect(s, [])
      else
        var e := Reconfigure(s, a);
        if a.walk.Crashed? then e else Tail(e, a)
    else if !s.isLost then Tail(Confirm(s, a), a)
    else Tail(Effect(s, []), a)
  }

  /** A stop before the slave's turn leaves the state just read and nothing else. */
  function Interrupted(s: Slave, a: Answer): Slave { s.(state := a.read) }

  // ----- the scan -----

  class Recovery {
    /** Entry 0 is unused. */
    const slaves: array<Slave>
    /** What was done for each slave, scan by scan. */
    ghost var log: seq<seq<Act>>

    ghost predicate Valid()
      reads this
    {
      slaves.Length > 0 && |log| == slaves.Length
    }

    constructor (initial: seq<Slave>)
      requires |initial| > 0
      ensures Valid() && fresh(slaves) && slaves[..] == initial && log == seq(|initial|, _ => [])
    {
      slaves := new Slave[|initial|](k requires 0 <= k < |initial| => initial[k]);
      log := seq(|initial|, _ => []);
    }

    /** One scan. `crashed`: the state read at its start failed; `stopAt`: the slave before
        whose turn a stop is noticed. */
    method DoRecoveryScan(answers: seq<Answer>, crashed: bool, stopAt: nat)
      requires Valid() && |answers| == slaves.Length
      modifies this, slaves
      ensures Valid()
      ensures crashed ==> slaves[..] == old(slaves[..]) && log == old(log)
      ensures !crashed ==> forall i :: 1 <= i < slaves.Length ==>
        if i < stopAt
        then slaves[i] == Turn(old(slaves[i]), answers[i]).s && log[i] == old(log[i]) + Turn(old(slaves[i]), answers[i]).acts
        else slaves[i] == Interrupted(old(slaves[i]), answers[i]) && log[i] == old(log[i])
    {
      if crashed { return; }
      for i := 1 to slaves.Length
        invariant Valid() && log == old(log)
        invariant forall k :: 1 <= k < i ==> slaves[k] == Interrupted(old(slaves[k]), answers[k])
        invariant forall k :: i <= k < slaves.Length ==> slaves[k] == old(slaves[k])
      {
        slaves[i] := slaves[i].(state := answers[i].read);
      }
      for i := 1 to slaves.Length
        invariant Valid() && i <= (if stopAt < 1 then 1 else stopAt)
        invariant forall k :: 1 <= k < i ==>
          slaves[k] == Turn(old(slaves[k]), answers[k]).s && log[k] == old(log[k]) + Turn(old(slaves[k]), answers[k]).acts
        invariant forall k :: i <= k < slaves.Length ==>
          slaves[k] == Interrupted(old(slaves[k]), answers[k]) && log[k] == old(log[k])
      {
        if i >= stopAt { return; }
        TakeTurn(i, answers[i]);
      }
    }

    ghost method Record(i: nat, acts: seq<Act>)
      requires Valid() && i < slaves.Length
      modifies this`log
      ensures Valid() && log == old(log)[i := old(log)[i] + acts]
    {
      log := log[i := log[i] + acts];
    }

    /** A slave's turn; its state was read at the start of the scan. */
    method TakeTurn(i: nat, a: Answer)
      requires Valid() && 1 <= i < slaves.Length && slaves[i].state == a.read
      modifies this`log, slaves
      ensures Valid() && forall k :: 0 <= k < slaves.Length && k != i ==> slaves[k] == old(slaves[k]) && log[k] == old(log[k])
      ensures slaves[i] == Turn(old(slaves[i]), a).s && log[i] == old(log[i]) + Turn(old(slaves[i]), a).acts
    {
      hide Reconfigure, Confirm, Tail;
      ghost var before, acts := log[i], [];
      if slaves[i].state > EC_STATE_NONE {
        slaves[i] := slaves[i].(lostPending := false);
      }
      if slaves[i].state == EC_STATE_OPERATIONAL { return; }
      if slaves[i].state == EC_STATE_SAFE_OP + EC_STATE_ERROR {
        slaves[i] := slaves[i].(state := EC_STATE_SAFE_OP + EC_STATE_ACK);
        acts := [Acknowledge];
        Record(i, acts);
      } else if slaves[i].state == EC_STATE_SAFE_OP {
        slaves[i] := slaves[i].(state := EC_STATE_OPERATIONAL, mailboxLost := false);
        acts := [RequestOp];
        Record(i, acts);
      } else if slaves[i].state > EC_STATE_NONE {
        if slaves[i].fails >= MAX_RECONFIG_ATTEMPTS { return; }
        acts := Reconfigure(slaves[i], a).acts;
        var crashed := WalkSlave(i, a);
        if crashed { return; }
      } else if !slaves[i].isLost {
        acts := Confirm(slaves[i], a).acts;
        CheckNone(i, a);
      }
      RecoverAddress(i, a, before, acts);
    }

    method RecoverAddress(i: nat, a: Answer, ghost before: seq<Act>, ghost acts: seq<Act>)
      requires Valid() && 1 <= i < slaves.Length && log[i] == before + acts
      modifies this`log, slaves
      ensures Valid() && forall k :: 0 <= k < slaves.Length && k != i ==> slaves[k] == old(slaves[k]) && log[k] == old(log[k])
      ensures var e := Tail(Effect(old(slaves[i]), acts), a); slaves[i] == e.s && log[i] == before + e.acts
    {
      if slaves[i].isLost && slaves[i].state <= EC_STATE_INIT {
        Record(i, [Readdress(a.recover)]);
        if a.recover.Returned? && a.recover.rc != 0 {
          slaves[i] := slaves[i].(isLost := false);
          slaves[i] := slaves[i].(fails := 0);
        }
      }
    }

    method WalkSlave(i: nat, a: Answer) returns (crashed: bool)
      requires Valid() && 1 <= i < slaves.Length
      modifies this`log, slaves
      ensures Valid() && forall k :: 0 <= k < slaves.Length && k != i ==> slaves[k] == old(slaves[k]) && log[k] == old(log[k])
      ensures slaves[i] == Reconfigure(old(slaves[i]), a).s && log[i] == old(log[i]) + Reconfigure(old(slaves[i]), a).acts
      ensures crashed == a.walk.Crashed?
    {
      ghost var acts := if slaves[i].hasDc then [Disarm] else [];
      acts := acts + [Walk(a.walk)];
      slaves[i] := slaves[i].(state := a.walked);
      crashed := a.walk.Crashed?;
      if !crashed && a.walk.rc >= EC_STATE_SAFE_OP {
        slaves[i] := slaves[i].(fails := 0);
        slaves[i] := slaves[i].(isLost := false);
        if slaves[i].hasDc {
          acts := acts + (if a.thin then [Arm, Arm] else [Arm]);
        }
        slaves[i] := slaves[i].(state := EC_STATE_OPERATIONAL);
        acts := acts + [RequestOp];
      } else {
        slaves[i] := slaves[i].(fails := slaves[i].fails + 1);
      }
      Record(i, acts);
    }

    method CheckNone(i: nat, a: Answer)
      requires Valid() && 1 <= i < slaves.Length
      modifies this`log, slaves
      ensures Valid() && forall k :: 0 <= k < slaves.Length && k != i ==> slaves[k] == old(slaves[k]) && log[k] == old(log[k])
      ensures slaves[i] == Confirm(old(slaves[i]), a).s && log[i] == old(log[i]) + Confirm(old(slaves[i]), a).acts
    {
      slaves[i] := slaves[i].(state := a.checked);
      if slaves[i].state == EC_STATE_NONE {
        if !slaves[i].lostPending {
          slaves[i] := slaves[i].(lostPending := true);
          Record(i, [NotePending]);
        } else {
          slaves[i] := slaves[i].(lostPending := false);
          slaves[i] := slaves[i].(isLost := true, mailboxLost := true);
          Record(i, [MarkLost]);
        }
      }
    }
  }
}
