/** Exactly what a turn of the recovery does for a slave, and that it brings a slave back. */
module RecoveryActs {
  import opened Recovery
  import opened RecoveryRuns

  /** The states of ETG.1000 by their numbers: none, INIT, SAFE_OP, OPERATIONAL, and SAFE_OP with
      the error bit. */
  const NONE: nat := 0
  const INIT: nat := 1
  const SAFE_OP: nat := 4
  const OP: nat := 8
  const SAFE_OP_ERROR: nat := 20

  /** A walk reaches SAFE_OP by what the call returns. */
  predicate WalkReached(c: Call) { c.Returned? && c.rc >= SAFE_OP }

  /** Five failures and the slave is left alone; the walk is for every state but these four. */
  predicate Walks(s: Slave, a: Answer) { a.read !in {NONE, SAFE_OP, OP, SAFE_OP_ERROR} && s.fails < 5 }

  /** The slave is lost and found unaddressed at the end of its turn. */
  predicate Unaddressed(s: Slave, a: Answer) {
    || (a.read == NONE && s.isLost)
    || (a.read == NONE && a.checked == NONE && s.lostPending)
    || (Walks(s, a) && a.walk.Returned? && !WalkReached(a.walk) && s.isLost && a.walked <= INIT)
  }

  /** The acts of a turn, one by one: an error in SAFE_OP is acknowledged; OP is asked of a slave
      in SAFE_OP and after a walk that reached it; SYNC0 is disarmed before every walk of a clocked
      slave and armed after one that reached SAFE_OP; a slave that reads NONE twice is marked
      lost; and an address recovery is tried of a lost slave that is found unaddressed. */
  lemma TurnActsExactly(s: Slave, a: Answer)
    ensures var acts := Turn(s, a).acts;
      && (Acknowledge in acts <==> a.read == SAFE_OP_ERROR)
      && (RequestOp in acts <==> a.read == SAFE_OP || (Walks(s, a) && WalkReached(a.walk)))
      && (Walk(a.walk) in acts <==> Walks(s, a))
      && (Disarm in acts <==> Walks(s, a) && s.hasDc)
      && (Arm in acts <==> Walks(s, a) && s.hasDc && WalkReached(a.walk))
      && (NotePending in acts <==> a.read == NONE && !s.isLost && a.checked == NONE && !s.lostPending)
      && (MarkLost in acts <==> a.read == NONE && !s.isLost && a.checked == NONE && s.lostPending)
      && (Readdress(a.recover) in acts <==> Unaddressed(s, a))
  {
    var r := s.(state := a.read, lostPending := s.lostPending && a.read == NONE);
    if Walks(s, a) {
      WalkActs(r, a);
    }
    hide Reconfigure;
  }

  lemma WalkActs(s: Slave, a: Answer)
    ensures var e := Reconfigure(s, a);
      && Walk(a.walk) in e.acts && Acknowledge !in e.acts && NotePending !in e.acts && MarkLost !in e.acts && Readdress(a.recover) !in e.acts
      && (RequestOp in e.acts <==> WalkReached(a.walk)) && (Disarm in e.acts <==> s.hasDc) && (Arm in e.acts <==> s.hasDc && WalkReached(a.walk))
      && e.s.state == (if WalkReached(a.walk) then OP else a.walked)
      && e.s.isLost == (s.isLost && !WalkReached(a.walk))
      && e.s.fails == (if WalkReached(a.walk) then 0 else s.fails + 1)
  {}

  /** A start-time margin that comes out thin is armed a second time. */
  lemma ThinMarginArmsTwice(s: Slave, a: Answer)
    requires Walks(s, a) && s.hasDc && WalkReached(a.walk)
    ensures Turn(s, a).acts == if a.thin then [Disarm, Walk(a.walk), Arm, Arm, RequestOp] else [Disarm, Walk(a.walk), Arm, RequestOp]
  {}

  /** What a turn leaves of the slave: the state the bus was told, or the one it answered with. */
  lemma TurnLeaves(s: Slave, a: Answer)
    ensures var t := Turn(s, a).s;
      && (a.read == SAFE_OP_ERROR ==> t.state == SAFE_OP_ERROR)
      && (a.read == SAFE_OP ==> t.state == OP && !t.mailboxLost)
      && (a.read == OP ==> t == s.(state := OP, lostPending := false))
      && (Walks(s, a) && WalkReached(a.walk) ==> t.state == OP && !t.isLost && t.fails == 0)
      && (NotePending in Turn(s, a).acts ==> t.lostPending)
      && (MarkLost in Turn(s, a).acts ==> !t.lostPending && t.mailboxLost && (t.isLost || (a.recover.Returned? && a.recover.rc != 0)))
      && (Unaddressed(s, a) && a.recover.Returned? && a.recover.rc != 0 ==> !t.isLost && t.fails == 0)
      && (Unaddressed(s, a) && !(a.recover.Returned? && a.recover.rc != 0) ==> t.isLost)
  {
    TurnActsExactly(s, a);
    var r := s.(state := a.read, lostPending := s.lostPending && a.read == NONE);
    WalkActs(r, a);
    hide Reconfigure;
  }

  /** A scan that is stopped before the slave's turn has read its state, and done nothing else. */
  lemma StoppedScanOnlyReads(s: Slave, a: Answer)
    ensures Next(s, Stopped(a)) == Effect(s.(state := a.read), []) && Next(s, Aborted) == Effect(s, [])
  {}

  /** A slave that dropped comes back: from an error in SAFE_OP, acknowledged, over SAFE_OP, or
      from any other state by a walk that reaches SAFE_OP, it is asked for OP within two scans. */
  lemma DroppedSlaveComesBack(s: Slave, a: Answer, b: Answer)
    requires a.read == SAFE_OP_ERROR && b.read == SAFE_OP
    ensures var t := Turn(s, a); var u := Turn(t.s, b);
      Acknowledge in t.acts && RequestOp in u.acts && u.s.state == OP
  {
    TurnActsExactly(s, a);
    TurnActsExactly(Turn(s, a).s, b);
    TurnLeaves(Turn(s, a).s, b);
    hide Turn, Unaddressed;
  }
}
