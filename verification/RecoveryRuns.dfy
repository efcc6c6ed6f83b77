/** What holds of the recovery over any sequence of scans, whatever the slaves answer. Slaves do
    not influence each other, so a run is that of one slave. */
module RecoveryRuns {
  import opened Recovery

  function Next(s: Slave, scan: Scan): Effect {
    match scan
    case Aborted => Effect(s, [])
    case Stopped(a) => Effect(Interrupted(s, a), [])
    case Scanned(a) => Turn(s, a)
  }

  /** A slave's states before each scan of a run, the first as the thread starts. */
  predicate Run(ss: seq<Slave>, scans: seq<Scan>) {
    && |ss| == |scans| + 1 && ss[0].fails == 0 && !ss[0].lostPending
    && forall k :: 0 <= k < |scans| ==> ss[k + 1] == Next(ss[k], scans[k]).s
  }

  function Acts(ss: seq<Slave>, scans: seq<Scan>, k: nat): seq<Act>
    requires |ss| == |scans| + 1 && k < |scans|
  {
    Next(ss[k], scans[k]).acts
  }

  // ----- arming and requesting -----

  /** SYNC0 after the acts, armed or not before them. */
  function ArmedAfter(acts: seq<Act>, before: bool): bool {
    if acts == [] then before
    else
      var last := acts[|acts| - 1];
      if last == Arm then true else if last == Disarm then false else ArmedAfter(acts[..|acts| - 1], before)
  }

  /** SYNC0 before scan `k`; it was armed when the thread started. */
  function Armed(ss: seq<Slave>, scans: seq<Scan>, k: nat): bool
    requires |ss| == |scans| + 1 && k <= |scans|
  {
    if k == 0 then true else ArmedAfter(Acts(ss, scans, k - 1), Armed(ss, scans, k - 1))
  }

  /** Failed walks since the last that succeeded or the last address recovery. */
  function FailuresAfter(acts: seq<Act>, before: nat): nat {
    if acts == [] then before
    else
      var last, rest := acts[|acts| - 1], acts[..|acts| - 1];
      match last
      case Walk(result) => if Reached(result) then 0 else FailuresAfter(rest, before) + 1
      case Readdress(result) => if result.Returned? && result.rc != 0 then 0 else FailuresAfter(rest, before)
      case _ => FailuresAfter(rest, before)
  }

  function Failures(ss: seq<Slave>, scans: seq<Scan>, k: nat): nat
    requires |ss| == |scans| + 1 && k <= |scans|
  {
    if k == 0 then 0 else FailuresAfter(Acts(ss, scans, k - 1), Failures(ss, scans, k - 1))
  }

  /** Whether the last walk failed to reach SAFE_OP; with no walk, as before. */
  function FailedAfter(acts: seq<Act>, before: bool): bool {
    if acts == [] then before
    else
      var last := acts[|acts| - 1];
      if last.Walk? then !Reached(last.result) else FailedAfter(acts[..|acts| - 1], before)
  }

  /** The last walk before scan `k` failed; false when there was none. */
  function LastWalkFailed(ss: seq<Slave>, scans: seq<Scan>, k: nat): bool
    requires |ss| == |scans| + 1 && k <= |scans|
  {
    if k == 0 then false else FailedAfter(Acts(ss, scans, k - 1), LastWalkFailed(ss, scans, k - 1))
  }

  /** Some act before position `j` is a walk that reached SAFE_OP. */
  predicate WalkedBefore(acts: seq<Act>, j: nat)
    requires j <= |acts|
  {
    exists m :: 0 <= m < j && acts[m].Walk? && Reached(acts[m].result)
  }

  /** In a turn, SYNC0 is armed only after it was disarmed and a walk then reached SAFE_OP; OP
      is requested only of a slave that reads SAFE_OP or after such a walk; and a slave at the
      cap is not walked. */
  lemma TurnIsOrdered(s: Slave, a: Answer, j: nat)
    requires j < |Turn(s, a).acts|
    ensures var acts := Turn(s, a).acts;
      && (acts[j] == Arm ==> acts[0] == Disarm && WalkedBefore(acts, j) && 0 < j)
      && (acts[j] == RequestOp ==> (a.read == EC_STATE_SAFE_OP && j == 0) || WalkedBefore(acts, j))
      && (acts[j].Walk? ==> !Capped(s) && a.read !in {EC_STATE_NONE, EC_STATE_SAFE_OP, EC_STATE_OPERATIONAL})
  {
    var acts := Turn(s, a).acts;
    var w := if s.hasDc then 1 else 0;
    if a.read > EC_STATE_NONE && w < |acts| && acts[w].Walk? && Reached(acts[w].result) {
      assert j > w ==> WalkedBefore(acts, j);
    }
  }

  /** The three counts together. */
  datatype Count = Count(fails: nat, armed: bool, failed: bool)

  function After(acts: seq<Act>, c: Count): Count {
    Count(FailuresAfter(acts, c.fails), ArmedAfter(acts, c.armed), FailedAfter(acts, c.failed))
  }

  lemma CountAppended(acts: seq<Act>, act: Act, c: Count)
    ensures After(acts + [act], c) == (
      var d := After(acts, c);
      if act.Walk? then (if Reached(act.result) then Count(0, d.armed, false) else Count(d.fails + 1, d.armed, true))
      else if act.Readdress? && act.result.Returned? && act.result.rc != 0 then d.(fails := 0)
      else if act == Arm then d.(armed := true)
      else if act == Disarm then d.(armed := false)
      else d)
  {
    assert (acts + [act])[..|acts|] == acts;
  }

  /** The failure count is the slave's, only a failed walk leaves one, and SYNC0 is armed
      exactly while the last walk did not fail. */
  predicate Agrees(s: Slave, c: Count) {
    && s.fails == c.fails <= MAX_RECONFIG_ATTEMPTS
    && (c.fails > 0 ==> c.failed)
    && (s.hasDc ==> (c.armed <==> !c.failed))
  }

  predicate Tallied(e: Effect, c: Count) { Agrees(e.s, After(e.acts, c)) }

  lemma ReconfigureTallied(s: Slave, a: Answer, c: Count)
    requires s.fails < MAX_RECONFIG_ATTEMPTS && Agrees(s, c)
    ensures Tallied(Reconfigure(s, a), c)
  {
    WalkCounts(s.hasDc, a.walk, c);
    var w := (if s.hasDc then [Disarm] else []) + [Walk(a.walk)];
    hide After;
    if Reached(a.walk) {
      var arm := if !s.hasDc then [] else if a.thin then [Arm, Arm] else [Arm];
      CountArming(w, arm, c);
      CountAppended(w + arm, RequestOp, c);
    }
  }

  lemma WalkCounts(hasDc: bool, walk: Call, c: Count)
    ensures var armed := c.armed && !hasDc;
      After((if hasDc then [Disarm] else []) + [Walk(walk)], c)
      == if Reached(walk) then Count(0, armed, false) else Count(c.fails + 1, armed, true)
  {
    var d := if hasDc then [Disarm] else [];
    assert d == [] || d == [] + [Disarm];
    CountNothing(c);
    CountAppended([], Disarm, c);
    CountAppended(d, Walk(walk), c);
    hide After;
  }

  lemma CountArming(w: seq<Act>, arm: seq<Act>, c: Count)
    requires arm == [] || arm == [Arm] || arm == [Arm, Arm]
    ensures After(w + arm, c) == if arm == [] then After(w, c) else After(w, c).(armed := true)
  {
    if arm == [] {
      assert w + arm == w;
    } else {
      CountAppended(w, Arm, c);
      if arm == [Arm, Arm] {
        CountAppended(w + [Arm], Arm, c);
        assert w + [Arm] + [Arm] == w + arm;
      }
    }
  }

  lemma TailTallied(e: Effect, a: Answer, c: Count)
    requires Tallied(e, c)
    ensures Tallied(Tail(e, a), c)
  {
    CountAppended(e.acts, Readdress(a.recover), c);
    hide After;
  }

  /** One turn's effect on the counts. */
  lemma TurnTallied(s: Slave, a: Answer, c: Count)
    requires Agrees(s, c)
    ensures Tallied(Turn(s, a), c)
  {
    CountNothing(c);
    var r := s.(state := a.read, lostPending := s.lostPending && a.read == EC_STATE_NONE);
    if r.state == EC_STATE_SAFE_OP + EC_STATE_ERROR {
      OneActTallied(r.(state := EC_STATE_SAFE_OP + EC_STATE_ACK), Acknowledge, c);
      TailTallied(Effect(r.(state := EC_STATE_SAFE_OP + EC_STATE_ACK), [Acknowledge]), a, c);
    } else if r.state == EC_STATE_SAFE_OP {
      OneActTallied(r.(state := EC_STATE_OPERATIONAL, mailboxLost := false), RequestOp, c);
      TailTallied(Effect(r.(state := EC_STATE_OPERATIONAL, mailboxLost := false), [RequestOp]), a, c);
    } else if r.state > EC_STATE_NONE && r.state != EC_STATE_OPERATIONAL && !Capped(r) {
      ReconfigureTallied(r, a, c);
      TailTallied(Reconfigure(r, a), a, c);
      hide Reconfigure, Tail, Tallied;
    } else if r.state == EC_STATE_NONE {
      OneActTallied(Confirm(r, a).s, NotePending, c);
      OneActTallied(Confirm(r, a).s, MarkLost, c);
      hide After;
      TailTallied(Confirm(r, a), a, c);
      TailTallied(Effect(r, []), a, c);
      hide Tail, Tallied;
    }
  }

  lemma CountNothing(c: Count)
    ensures After([], c) == c
  {}

  lemma OneActTallied(s: Slave, act: Act, c: Count)
    requires !act.Walk? && !act.Readdress? && act != Arm && act != Disarm && Agrees(s, c)
    ensures Tallied(Effect(s, [act]), c)
  {
    CountAppended([], act, c);
    assert [] + [act] == [act];
  }

  function CountAt(ss: seq<Slave>, scans: seq<Scan>, k: nat): Count
    requires |ss| == |scans| + 1 && k <= |scans|
  {
    Count(Failures(ss, scans, k), Armed(ss, scans, k), LastWalkFailed(ss, scans, k))
  }

  /** On every run: at most five walks of a slave fail in a row without its address being
      recovered; and a clocked slave's SYNC0 is armed exactly when it has not been walked yet
      or its last walk reached SAFE_OP. Recovering its address arms nothing. */
  lemma {:induction false} RunTallied(ss: seq<Slave>, scans: seq<Scan>, k: nat)
    requires Run(ss, scans) && k <= |scans|
    ensures ss[k].fails == Failures(ss, scans, k) <= MAX_RECONFIG_ATTEMPTS
    ensures Failures(ss, scans, k) > 0 ==> LastWalkFailed(ss, scans, k)
    ensures ss[k].hasDc ==> (Armed(ss, scans, k) <==> !LastWalkFailed(ss, scans, k))
  {
    hide FailuresAfter, ArmedAfter, FailedAfter, Turn;
    if k > 0 {
      RunTallied(ss, scans, k - 1);
      assert ss[k - 1 + 1] == Next(ss[k - 1], scans[k - 1]).s;
      CountNothing(CountAt(ss, scans, k - 1));
      if scans[k - 1].Scanned? {
        TurnTallied(ss[k - 1], scans[k - 1].a, CountAt(ss, scans, k - 1));
        SameHardware(ss[k - 1], scans[k - 1].a);
      }
    }
  }

  lemma SameHardware(s: Slave, a: Answer)
    ensures Turn(s, a).s.hasDc == s.hasDc
  {}

  // ----- marking lost -----

  /** Scan `k` read NONE and the check that follows did too. */
  predicate ConfirmedNone(scans: seq<Scan>, k: nat)
    requires k < |scans|
  {
    scans[k].Scanned? && scans[k].a.read == EC_STATE_NONE && scans[k].a.checked == EC_STATE_NONE
  }

  /** No scan from `from` to before `to` took the slave's turn and read it above NONE. */
  predicate NeverAbove(scans: seq<Scan>, from: nat, to: nat)
    requires to <= |scans|
  {
    forall m :: from <= m < to && scans[m].Scanned? ==> scans[m].a.read == EC_STATE_NONE
  }

  lemma {:induction false} PendingSince(ss: seq<Slave>, scans: seq<Scan>, k: nat) returns (j: nat)
    requires Run(ss, scans) && k <= |scans| && ss[k].lostPending
    ensures j < k && ConfirmedNone(scans, j) && NeverAbove(scans, j, k)
  {
    assert k > 0;
    assert ss[k - 1 + 1] == Next(ss[k - 1], scans[k - 1]).s;
    if ss[k - 1].lostPending {
      j := PendingSince(ss, scans, k - 1);
    } else {
      j := k - 1;
    }
  }

  /** A slave is marked lost only by the second of two scans that confirmed NONE, with no scan
      between them that read it above NONE. */
  lemma LostTakesTwo(ss: seq<Slave>, scans: seq<Scan>, k: nat)
    requires Run(ss, scans) && k < |scans| && MarkLost in Acts(ss, scans, k)
    ensures ConfirmedNone(scans, k)
    ensures exists j :: 0 <= j < k && ConfirmedNone(scans, j) && NeverAbove(scans, j, k)
  {
    assert scans[k].Scanned? && ss[k].lostPending;
    var j := PendingSince(ss, scans, k);
  }

  /** The two need not be consecutive: a scan between them whose check finds the slave alive
      does not withdraw the first. */
  lemma NotConsecutive(s: Slave, none: Answer, alive: Answer)
    requires s.fails == 0 && !s.lostPending && !s.isLost
    requires none.read == EC_STATE_NONE && none.checked == EC_STATE_NONE
    requires alive.read == EC_STATE_NONE && alive.checked > EC_STATE_NONE
    ensures var s1 := Turn(s, none).s; var s2 := Turn(s1, alive).s;
      s2.state > EC_STATE_NONE && MarkLost in Turn(s2, none).acts && MarkLost !in Turn(s, none).acts
  {
    var s1 := Turn(s, none).s;
    assert s1.lostPending && !s1.isLost;
    var s2 := Turn(s1, alive).s;
    assert s2.lostPending && !s2.isLost;
    assert Turn(s2, none).acts[0] == MarkLost;
  }

  // ----- where the guarantees end -----

  /** A capped slave that reads anything but NONE, SAFE_OP or OPERATIONAL is left entirely
      alone, also when it is lost and in INIT, where only an address recovery would help. */
  lemma CappedIsLeftAlone(s: Slave, a: Answer)
    requires Capped(s) && a.read !in {EC_STATE_NONE, EC_STATE_SAFE_OP, EC_STATE_OPERATIONAL, EC_STATE_SAFE_OP + EC_STATE_ERROR}
    ensures Turn(s, a) == Effect(s.(state := a.read, lostPending := false), [])
  {}

  /** Scan `k` requests OP of the slave while its SYNC0 is disarmed. */
  predicate RequestsUnclocked(ss: seq<Slave>, scans: seq<Scan>, k: nat)
    requires |ss| == |scans| + 1 && k < |scans|
  {
    var acts := Acts(ss, scans, k);
    exists j :: 0 <= j < |acts| && acts[j] == RequestOp && !ArmedAfter(acts[..j], Armed(ss, scans, k))
  }

  /** OP is requested of a clocked slave with its SYNC0 disarmed exactly when the slave shows
      SAFE_OP by itself after its last walk failed, however many scans later. */
  lemma OpWithoutSync(ss: seq<Slave>, scans: seq<Scan>, k: nat)
    requires Run(ss, scans) && k < |scans| && ss[k].hasDc
    ensures RequestsUnclocked(ss, scans, k) <==>
            scans[k].Scanned? && scans[k].a.read == EC_STATE_SAFE_OP && LastWalkFailed(ss, scans, k)
    ensures RequestsUnclocked(ss, scans, k) ==> !Armed(ss, scans, k + 1)
  {
    RunTallied(ss, scans, k);
    var armed := Armed(ss, scans, k);
    var acts := Acts(ss, scans, k);
    if scans[k].Scanned? && scans[k].a.read == EC_STATE_SAFE_OP {
      RequestAlone(ss[k], scans[k].a, CountAt(ss, scans, k));
      hide Turn, ArmedAfter, FailedAfter;
      assert acts[..0] == [];
      CountNothing(CountAt(ss, scans, k));
    } else if scans[k].Scanned? {
      forall j | 0 <= j < |acts| && acts[j] == RequestOp ensures ArmedAfter(acts[..j], armed) {
        ArmedAtRequest(ss[k], scans[k].a, j, armed);
      }
    }
  }

  lemma RequestAlone(s: Slave, a: Answer, c: Count)
    requires a.read == EC_STATE_SAFE_OP
    ensures Turn(s, a).acts == [RequestOp] && After([RequestOp], c) == c
  {
    CountAppended([], RequestOp, c);
    assert [] + [RequestOp] == [RequestOp];
  }

  /** The walk's own request comes right after arming. */
  lemma ArmedAtRequest(s: Slave, a: Answer, j: nat, armed: bool)
    requires s.hasDc && a.read != EC_STATE_SAFE_OP && j < |Turn(s, a).acts| && Turn(s, a).acts[j] == RequestOp
    ensures ArmedAfter(Turn(s, a).acts[..j], armed)
  {
    var acts := Turn(s, a).acts;
    assert j > 0 && acts[j - 1] == Arm;
    assert acts[..j][j - 1] == Arm;
  }

  /** Recovering the address of a slave after its walk failed clears its failure count and
      leaves it disarmed: reading SAFE_OP next, it is asked for OP all the same. */
  lemma ReaddressedUnclocked(s: Slave, a: Answer, b: Answer)
    requires s.hasDc && s.isLost && s.fails == 0 && !s.lostPending
    requires a.read == EC_STATE_INIT && a.walk.Returned? && !Reached(a.walk) && a.walked == EC_STATE_INIT
    requires a.recover.Returned? && a.recover.rc != 0 && b.read == EC_STATE_SAFE_OP
    ensures var t := Turn(s, a).s; var ss := [s, t, Turn(t, b).s]; var scans := [Scanned(a), Scanned(b)];
            Run(ss, scans) && t.fails == 0 && RequestsUnclocked(ss, scans, 1)
  {
    var t := Turn(s, a).s;
    var ss := [s, t, Turn(t, b).s];
    var scans := [Scanned(a), Scanned(b)];
    assert Acts(ss, scans, 0) == [Disarm, Walk(a.walk)] + [Readdress(a.recover)];
    CountAppended([Disarm, Walk(a.walk)], Readdress(a.recover), Count(0, true, false));
    assert FailedAfter([Disarm, Walk(a.walk)], false);
    assert LastWalkFailed(ss, scans, 0) == false;
    OpWithoutSync(ss, scans, 1);
  }
}
