/** Exactly when the panel acts, and that a press of RUN gets the rig to run. */
module PanelActions {
  import EstopFilter
  import opened GpioPanel
  import opened PanelRuns

  // ----- exactly when -----

  predicate Calm(st: Status) { !st.loopRunning && !st.initBusy }

  /** A press that starts the re-initialize chain over. */
  predicate Restarts(press: bool, st: Status) { press && st.estop && !st.estopInput }

  predicate InTime(c: Chain) { c.ticks < REINIT_TICKS }

  /** By the press, or as the next leg of the chain. */
  predicate Initializes(c: Chain, press: bool, st: Status) {
    || (press && !st.estopInput && !st.loopRunning)
    || (!Restarts(press, st) && InTime(c) && ((c.stage == 1 && !st.loopRunning) || c.stage == 2))
  }

  /** By the press, or because a cold start is pending. */
  predicate Starts(c: Chain, press: bool, st: Status) {
    (press && !st.estopInput) || (c.autoStart && !st.fault && !st.initBusy)
  }

  lemma {:induction false} ChainedExactly(c: Chain, latched: bool, press: bool, st: Status, prevBusy: bool)
    ensures var acts := Chained(c, latched, press, st, prevBusy).1;
      && AssertEstop !in acts && ReleaseEstop !in acts
      && (Stop in acts <==> press && !latched && !st.estopInput && st.loopRunning && !(st.estop && st.initBusy))
      && (Deinit in acts <==> !latched && st.masterOp && Calm(st) && (Restarts(press, st) || (c.stage == 1 && InTime(c))))
      && (Init in acts <==> !latched && !st.masterOp && !st.initBusy && Initializes(c, press, st))
      && (Start in acts <==> !latched && st.masterOp && !st.loopRunning && !st.estop && Starts(c, press, st))
  {}

  /** What one poll does, action by action, in terms of the raw inputs' events and the snapshot. */
  lemma {:induction false} ActionsExactly(p: Panel, poll: Poll)
    ensures var (q, acts) := PollStep(p, poll); var st := poll.st; var press := Pressed(p, poll); var c := p.chain;
      && (AssertEstop in acts <==> EventOf(p, poll).Engaged? || (EventOf(p, poll).Nothing? && q.latched && !st.estopInput))
      && (ReleaseEstop in acts <==> EventOf(p, poll).Released?)
      && (Stop in acts <==> press && !q.latched && !st.estopInput && st.loopRunning && !(st.estop && st.initBusy))
      && (Deinit in acts <==> !q.latched && st.masterOp && Calm(st) && (Restarts(press, st) || (c.stage == 1 && InTime(c))))
      && (Init in acts <==> !q.latched && !st.masterOp && !st.initBusy && Initializes(c, press, st))
      && (Start in acts <==> !q.latched && st.masterOp && !st.loopRunning && !st.estop && Starts(c, press, st))
  {
    var (latched, a0) := Latch(p.latched, EventOf(p, poll), poll.st);
    ChainedExactly(p.chain, latched, Pressed(p, poll), poll.st, p.prevBusy);
    assert a0 == [] || a0 == [AssertEstop] || a0 == [ReleaseEstop];
    hide Chained, Edge, EstopFilter.Step, EstopFilter.PanelCounts;
  }

  // ----- what stays pending -----

  /** A RUN press that initializes cold drives makes a start pending. */
  predicate ColdPress(press: bool, latched: bool, st: Status) {
    press && !latched && !st.estopInput && !st.estop && !st.masterOp && Calm(st)
  }

  /** After a poll a start is pending exactly when one was or a cold press has just made it, no
      press has stopped the loop or started the re-initialize chain, no fault or e-stop stands,
      it has not just been carried out, and no initialization has just ended without the drives. */
  lemma {:induction false} PendingExactly(c: Chain, latched: bool, press: bool, st: Status, prevBusy: bool)
    ensures Chained(c, latched, press, st, prevBusy).0.autoStart <==>
      && (ColdPress(press, latched, st) || (c.autoStart && !(press && !st.estopInput && st.loopRunning)))
      && !latched && !st.fault && !st.estop && !(st.masterOp && Calm(st)) && !(!st.masterOp && !st.initBusy && prevBusy)
  {}

  /** A press with the e-stop tripped starts the chain at the leg the drives are at. */
  lemma {:induction false} TrippedPressStartsTheChain(c: Chain, st: Status, prevBusy: bool)
    requires st.estop && !st.estopInput && !st.initBusy
    ensures var (d, acts) := Chained(c, false, true, st, prevBusy);
      && acts == (if st.loopRunning then [Stop] else if st.masterOp then [Deinit] else [Init])
      && d == Chain(false, if st.loopRunning then 1 else if st.masterOp then 2 else 3, 1, false)
  {
    var a := if st.loopRunning then Stop else if st.masterOp then Deinit else Init;
    assert [a] + [] + [] == [a];
  }

  /** The chain is given up when the e-stop latches, and after a minute on one leg: six thousand
      polls of ten milliseconds. */
  lemma {:induction false} ChainIsGivenUp(c: Chain, latched: bool, st: Status, prevBusy: bool)
    requires c.stage != 0 && (latched || c.ticks >= 6000)
    ensures var (d, acts) := Chained(c, latched, false, st, prevBusy);
      d.stage == 0 && Deinit !in acts && Init !in acts && POLL_MS == 10
  {}

  // ----- a press gets the rig to run -----

  /** The chains over polls without a press and without the latch: the state after them and what
      they did. `busy`: what the poll before showed. */
  function Quietly(c: Chain, busy: bool, sts: seq<Status>): (Chain, seq<Action>)
    decreases |sts|
  {
    if sts == [] then (c, [])
    else
      var (d, acts) := Chained(c, false, false, sts[0], busy);
      var (e, more) := Quietly(d, sts[0].initBusy, sts[1..]);
      (e, acts + more)
  }

  lemma QuietStep(c: Chain, st: Status, busy: bool)
    ensures var (d, a) := AutoStart(c, false, st, busy); var (e, b) := Reinit(d, false, st);
      Chained(c, false, false, st, busy).0 == e
      && (a == [] ==> Chained(c, false, false, st, busy).1 == b) && (b == [] ==> Chained(c, false, false, st, busy).1 == a)
  {
    var (d, a) := AutoStart(c, false, st, busy);
    var b := Reinit(d, false, st).1;
    assert [] + a == a && [] + b == b && a + [] == a;
  }

  predicate Fine(st: Status) { !st.fault && !st.estop && !st.estopInput }

  /** An initialization under way. */
  predicate Initializing(st: Status) { Fine(st) && !st.masterOp && st.initBusy && !st.loopRunning }

  lemma {:induction false} WaitsForTheInit(c: Chain, busy: bool, sts: seq<Status>)
    requires c.autoStart && c.stage == 0 && forall k :: 0 <= k < |sts| ==> Initializing(sts[k])
    ensures Quietly(c, busy, sts) == (c, [])
    decreases |sts|
  {
    if sts != [] {
      QuietStep(c, sts[0], busy);
      assert Chained(c, false, false, sts[0], busy) == (c, []);
      WaitsForTheInit(c, sts[0].initBusy, sts[1..]);
    }
  }

  /** A cold press means run: it initializes, and however long that takes, the poll that first
      shows the drives operational starts the loop. */
  lemma ColdPressRuns(c: Chain, busy: bool, offline: Status, waiting: seq<Status>, op: Status)
    requires c.stage == 0 && Fine(offline) && !offline.masterOp && Calm(offline) && !busy
    requires forall k :: 0 <= k < |waiting| ==> Initializing(waiting[k])
    requires Fine(op) && op.masterOp && Calm(op)
    ensures var (d, acts) := Chained(c, false, true, offline, busy);
      && acts == [Init] && Quietly(d, offline.initBusy, waiting) == (d, [])
      && Chained(d, false, false, op, true) == (d.(autoStart := false), [Start])
  {
    var d := Chained(c, false, true, offline, busy).0;
    assert [Init] + [] + [] == [Init];
    assert d == c.(autoStart := true);
    QuietStep(d, op, true);
    assert [Start] + [] == [Start];
    WaitsForTheInit(d, offline.initBusy, waiting);
  }

  /** The statuses of one leg of the chain: each keeps it waiting. */
  predicate AllAre(sts: seq<Status>, masterOp: bool, loopRunning: bool, initBusy: bool) {
    forall k :: 0 <= k < |sts| ==>
      sts[k].masterOp == masterOp && sts[k].loopRunning == loopRunning && sts[k].initBusy == initBusy
  }

  lemma {:induction false} WaitsInStage(c: Chain, busy: bool, sts: seq<Status>, op: bool, running: bool, b: bool)
    requires !c.autoStart && 1 <= c.stage <= 3 && c.ticks + |sts| <= REINIT_TICKS && AllAre(sts, op, running, b)
    requires c.stage == 1 ==> running || b
    requires c.stage == 2 ==> op || b
    requires c.stage == 3 ==> b || (!c.sawBusy && !op)
    ensures Quietly(c, busy, sts)
         == (c.(ticks := c.ticks + |sts|, sawBusy := c.sawBusy || (c.stage == 3 && b && sts != [])), [])
    decreases |sts|
  {
    if sts != [] {
      var d := c.(ticks := c.ticks + 1, sawBusy := c.sawBusy || (c.stage == 3 && b));
      QuietStep(c, sts[0], busy);
      assert Chained(c, false, false, sts[0], busy) == (d, []);
      WaitsInStage(d, sts[0].initBusy, sts[1..], op, running, b);
    }
  }

  /** A press with the e-stop tripped and the loop running re-initializes: it stops the loop, and
      as the snapshots follow, each leg within a minute, it de-initializes, initializes and is
      done once the initialization has been seen to run and to end. */
  lemma TrippedPressReinitializes(c: Chain, trip: Status, running: seq<Status>, stopped: Status, closing: seq<Status>,
                                  closed: Status, opening: seq<Status>, upAgain: Status)
    requires trip.estop && !trip.estopInput && !trip.initBusy && trip.loopRunning
    requires AllAre(running, true, true, false) && |running| + 1 < REINIT_TICKS
    requires stopped.masterOp && Calm(stopped)
    requires AllAre(closing, true, false, true) && |closing| < REINIT_TICKS
    requires !closed.masterOp && Calm(closed)
    requires AllAre(opening, false, false, true) && 0 < |opening| < REINIT_TICKS
    requires upAgain.masterOp && Calm(upAgain)
    ensures var (c1, a1) := Chained(c, false, true, trip, false);
      var (c2, a2) := Quietly(c1, false, running);
      var (c3, a3) := Chained(c2, false, false, stopped, false);
      var (c4, a4) := Quietly(c3, false, closing);
      var (c5, a5) := Chained(c4, false, false, closed, true);
      var (c6, a6) := Quietly(c5, false, opening);
      var (c7, a7) := Chained(c6, false, false, upAgain, true);
      && a1 == [Stop] && a2 == [] && a3 == [Deinit] && a4 == [] && a5 == [Init] && a6 == [] && a7 == []
      && c7.stage == 0 && !c7.autoStart
  {
    hide Quietly, Chained, AllAre;
    var c1 := Chained(c, false, true, trip, false).0;
    TripStep(c, trip);
    WaitsInStage(c1, false, running, true, true, false);
    var c2 := Quietly(c1, false, running).0;
    LegStep(c2, stopped, false);
    var c3 := Chained(c2, false, false, stopped, false).0;
    WaitsInStage(c3, false, closing, true, false, true);
    var c4 := Quietly(c3, false, closing).0;
    LegStep(c4, closed, true);
    var c5 := Chained(c4, false, false, closed, true).0;
    WaitsInStage(c5, false, opening, false, false, true);
    LegStep(Quietly(c5, false, opening).0, upAgain, true);
  }

  lemma TripStep(c: Chain, trip: Status)
    requires trip.estop && !trip.estopInput && !trip.initBusy && trip.loopRunning
    ensures Chained(c, false, true, trip, false) == (Chain(false, 1, 1, false), [Stop])
  {
    assert [Stop] + [] + [] == [Stop];
  }

  /** One leg ends and the next begins. */
  lemma LegStep(c: Chain, st: Status, busy: bool)
    requires !c.autoStart && 1 <= c.stage <= 3 && InTime(c) && Calm(st)
    requires c.stage == 1 ==> st.masterOp
    requires c.stage == 2 ==> !st.masterOp
    requires c.stage == 3 ==> c.sawBusy
    ensures var (d, acts) := Chained(c, false, false, st, busy);
      && !d.autoStart && acts == (if c.stage == 1 then [Deinit] else if c.stage == 2 then [Init] else [])
      && (c.stage < 3 ==> d == Chain(false, c.stage + 1, 0, false)) && (c.stage == 3 ==> d.stage == 0)
  {
    QuietStep(c, st, busy);
  }
}
