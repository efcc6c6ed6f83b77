/** What holds of the panel over any sequence of raw inputs and status snapshots. */
module PanelRuns {
  import EstopFilter
  import opened GpioPanel

  /** The state before poll `k`, and what poll `k` sees and does. */
  function Before(polls: seq<Poll>, k: nat): Panel
    requires k <= |polls|
  {
    PanelAfter(polls[..k])
  }

  predicate PressAt(polls: seq<Poll>, k: nat)
    requires k < |polls|
  {
    Pressed(Before(polls, k), polls[k])
  }

  predicate EngagedAt(polls: seq<Poll>, k: nat)
    requires k < |polls|
  {
    EventOf(Before(polls, k), polls[k]).Engaged?
  }

  /** Poll `k` carried out: the state after it and its actions. */
  lemma {:induction false} PollAt(polls: seq<Poll>, k: nat)
    requires k < |polls|
    ensures Before(polls, k + 1) == PollStep(Before(polls, k), polls[k]).0
    ensures Actions(polls[..k + 1]) == PollStep(Before(polls, k), polls[k]).1
  {
    assert polls[..k + 1][..k] == polls[..k];
  }

  // ----- the e-stop latch -----

  function Opens(polls: seq<Poll>): seq<bool> { seq(|polls|, k requires 0 <= k < |polls| => polls[k].open) }

  function Downs(polls: seq<Poll>): seq<bool> { seq(|polls|, k requires 0 <= k < |polls| => polls[k].runDown) }

  /** The latch is the filter's level, and the filter is that of the raw reads. */
  lemma {:induction false} LatchIsTheFilter(polls: seq<Poll>)
    ensures PanelAfter(polls).filter == EstopFilter.After(Opens(polls), EstopFilter.PanelCounts(POLL_MS))
    ensures PanelAfter(polls).latched == PanelAfter(polls).filter.engaged
  {
    if polls != [] {
      var n := |polls| - 1;
      LatchIsTheFilter(polls[..n]);
      LatchFollows(PanelAfter(polls[..n]), polls[n]);
      assert Opens(polls)[..n] == Opens(polls[..n]);
      hide PollStep, EstopFilter.Step, EstopFilter.PanelCounts;
    }
  }

  lemma LatchFollows(p: Panel, poll: Poll)
    requires p.latched == p.filter.engaged
    ensures var q := PollStep(p, poll).0;
      q.filter == EstopFilter.Step(p.filter, poll.open, EstopFilter.PanelCounts(POLL_MS)).0 && q.latched == q.filter.engaged
  {
    hide Chained, Edge, EstopFilter.PanelCounts;
  }

  /** After a poll that leaves the panel latched, the e-stop input is held: it already was, or
      the panel has just asserted it; and the panel has done nothing else. */
  lemma {:induction false} NothingElseWhileLatched(polls: seq<Poll>)
    requires polls != [] && PanelAfter(polls).latched
    ensures polls[|polls| - 1].st.estopInput || AssertEstop in Actions(polls)
    ensures forall a :: a in Actions(polls) ==> a == AssertEstop
    ensures !PanelAfter(polls).chain.autoStart && PanelAfter(polls).chain.stage == 0
  {
    LatchIsTheFilter(polls[..|polls| - 1]);
    LatchIsTheFilter(polls);
    hide Edge, EstopFilter.PanelCounts;
  }

  // ----- the button -----

  /** The button after a poll is the debounce of the one before. */
  lemma {:induction false} ButtonAfter(polls: seq<Poll>)
    requires polls != []
    ensures PanelAfter(polls).button == Edge(PanelAfter(polls[..|polls| - 1]).button, polls[|polls| - 1].runDown).0
  {
    hide Edge, Chained, Latch, EstopFilter.Step;
  }

  /** One read: `seen` are those before it. */
  lemma DebounceStep(d: Debounce, seen: seq<bool>, raw: bool)
    requires d.count == EstopFilter.Trailing(seen, !d.stable) < DEBOUNCE_CYCLES
    ensures var (e, press) := Edge(d, raw);
      && e.count == EstopFilter.Trailing(seen + [raw], !e.stable) < DEBOUNCE_CYCLES
      && (press <==> !d.stable && EstopFilter.Trailing(seen + [raw], true) >= DEBOUNCE_CYCLES)
  {
    assert (seen + [raw])[..|seen|] == seen;
  }

  lemma DownsGrow(polls: seq<Poll>)
    requires polls != []
    ensures Downs(polls) == Downs(polls[..|polls| - 1]) + [polls[|polls| - 1].runDown]
  {}

  /** A press is the third down read in a row of a button last seen up, and the button is seen
      up again only after three up reads in a row. */
  lemma {:induction false} PressIsDebounced(polls: seq<Poll>)
    ensures var d := PanelAfter(polls).button; d.count == EstopFilter.Trailing(Downs(polls), !d.stable) < DEBOUNCE_CYCLES
    ensures polls != [] ==>
      var before := PanelAfter(polls[..|polls| - 1]);
      (Pressed(before, polls[|polls| - 1]) <==>
        !before.button.stable && EstopFilter.Trailing(Downs(polls), true) >= DEBOUNCE_CYCLES)
  {
    if polls != [] {
      var n := |polls| - 1;
      PressIsDebounced(polls[..n]);
      ButtonAfter(polls);
      DownsGrow(polls);
      hide PanelAfter, Downs, EstopFilter.Trailing, Edge;
      DebounceStep(PanelAfter(polls[..n]).button, Downs(polls[..n]), polls[n].runDown);
    }
  }

  // ----- starting the loop -----

  function CountStarts(acts: seq<Action>): nat
    decreases |acts|
  {
    if acts == [] then 0 else (if acts[0].Start? then 1 else 0) + CountStarts(acts[1..])
  }

  lemma {:induction false} CountStartsAdds(a: seq<Action>, b: seq<Action>)
    ensures CountStarts(a + b) == CountStarts(a) + CountStarts(b)
    decreases |a|
  {
    if a == [] {
      assert a + b == b;
    } else {
      CountStartsAdds(a[1..], b);
      assert (a + b)[1..] == a[1..] + b;
    }
  }

  function Presses(polls: seq<Poll>): nat {
    if polls == [] then 0 else Presses(polls[..|polls| - 1]) + (if PressAt(polls, |polls| - 1) then 1 else 0)
  }

  lemma {:induction false} NoStarts(acts: seq<Action>)
    requires |acts| <= 1
    ensures CountStarts(acts) == if acts != [] && acts[0].Start? then 1 else 0
  {}

  lemma {:induction false} ChainedStarts(c: Chain, latched: bool, press: bool, st: Status, prevBusy: bool)
    ensures var (d, acts) := Chained(c, latched, press, st, prevBusy);
      CountStarts(acts) + (if d.autoStart then 1 else 0) <= (if c.autoStart then 1 else 0) + (if press then 1 else 0)
  {
    var (c1, a1) := if press then Press(c, latched, st) else (c, []);
    var (c2, a2) := AutoStart(c1, latched, st, prevBusy);
    var (c3, a3) := Reinit(c2, latched, st);
    NoStarts(a1);
    NoStarts(a2);
    NoStarts(a3);
    CountStartsAdds(a1 + a2, a3);
    CountStartsAdds(a1, a2);
    hide CountStarts;
  }

  lemma {:induction false} LatchNeverStarts(latched: bool, ev: EstopFilter.Event, st: Status)
    ensures CountStarts(Latch(latched, ev, st).1) == 0
  {
    NoStarts(Latch(latched, ev, st).1);
  }

  /** Over any run: starts of the loop, and one more while a start is pending, never outnumber
      the presses of RUN. */
  lemma {:induction false} StartsNeedPresses(polls: seq<Poll>)
    ensures CountStarts(AllActions(polls)) + (if PanelAfter(polls).chain.autoStart then 1 else 0) <= Presses(polls)
  {
    hide Chained, Latch, Edge, EstopFilter.Step, EstopFilter.PanelCounts, CountStarts;
    if polls == [] {
      NoStarts([]);
    } else {
      var n := |polls| - 1;
      StartsNeedPresses(polls[..n]);
      var p, poll := PanelAfter(polls[..n]), polls[n];
      var (latched, a0) := Latch(p.latched, EventOf(p, poll), poll.st);
      var (chain, a1) := Chained(p.chain, latched, Pressed(p, poll), poll.st, p.prevBusy);
      ChainedStarts(p.chain, latched, Pressed(p, poll), poll.st, p.prevBusy);
      LatchNeverStarts(p.latched, EventOf(p, poll), poll.st);
      CountStartsAdds(a0, a1);
      CountStartsAdds(AllActions(polls[..n]), a0 + a1);
    }
  }

  predicate StartAt(polls: seq<Poll>, k: nat)
    requires k < |polls|
  {
    Start in Actions(polls[..k + 1])
  }

  predicate PendingAt(polls: seq<Poll>, k: nat)
    requires k < |polls|
  {
    Before(polls, k + 1).chain.autoStart
  }

  /** The press of poll `j` stands: from it to poll `k` nothing has engaged the e-stop. */
  predicate Stands(polls: seq<Poll>, j: nat, k: nat)
    requires j <= k < |polls|
  {
    PressAt(polls, j) && forall m :: j <= m <= k ==> !EngagedAt(polls, m)
  }

  /** One poll's part in the argument: a start, or a pending one, comes from a press now or from
      one pending before, and neither from a poll that engages the e-stop. */
  lemma {:induction false} PollStarts(p: Panel, poll: Poll)
    requires p.latched == p.filter.engaged
    ensures var (q, acts) := PollStep(p, poll);
      (Start in acts || q.chain.autoStart) ==> !EventOf(p, poll).Engaged? && (Pressed(p, poll) || p.chain.autoStart)
  {
    hide Edge, EstopFilter.PanelCounts;
  }

  /** The same for poll `k` of a run. */
  lemma {:induction false} PollOfRunStarts(polls: seq<Poll>, k: nat)
    requires k < |polls| && (StartAt(polls, k) || PendingAt(polls, k))
    ensures !EngagedAt(polls, k) && (PressAt(polls, k) || (k > 0 && PendingAt(polls, k - 1)))
  {
    LatchIsTheFilter(polls[..k]);
    PollAt(polls, k);
    hide PollStep, EventOf, Pressed;
    PollStarts(Before(polls, k), polls[k]);
    if k == 0 {
      assert polls[..k] == [];
    }
  }

  /** Whenever the panel starts the loop, or has a start pending, RUN was pressed then or
      before, and the e-stop has not engaged from that press on. */
  lemma {:induction false} StartHasAPress(polls: seq<Poll>, k: nat)
    requires k < |polls| && (StartAt(polls, k) || PendingAt(polls, k))
    ensures exists j :: 0 <= j <= k && Stands(polls, j, k)
  {
    hide PressAt, EngagedAt, StartAt, PendingAt, PanelAfter, Actions;
    PollOfRunStarts(polls, k);
    if PressAt(polls, k) {
      assert Stands(polls, k, k);
    } else {
      StartHasAPress(polls, k - 1);
      var j :| 0 <= j <= k - 1 && Stands(polls, j, k - 1);
      assert Stands(polls, j, k);
    }
  }

  // ----- what the actions are given -----

  /** On every run: the drives are de-initialised only when the snapshot shows them operational,
      the loop stopped and nothing in progress; initialised only when it shows them neither
      operational nor busy; and the loop is started only when they are operational, the loop is
      stopped, and no e-stop is active or latched. */
  lemma {:induction false} ActionsFitTheSnapshot(polls: seq<Poll>)
    requires polls != []
    ensures var st := polls[|polls| - 1].st;
      && (Deinit in Actions(polls) ==> st.masterOp && !st.loopRunning && !st.initBusy)
      && (Init in Actions(polls) ==> !st.masterOp && !st.initBusy)
      && (Start in Actions(polls) ==> st.masterOp && !st.loopRunning && !st.estop && !PanelAfter(polls).latched)
      && (Stop in Actions(polls) ==> st.loopRunning)
  {
    var p, poll := PanelAfter(polls[..|polls| - 1]), polls[|polls| - 1];
    PollFits(p, poll);
    hide PollStep;
  }

  lemma {:induction false} PollFits(p: Panel, poll: Poll)
    ensures var (q, acts) := PollStep(p, poll); var st := poll.st;
      && (Deinit in acts ==> st.masterOp && !st.loopRunning && !st.initBusy)
      && (Init in acts ==> !st.masterOp && !st.initBusy)
      && (Start in acts ==> st.masterOp && !st.loopRunning && !st.estop && !q.latched)
      && (Stop in acts ==> st.loopRunning)
  {
    var (latched, a0) := Latch(p.latched, EventOf(p, poll), poll.st);
    ChainedFits(p.chain, latched, Pressed(p, poll), poll.st, p.prevBusy);
    hide Edge, EstopFilter.Step, EstopFilter.PanelCounts, Chained;
  }

  lemma {:induction false} ChainedFits(c: Chain, latched: bool, press: bool, st: Status, prevBusy: bool)
    ensures var acts := Chained(c, latched, press, st, prevBusy).1;
      && (Deinit in acts ==> st.masterOp && !st.loopRunning && !st.initBusy)
      && (Init in acts ==> !st.masterOp && !st.initBusy)
      && (Start in acts ==> st.masterOp && !st.loopRunning && !st.estop && !latched)
      && (Stop in acts ==> st.loopRunning)
  {}

  // ----- the re-initialize chain ends -----

  /** Polls the chain may still take without a press. */
  function Left(c: Chain): int {
    if c.stage == 0 then 0 else (3 - c.stage) * (REINIT_TICKS + 1) + (REINIT_TICKS + 1 - c.ticks)
  }

  predicate Bounded(c: Chain) { c.stage <= 3 && (c.stage != 0 ==> c.ticks <= REINIT_TICKS) }

  lemma {:induction false} ChainedFalls(c: Chain, latched: bool, press: bool, st: Status, prevBusy: bool)
    requires Bounded(c)
    ensures var d := Chained(c, latched, press, st, prevBusy).0;
      Bounded(d) && Left(d) >= 0 && (!press ==> if Left(c) > 0 then Left(d) < Left(c) else Left(d) == 0)
  {}

  lemma {:induction false} StaysBounded(polls: seq<Poll>)
    ensures Bounded(PanelAfter(polls).chain)
  {
    if polls != [] {
      var p, poll := PanelAfter(polls[..|polls| - 1]), polls[|polls| - 1];
      StaysBounded(polls[..|polls| - 1]);
      ChainedFalls(p.chain, Latch(p.latched, EventOf(p, poll), poll.st).0, Pressed(p, poll), poll.st, p.prevBusy);
      hide Chained, Latch, Edge, EstopFilter.Step, EstopFilter.PanelCounts;
    }
  }

  /** One poll of a run without a press. */
  lemma {:induction false} PollFalls(polls: seq<Poll>, k: nat)
    requires k < |polls| && !PressAt(polls, k)
    ensures var l, l' := Left(Before(polls, k).chain), Left(Before(polls, k + 1).chain); l' == 0 || 0 < l' < l
  {
    StaysBounded(polls[..k]);
    PollAt(polls, k);
    var p, poll := Before(polls, k), polls[k];
    hide PanelAfter;
    ChainedFalls(p.chain, Latch(p.latched, EventOf(p, poll), poll.st).0, Pressed(p, poll), poll.st, p.prevBusy);
    hide Chained, Latch, Edge, EstopFilter.Step, EstopFilter.PanelCounts, Left;
  }

  lemma {:induction false} LeftFalls(polls: seq<Poll>, from: nat, k: nat)
    requires from <= k <= |polls| && forall m :: from <= m < k ==> !PressAt(polls, m)
    ensures Left(Before(polls, k).chain) == 0 || Left(Before(polls, k).chain) <= Left(Before(polls, from).chain) - (k - from)
    decreases k
  {
    hide PanelAfter, Left, PressAt;
    if from < k {
      LeftFalls(polls, from, k - 1);
      PollFalls(polls, k - 1);
    }
  }

  /** Whatever the snapshots say, the chain is idle within 3 * 6001 polls without a press. */
  lemma {:induction false} ReinitEnds(polls: seq<Poll>, from: nat, k: nat)
    requires from <= k <= |polls| && k - from >= 3 * 6001 && forall m :: from <= m < k ==> !PressAt(polls, m)
    ensures Before(polls, k).chain.stage == 0
  {
    hide PanelAfter, PressAt, Left, Bounded;
    LeftFalls(polls, from, k);
    StaysBounded(polls[..from]);
    StaysBounded(polls[..k]);
    IdleByThen(Before(polls, from).chain, Before(polls, k).chain, k - from);
  }

  lemma IdleByThen(c: Chain, d: Chain, n: int)
    requires Bounded(c) && Bounded(d) && (Left(d) == 0 || Left(d) <= Left(c) - n) && n >= 3 * 6001
    ensures d.stage == 0
  {}

  // ----- two starts in one poll -----

  /** A poll starts the loop at most twice, and twice exactly when a press lands on the very poll
      at which a pending cold start becomes possible: operational, stopped and not busy, with no
      fault and no e-stop from anywhere. One start is the press's, the other the chain's. */
  lemma {:induction false} TwoStartsExactly(p: Panel, poll: Poll)
    ensures var starts := CountStarts(PollStep(p, poll).1); var st := poll.st;
      && starts <= 2
      && (starts == 2 <==>
           Pressed(p, poll) && p.chain.autoStart && st.masterOp && !st.loopRunning && !st.initBusy
           && !st.fault && !st.estop && !st.estopInput && !PollStep(p, poll).0.latched)
  {
    var (latched, a0) := Latch(p.latched, EventOf(p, poll), poll.st);
    var press := Pressed(p, poll);
    LatchNeverStarts(p.latched, EventOf(p, poll), poll.st);
    ChainedTwice(p.chain, latched, press, poll.st, p.prevBusy);
    CountStartsAdds(a0, Chained(p.chain, latched, press, poll.st, p.prevBusy).1);
    hide Chained, Latch, Edge, EstopFilter.Step, EstopFilter.PanelCounts, CountStarts;
  }

  lemma {:induction false} ChainedTwice(c: Chain, latched: bool, press: bool, st: Status, prevBusy: bool)
    ensures var starts := CountStarts(Chained(c, latched, press, st, prevBusy).1);
      && starts <= 2
      && (starts == 2 <==>
           press && c.autoStart && st.masterOp && !st.loopRunning && !st.initBusy
           && !st.fault && !st.estop && !st.estopInput && !latched)
  {
    var (c1, a1) := if press then Press(c, latched, st) else (c, []);
    var (c2, a2) := AutoStart(c1, latched, st, prevBusy);
    var (c3, a3) := Reinit(c2, latched, st);
    NoStarts(a1);
    NoStarts(a2);
    NoStarts(a3);
    CountStartsAdds(a1 + a2, a3);
    CountStartsAdds(a1, a2);
    hide CountStarts;
  }

  lemma {:induction false} OneMore(polls: seq<Poll>, poll: Poll)
    ensures PanelAfter(polls + [poll]) == PollStep(PanelAfter(polls), poll).0
    ensures Actions(polls + [poll]) == PollStep(PanelAfter(polls), poll).1
  {
    assert (polls + [poll])[..|polls|] == polls;
  }

  /** Three polls of one level settle the button on it. */
  lemma {:induction false} Settle(polls: seq<Poll>, poll: Poll, c1: Chain, c2: Chain, c3: Chain)
    requires var p := PanelAfter(polls);
      p.filter == EstopFilter.FRESH && !p.latched && p.button == Debounce(!poll.runDown, 0) && !poll.open && p.prevBusy == poll.st.initBusy
      && c1 == Chained(p.chain, false, false, poll.st, p.prevBusy).0 && c2 == Chained(c1, false, false, poll.st, p.prevBusy).0
      && c3 == Chained(c2, false, poll.runDown, poll.st, p.prevBusy).0
    ensures PanelAfter(polls + [poll] + [poll] + [poll])
         == Panel(EstopFilter.FRESH, false, Debounce(poll.runDown, 0), c3, poll.st.initBusy)
  {
    OneMore(polls, poll);
    OneMore(polls + [poll], poll);
    OneMore(polls + [poll] + [poll], poll);
    hide PanelAfter, Chained, EstopFilter.PanelCounts;
  }

  /** And such a poll is reached: a press offline, a release, and a second press whose third
      read falls together with the end of the initialisation. */
  lemma {:induction false} TwoStartsReached() returns (polls: seq<Poll>)
    ensures polls != [] && CountStarts(Actions(polls)) == 2
  {
    var offline := Status(false, false, false, false, false, false);
    var busy := offline.(initBusy := true);
    var op := offline.(masterOp := true);
    var down := Poll(false, true, offline);
    var none, pending := Chain(false, 0, 0, false), Chain(true, 0, 0, false);
    Settle([], down, none, none, pending);
    var p3 := [] + [down] + [down] + [down];
    var up := Poll(false, false, busy);
    OneMore(p3, up);
    OneMore(p3 + [up], up);
    OneMore(p3 + [up] + [up], up);
    var p6 := p3 + [up] + [up] + [up];
    hide PanelAfter, EstopFilter.PanelCounts;
    assert PanelAfter(p6) == Panel(EstopFilter.FRESH, false, Debounce(false, 0), pending, true);
    var again := Poll(false, true, busy);
    OneMore(p6, again);
    OneMore(p6 + [again], again);
    var p8 := p6 + [again] + [again];
    assert PanelAfter(p8) == Panel(EstopFilter.FRESH, false, Debounce(false, 2), pending, true);
    var last := Poll(false, true, op);
    OneMore(p8, last);
    TwoStartsExactly(PanelAfter(p8), last);
    polls := p8 + [last];
  }
}
