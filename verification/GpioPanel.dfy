/** The panel's poll loop: debounce, e-stop latch, the RUN button with its cold-start chain and
    its re-initialize chain. The raw inputs and the status snapshots are adversarial. */
module GpioPanel {
  import opened EstopFilter

  const POLL_MS: nat := 10
  const DEBOUNCE_CYCLES: nat := 3
  const REINIT_TICKS: nat := 60 * 1000 / POLL_MS

  /** The part of the status snapshot the RUN button and the chains read. */
  datatype Status = Status(masterOp: bool, loopRunning: bool, estop: bool, estopInput: bool, fault: bool, initBusy: bool)

  datatype Poll = Poll(open: bool, runDown: bool, st: Status)

  datatype Action = AssertEstop | ReleaseEstop | Init | Start | Stop | Deinit

  datatype Debounce = Debounce(stable: bool, count: nat)

  /** The two chains a RUN press can start. `stage`: 0 none, 1 waiting for the loop to stop, 2 for
      the de-initialisation, 3 for the initialisation; `ticks`: polls since the last step. */
  datatype Chain = Chain(autoStart: bool, stage: nat, ticks: nat, sawBusy: bool)

  datatype Panel = Panel(filter: Filter, latched: bool, button: Debounce, chain: Chain, prevBusy: bool)

  const IDLE: Panel := Panel(FRESH, false, Debounce(false, 0), Chain(false, 0, 0, false), false)

  /** The debounced button and its press: a level is taken over on the third read in a row that
      differs from it, and only the change to down is a press. */
  function Edge(d: Debounce, raw: bool): (Debounce, bool) {
    if raw == d.stable then (d.(count := 0), false)
    else if d.count + 1 >= DEBOUNCE_CYCLES then (Debounce(raw, 0), raw)
    else (d.(count := d.count + 1), false)
  }

  /** The e-stop part of a poll. */
  function Latch(latched: bool, ev: Event, st: Status): (bool, seq<Action>) {
    match ev
    case Engaged => (true, [AssertEstop])
    case Released => (false, [ReleaseEstop])
    case Blip => (latched, [])
    case Nothing => (latched, if latched && !st.estopInput then [AssertEstop] else [])
  }

  /** A RUN press. */
  function Press(c: Chain, latched: bool, st: Status): (Chain, seq<Action>) {
    if latched || st.estopInput then (c, [])
    else if st.estop then
      var d := Chain(false, c.stage, 0, false);
      if st.initBusy then (d, [])
      else if st.loopRunning then (d.(stage := 1), [Stop])
      else if st.masterOp then (d.(stage := 2), [Deinit])
      else (d.(stage := 3), [Init])
    else if st.loopRunning then (c.(autoStart := false), [Stop])
    else if !st.masterOp && !st.initBusy then (c.(autoStart := true), [Init])
    else if st.masterOp then (c, [Start])
    else (c, [])
  }

  /** The cold-press chain. */
  function AutoStart(c: Chain, latched: bool, st: Status, prevBusy: bool): (Chain, seq<Action>) {
    if !c.autoStart then (c, [])
    else if latched || st.fault || st.estop then (c.(autoStart := false), [])
    else if st.masterOp && !st.loopRunning && !st.initBusy then (c.(autoStart := false), [Start])
    else if !st.masterOp && !st.initBusy && prevBusy then (c.(autoStart := false), [])
    else (c, [])
  }

  /** The re-initialize chain. */
  function Reinit(c: Chain, latched: bool, st: Status): (Chain, seq<Action>) {
    if c.stage == 0 then (c, [])
    else
      var d := c.(ticks := c.ticks + 1, sawBusy := c.sawBusy || (c.stage == 3 && st.initBusy));
      if latched || d.ticks > REINIT_TICKS then (d.(stage := 0), [])
      else if d.stage == 1 && !st.loopRunning && !st.initBusy then
        (d.(stage := if st.masterOp then 2 else 3, ticks := 0, sawBusy := false), [if st.masterOp then Deinit else Init])
      else if d.stage == 2 && !st.masterOp && !st.initBusy then
        (d.(stage := 3, ticks := 0, sawBusy := false), [Init])
      else if d.stage == 3 && !st.initBusy && (d.sawBusy || st.masterOp) then (d.(stage := 0), [])
      else (d, [])
  }

  /** What a poll does with the chains. */
  function Chained(c: Chain, latched: bool, press: bool, st: Status, prevBusy: bool): (Chain, seq<Action>) {
    var (c1, a1) := if press then Press(c, latched, st) else (c, []);
    var (c2, a2) := AutoStart(c1, latched, st, prevBusy);
    var (c3, a3) := Reinit(c2, latched, st);
    (c3, a1 + a2 + a3)
  }

  /** The event and the press of a poll. */
  function EventOf(p: Panel, poll: Poll): Event { Step(p.filter, poll.open, PanelCounts(POLL_MS)).1 }

  predicate Pressed(p: Panel, poll: Poll) { Edge(p.button, poll.runDown).1 }

  /** One poll. */
  function PollStep(p: Panel, poll: Poll): (Panel, seq<Action>) {
    var (latched, a0) := Latch(p.latched, EventOf(p, poll), poll.st);
    var (chain, a1) := Chained(p.chain, latched, Pressed(p, poll), poll.st, p.prevBusy);
    (Panel(Step(p.filter, poll.open, PanelCounts(POLL_MS)).0, latched, Edge(p.button, poll.runDown).0, chain, poll.st.initBusy),
     a0 + a1)
  }

  function PanelAfter(polls: seq<Poll>): Panel {
    if polls == [] then IDLE else PollStep(PanelAfter(polls[..|polls| - 1]), polls[|polls| - 1]).0
  }

  /** What the last poll did. */
  function Actions(polls: seq<Poll>): seq<Action>
    requires polls != []
  {
    PollStep(PanelAfter(polls[..|polls| - 1]), polls[|polls| - 1]).1
  }

  /** What all of them did, in order. */
  function AllActions(polls: seq<Poll>): seq<Action> {
    if polls == [] then [] else AllActions(polls[..|polls| - 1]) + Actions(polls)
  }

  class GpioPanel {
    const filter: EstopFilter
    var estopLatched: bool
    var button: Debounce
    var chain: Chain
    var prevInitBusy: bool
    /** The callbacks made, in order. */
    var calls: seq<Action>

    ghost function Value(): Panel
      reads this, filter
    {
      Panel(filter.Value(), estopLatched, button, chain, prevInitBusy)
    }

    constructor ()
      ensures fresh(filter) && filter.counts == PanelCounts(POLL_MS) && Value() == IDLE && calls == []
    {
      var ms := POLL_MS;
      filter := new EstopFilter(2, (500.0 / ms as real + 0.5).Floor);
      estopLatched, button, chain, prevInitBusy, calls := false, Debounce(false, 0), Chain(false, 0, 0, false), false, [];
    }

    method DebounceButton(raw: bool) returns (press: bool)
      modifies this`button
      ensures (button, press) == Edge(old(button), raw)
    {
      if raw == button.stable {
        button := button.(count := 0);
        return false;
      }
      button := button.(count := button.count + 1);
      if button.count >= DEBOUNCE_CYCLES {
        button := Debounce(raw, 0);
        return raw;
      }
      return false;
    }

    method PressRun(st: Status)
      modifies this`chain, this`calls
      ensures chain == Press(old(chain), estopLatched, st).0 && calls == old(calls) + Press(old(chain), estopLatched, st).1
    {
      if estopLatched {
      } else if st.estopInput {
      } else if st.estop {
        chain := chain.(autoStart := false);
        chain := chain.(ticks := 0);
        chain := chain.(sawBusy := false);
        if st.initBusy {
        } else if st.loopRunning {
          calls := calls + [Stop];
          chain := chain.(stage := 1);
        } else if st.masterOp {
          calls := calls + [Deinit];
          chain := chain.(stage := 2);
        } else {
          calls := calls + [Init];
          chain := chain.(stage := 3);
        }
      } else if st.loopRunning {
        calls := calls + [Stop];
        chain := chain.(autoStart := false);
      } else if !st.masterOp && !st.initBusy {
        calls := calls + [Init];
        chain := chain.(autoStart := true);
      } else if st.masterOp && !st.loopRunning {
        calls := calls + [Start];
      }
    }

    method StepAutoStart(st: Status)
      modifies this`chain, this`calls
      ensures chain == AutoStart(old(chain), estopLatched, st, prevInitBusy).0
      ensures calls == old(calls) + AutoStart(old(chain), estopLatched, st, prevInitBusy).1
    {
      if chain.autoStart {
        if estopLatched || st.fault || st.estop {
          chain := chain.(autoStart := false);
        } else if st.masterOp && !st.loopRunning && !st.initBusy {
          chain := chain.(autoStart := false);
          calls := calls + [Start];
        } else if !st.masterOp && !st.initBusy && prevInitBusy {
          chain := chain.(autoStart := false);
        }
      }
    }

    method StepReinit(st: Status)
      modifies this`chain, this`calls
      ensures chain == Reinit(old(chain), estopLatched, st).0 && calls == old(calls) + Reinit(old(chain), estopLatched, st).1
    {
      if chain.stage != 0 {
        chain := chain.(ticks := chain.ticks + 1);
        if chain.stage == 3 && st.initBusy { chain := chain.(sawBusy := true); }
        if estopLatched {
          chain := chain.(stage := 0);
        } else if chain.ticks > 60 * 1000 / POLL_MS {
          chain := chain.(stage := 0);
        } else if chain.stage == 1 && !st.loopRunning && !st.initBusy {
          if st.masterOp {
            calls := calls + [Deinit];
            chain := chain.(stage := 2);
          } else {
            calls := calls + [Init];
            chain := chain.(stage := 3);
          }
          chain := chain.(ticks := 0);
          chain := chain.(sawBusy := false);
        } else if chain.stage == 2 && !st.masterOp && !st.initBusy {
          calls := calls + [Init];
          chain := chain.(stage := 3);
          chain := chain.(ticks := 0);
          chain := chain.(sawBusy := false);
        } else if chain.stage == 3 && !st.initBusy && (chain.sawBusy || st.masterOp) {
          chain := chain.(stage := 0);
        }
      }
    }

    method StepEstop(open: bool, st: Status)
      requires filter.counts == PanelCounts(POLL_MS)
      modifies this`estopLatched, this`calls, filter
      ensures var (f, ev) := Step(old(filter.Value()), open, PanelCounts(POLL_MS)); var (latched, acts) := Latch(old(estopLatched), ev, st);
        filter.Value() == f && estopLatched == latched && calls == old(calls) + acts
    {
      hide PanelCounts, Step;
      var ev := filter.Poll(open);
      match ev {
        case Engaged =>
          estopLatched := true;
          calls := calls + [AssertEstop];
        case Released =>
          estopLatched := false;
          calls := calls + [ReleaseEstop];
        case Blip =>
        case Nothing =>
          if estopLatched && !st.estopInput { calls := calls + [AssertEstop]; }
      }
    }

    method StepChains(press: bool, st: Status)
      modifies this`chain, this`calls
      ensures var (c, acts) := Chained(old(chain), estopLatched, press, st, prevInitBusy);
        chain == c && calls == old(calls) + acts
    {
      hide Press, AutoStart, Reinit;
      if press { PressRun(st); }
      StepAutoStart(st);
      StepReinit(st);
    }

    method PollOnce(poll: Poll)
      requires filter.counts == PanelCounts(POLL_MS)
      modifies this, filter
      ensures Value() == PollStep(old(Value()), poll).0 && calls == old(calls) + PollStep(old(Value()), poll).1
    {
      hide Chained, Latch, Edge, PanelCounts, Step;
      StepEstop(poll.open, poll.st);
      var press := DebounceButton(poll.runDown);
      StepChains(press, poll.st);
      prevInitBusy := poll.st.initBusy;
    }

    /** The poll loop, until the panel is stopped after `polls`. */
    method Run(polls: seq<Poll>)
      requires filter.counts == PanelCounts(POLL_MS) && Value() == IDLE && calls == []
      modifies this, filter
      ensures Value() == PanelAfter(polls) && calls == AllActions(polls)
    {
      var n := 0;
      while n < |polls|
        invariant 0 <= n <= |polls|
        invariant Value() == PanelAfter(polls[..n]) && calls == AllActions(polls[..n])
      {
        assert polls[..n + 1][..n] == polls[..n];
        PollOnce(polls[n]);
        n := n + 1;
      }
      assert polls[..n] == polls;
    }
  }
}
