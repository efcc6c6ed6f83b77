/** The level filter of the panel's e-stop input. */
module EstopFilter {

  datatype Event = Nothing | Engaged | Released | Blip

  /** `run`: consecutive reads that disagree with `engaged`. */
  datatype Filter = Filter(engaged: bool, run: nat, lastBlip: nat)

  datatype Counts = Counts(engageN: nat, releaseN: nat)

  const FRESH: Filter := Filter(false, 0, 0)

  function AtLeastOne(n: int): (r: nat)
    ensures r >= 1
  {
    if n < 1 then 1 else n
  }

  /** The counts the constructor keeps. */
  function MakeCounts(engage: int, release: int): Counts { Counts(AtLeastOne(engage), AtLeastOne(release)) }

  predicate Sane(c: Counts) { c.engageN >= 1 && c.releaseN >= 1 }

  /** The panel's counts at its poll period: two open reads, half a second of closed ones. */
  function PanelCounts(pollMs: int): Counts {
    var ms := if pollMs > 0 then pollMs else 1;
    MakeCounts(2, (500.0 / ms as real + 0.5).Floor)
  }

  function Needed(c: Counts, engaged: bool): nat { if engaged then c.releaseN else c.engageN }

  function Step(f: Filter, open: bool, c: Counts): (Filter, Event) {
    if open == f.engaged then
      if !f.engaged && f.run > 0 then (Filter(f.engaged, 0, f.run), Blip) else (f.(run := 0), Nothing)
    else if f.run + 1 >= Needed(c, f.engaged) then
      (Filter(open, 0, f.lastBlip), if open then Engaged else Released)
    else (f.(run := f.run + 1), Nothing)
  }

  class EstopFilter {
    const counts: Counts
    var engaged: bool
    var run: nat
    var lastBlip: nat

    ghost function Value(): Filter
      reads this
    {
      Filter(engaged, run, lastBlip)
    }

    constructor (engageSamples: int, releaseSamples: int)
      ensures counts == MakeCounts(engageSamples, releaseSamples) && Value() == FRESH
    {
      counts := MakeCounts(engageSamples, releaseSamples);
      engaged, run, lastBlip := false, 0, 0;
    }

    method Poll(open: bool) returns (ev: Event)
      modifies this
      ensures (Value(), ev) == Step(old(Value()), open, counts)
    {
      if open == engaged {
        var blip := !engaged && run > 0;
        if blip { lastBlip := run; }
        run := 0;
        return if blip then Blip else Nothing;
      }
      run := run + 1;
      if run >= (if engaged then counts.releaseN else counts.engageN) {
        engaged := open;
        run := 0;
        return if engaged then Engaged else Released;
      }
      return Nothing;
    }
  }

  // ----- any sequence of reads -----

  function After(levels: seq<bool>, c: Counts): Filter {
    if levels == [] then FRESH else Step(After(levels[..|levels| - 1], c), levels[|levels| - 1], c).0
  }

  /** The event of the last read. */
  function LastEvent(levels: seq<bool>, c: Counts): Event
    requires levels != []
  {
    Step(After(levels[..|levels| - 1], c), levels[|levels| - 1], c).1
  }

  /** How many reads at the end are `level`. */
  function Trailing(levels: seq<bool>, level: bool): (n: nat)
    ensures n <= |levels| && forall k :: |levels| - n <= k < |levels| ==> levels[k] == level
    ensures n < |levels| ==> levels[|levels| - n - 1] != level
  {
    if levels == [] || levels[|levels| - 1] != level then 0 else Trailing(levels[..|levels| - 1], level) + 1
  }

  /** The run counter is the number of reads at the end that disagree with the level. */
  lemma {:induction false} RunIsTrailing(levels: seq<bool>, c: Counts)
    requires Sane(c)
    ensures var f := After(levels, c); f.run == Trailing(levels, !f.engaged) < Needed(c, f.engaged)
  {
    if levels != [] {
      RunIsTrailing(levels[..|levels| - 1], c);
    }
  }

  /** The filter engages exactly on the read that completes `engageN` open ones in a row while
      released, and releases exactly on the one that completes `releaseN` closed ones while
      engaged. */
  lemma EventsAreExact(levels: seq<bool>, c: Counts)
    requires Sane(c) && levels != []
    ensures var before := After(levels[..|levels| - 1], c);
      && (LastEvent(levels, c) == Engaged <==> !before.engaged && Trailing(levels, true) >= c.engageN)
      && (LastEvent(levels, c) == Released <==> before.engaged && Trailing(levels, false) >= c.releaseN)
      && (LastEvent(levels, c) == Engaged ==> Trailing(levels, true) == c.engageN)
      && (LastEvent(levels, c) == Released ==> Trailing(levels, false) == c.releaseN)
  {
    RunIsTrailing(levels[..|levels| - 1], c);
    RunIsTrailing(levels, c);
  }

  /** Engagements minus releases. */
  function Balance(levels: seq<bool>, c: Counts): int {
    if levels == [] then 0
    else
      Balance(levels[..|levels| - 1], c)
      + (match LastEvent(levels, c) case Engaged => 1 case Released => -1 case _ => 0)
  }

  /** They alternate, an engagement first. */
  lemma {:induction false} EventsAlternate(levels: seq<bool>, c: Counts)
    ensures Balance(levels, c) == if After(levels, c).engaged then 1 else 0
  {
    if levels != [] {
      EventsAlternate(levels[..|levels| - 1], c);
    }
  }

  /** A blip is an open run that ended before it engaged, reported once with its length. */
  lemma BlipIsAShortRun(levels: seq<bool>, c: Counts)
    requires Sane(c) && levels != []
    ensures LastEvent(levels, c) == Blip <==>
      !After(levels, c).engaged && !After(levels[..|levels| - 1], c).engaged && !levels[|levels| - 1]
      && Trailing(levels[..|levels| - 1], true) > 0
    ensures LastEvent(levels, c) == Blip ==>
      After(levels, c).lastBlip == Trailing(levels[..|levels| - 1], true) < c.engageN
  {
    RunIsTrailing(levels[..|levels| - 1], c);
  }

  /** A filter asked for fewer reads than one takes one; a poll period that is not positive counts
      as a millisecond. */
  lemma CountsAreAtLeastOne(engage: int, release: int, pollMs: int)
    ensures MakeCounts(engage, release).engageN == (if engage <= 0 then 1 else engage)
    ensures MakeCounts(engage, release).releaseN == (if release <= 0 then 1 else release)
    ensures pollMs <= 0 ==> PanelCounts(pollMs) == PanelCounts(1)
  {}

  /** At any poll period up to a second, the release takes half a second to within half a poll. */
  lemma ReleaseTime(pollMs: int, total: int)
    requires 0 < pollMs <= 1000 && total == PanelCounts(pollMs).releaseN * pollMs
    ensures 1000 - pollMs <= 2 * total <= 1000 + pollMs && PanelCounts(pollMs).engageN == 2
  {
    var q := 500.0 / pollMs as real;
    assert q * pollMs as real == 500.0;
    var n := (q + 0.5).Floor;
    var m := pollMs as real;
    assert q >= 0.5;
    assert n >= 1 && total == n * pollMs;
    assert q - 0.5 <= n as real <= q + 0.5;
    assert (n as real - q + 0.5) * m >= 0.0;
    assert (q + 0.5 - n as real) * m >= 0.0;
    assert n as real * m == total as real;
  }
}
