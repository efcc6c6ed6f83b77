/** The remembered cars of the gear-ratio learner: a most-recently-driven list of ratio sets. */
module CarCache {
  import opened RealArithmetic

  /** Gears 1 to 8; index 0 is unused. */
  const MAX_GEARS: nat := 9
  const MAX_CACHED_CARS: nat := 64
  const ADOPT_MIN_GEARS: nat := 2
  const MATCH_TOL: real := 0.06
  const RETRY_CALLS: nat := 40

  /** A ratio set: a remembered car, or what a session is confident of. */
  datatype Car = Car(r: seq<real>, has: seq<bool>)

  predicate Shaped(c: Car) { |c.r| == MAX_GEARS && |c.has| == MAX_GEARS }

  type Ratios = c: Car | Shaped(c) witness Car(seq(MAX_GEARS, _ => 0.0), seq(MAX_GEARS, _ => false))

  function NoGears(): Ratios { Car(seq(MAX_GEARS, _ => 0.0), seq(MAX_GEARS, _ => false)) }

  /** Every gear's ratio is below that of every lower gear, gaps allowed. */
  predicate Falls(c: Ratios) {
    forall g, h :: 1 <= g < h < MAX_GEARS && c.has[g] && c.has[h] ==> c.r[h] < c.r[g]
  }

  predicate Positive(c: Ratios) { forall g :: 1 <= g < MAX_GEARS && c.has[g] ==> c.r[g] > 0.0 }

  // ----- the order check -----

  /** The check from gear `g` on, with `last` the ratio of the gear before. */
  predicate InOrderFrom(c: Ratios, g: nat, last: real)
    requires 1 <= g <= MAX_GEARS
    decreases MAX_GEARS - g
  {
    g == MAX_GEARS
    || (if !c.has[g] then InOrderFrom(c, g + 1, last)
        else !(last > 0.0 && c.r[g] >= last) && InOrderFrom(c, g + 1, c.r[g]))
  }

  method InOrder(c: Ratios) returns (ok: bool)
    ensures ok <==> InOrderFrom(c, 1, 0.0)
  {
    var last := 0.0;
    var g := 1;
    while g < MAX_GEARS
      invariant 1 <= g <= MAX_GEARS
      invariant InOrderFrom(c, 1, 0.0) <==> InOrderFrom(c, g, last)
    {
      if c.has[g] {
        if last > 0.0 && c.r[g] >= last { return false; }
        last := c.r[g];
      }
      g := g + 1;
    }
    return true;
  }

  lemma {:induction false} InOrderFromMeans(c: Ratios, g: nat, last: real)
    requires 1 <= g <= MAX_GEARS && Positive(c)
    ensures InOrderFrom(c, g, last) <==>
      && (forall a, b :: g <= a < b < MAX_GEARS && c.has[a] && c.has[b] ==> c.r[b] < c.r[a])
      && (last > 0.0 ==> forall a :: g <= a < MAX_GEARS && c.has[a] ==> c.r[a] < last)
    decreases MAX_GEARS - g
  {
    if g < MAX_GEARS {
      InOrderFromMeans(c, g + 1, if c.has[g] then c.r[g] else last);
    }
  }

  /** For positive ratios the check, which only ever compares neighbours, decides whether all
      pairs fall. */
  lemma InOrderMeansFalls(c: Ratios)
    requires Positive(c)
    ensures InOrderFrom(c, 1, 0.0) <==> Falls(c)
  {
    InOrderFromMeans(c, 1, 0.0);
  }

  // ----- matching -----

  predicate Shared(car: Ratios, s: Ratios, g: nat)
    requires g < MAX_GEARS
  {
    s.has[g] && car.has[g]
  }

  predicate Near(car: Ratios, s: Ratios, g: nat)
    requires g < MAX_GEARS
  {
    Abs(s.r[g] - car.r[g]) <= MATCH_TOL * car.r[g]
  }

  function CountShared(car: Ratios, s: Ratios, n: nat): nat
    requires 1 <= n <= MAX_GEARS
  {
    if n == 1 then 0 else CountShared(car, s, n - 1) + (if Shared(car, s, n - 1) then 1 else 0)
  }

  function CountGears(s: Ratios, n: nat): nat
    requires 1 <= n <= MAX_GEARS
  {
    if n == 1 then 0 else CountGears(s, n - 1) + (if s.has[n - 1] then 1 else 0)
  }

  /** At least two gears shared, and every shared one within tolerance. */
  predicate Matches(car: Ratios, s: Ratios) {
    && (forall g :: 1 <= g < MAX_GEARS && Shared(car, s, g) ==> Near(car, s, g))
    && CountShared(car, s, MAX_GEARS) >= ADOPT_MIN_GEARS
  }

  /** The first car that matches, or the length of the list. */
  function FirstMatch(cars: seq<Ratios>, s: Ratios): (m: nat)
    ensures m <= |cars| && (m < |cars| ==> Matches(cars[m], s))
    ensures forall k :: 0 <= k < m ==> !Matches(cars[k], s)
    decreases |cars|
  {
    if cars == [] then 0 else if Matches(cars[0], s) then 0 else FirstMatch(cars[1..], s) + 1
  }

  lemma {:induction false} CountsTwo(car: Ratios, s: Ratios, n: nat)
    requires 1 <= n <= 9
    ensures CountShared(car, s, n) >= 1 <==> exists g :: 1 <= g < n && Shared(car, s, g)
    ensures CountShared(car, s, n) >= 2 <==> exists g, h :: 1 <= g < h < n && Shared(car, s, g) && Shared(car, s, h)
  {
    if n > 1 {
      CountsTwo(car, s, n - 1);
    }
  }

  /** A car matches a session exactly when they share two of the gears 1 to 8, and in every gear
      they share the session's ratio is within six hundredths of the car's. */
  lemma MatchesExactly(car: Ratios, s: Ratios)
    ensures Matches(car, s) <==>
      && (exists g, h :: 1 <= g < h <= 8 && Shared(car, s, g) && Shared(car, s, h))
      && forall g :: 1 <= g <= 8 && Shared(car, s, g) ==> Abs(s.r[g] - car.r[g]) <= 0.06 * car.r[g]
  {
    CountsTwo(car, s, 9);
    hide CountShared;
  }

  lemma {:induction false} KnowsTwo(s: Ratios, n: nat)
    requires 1 <= n <= 9
    ensures CountGears(s, n) >= 1 <==> exists g :: 1 <= g < n && s.has[g]
    ensures CountGears(s, n) >= 2 <==> exists g, h :: 1 <= g < h < n && s.has[g] && s.has[h]
  {
    if n > 1 {
      KnowsTwo(s, n - 1);
    }
  }

  // ----- merging -----

  /** A remembered gear agrees with every gear of the session. */
  predicate Agrees(car: Ratios, s: Ratios, g: nat)
    requires g < MAX_GEARS
  {
    forall h :: 1 <= h < MAX_GEARS && s.has[h] ==>
      (h < g ==> s.r[h] > car.r[g]) && (h > g ==> s.r[h] < car.r[g])
  }

  /** `m` is `car` with the session's gears taken over and the gears they contradict gone. */
  predicate IsUpdate(car: Ratios, s: Ratios, m: Ratios) {
    && m.r[0] == car.r[0] && m.has[0] == car.has[0]
    && forall g :: 1 <= g < MAX_GEARS ==>
      if s.has[g] then m.has[g] && m.r[g] == s.r[g]
      else if car.has[g] && !Agrees(car, s, g) then !m.has[g] && m.r[g] == 0.0
      else m.has[g] == car.has[g] && m.r[g] == car.r[g]
  }

  /** The list without its `k`-th car, if there is one. */
  function Without(cars: seq<Ratios>, k: nat): seq<Ratios> {
    if k < |cars| then cars[..k] + cars[k + 1..] else cars
  }

  function Take(cars: seq<Ratios>, n: nat): seq<Ratios> { if |cars| <= n then cars else cars[..n] }

  /** The car a session updates: the first that matches, or a new one. */
  function Updated(cars: seq<Ratios>, s: Ratios): Ratios {
    var k := FirstMatch(cars, s);
    if k < |cars| then cars[k] else NoGears()
  }

  predicate Usable(s: Ratios) { CountGears(s, MAX_GEARS) >= ADOPT_MIN_GEARS && InOrderFrom(s, 1, 0.0) }

  /** The list after a session: unchanged unless the session knows enough gears and they fall;
      else the updated car in front and the others, in their order, up to the size limit. */
  predicate IsMerge(cars: seq<Ratios>, s: Ratios, after: seq<Ratios>) {
    if !Usable(s) then after == cars
    else
      |after| > 0 && IsUpdate(Updated(cars, s), s, after[0])
      && after[1..] == Take(Without(cars, FirstMatch(cars, s)), MAX_CACHED_CARS - 1)
  }

  method CountConfident(s: Ratios) returns (n: nat)
    ensures n == CountGears(s, MAX_GEARS)
  {
    n := 0;
    var g := 1;
    while g < MAX_GEARS
      invariant 1 <= g <= MAX_GEARS && n == CountGears(s, g)
    {
      if s.has[g] { n := n + 1; }
      g := g + 1;
    }
  }

  method MatchesCar(car: Ratios, s: Ratios) returns (found: bool)
    ensures found <==> Matches(car, s)
  {
    var ok, shared := true, 0;
    var g := 1;
    while g < MAX_GEARS && ok
      invariant 1 <= g <= MAX_GEARS
      invariant ok ==> shared == CountShared(car, s, g) && forall h :: 1 <= h < g && Shared(car, s, h) ==> Near(car, s, h)
      invariant !ok ==> exists h :: 1 <= h < MAX_GEARS && Shared(car, s, h) && !Near(car, s, h)
    {
      if s.has[g] && car.has[g] {
        shared := shared + 1;
        if Abs(s.r[g] - car.r[g]) > MATCH_TOL * car.r[g] {
          assert Shared(car, s, g) && !Near(car, s, g);
          ok := false;
        }
      }
      g := g + 1;
    }
    found := ok && shared >= ADOPT_MIN_GEARS;
  }

  method FindMatch(cars: seq<Ratios>, s: Ratios) returns (k: nat)
    ensures k == FirstMatch(cars, s)
  {
    k := 0;
    while k < |cars|
      invariant 0 <= k <= |cars| && FirstMatch(cars, s) == k + FirstMatch(cars[k..], s)
    {
      var found := MatchesCar(cars[k], s);
      if found { return; }
      assert cars[k..][1..] == cars[k + 1..];
      k := k + 1;
    }
  }

  method UpdateCar(old': Ratios, s: Ratios) returns (car: Ratios)
    ensures IsUpdate(old', s, car)
  {
    car := old';
    var g := 1;
    while g < MAX_GEARS
      invariant 1 <= g <= MAX_GEARS
      invariant car.r[0] == old'.r[0] && car.has[0] == old'.has[0]
      invariant forall h :: 1 <= h < g && s.has[h] ==> car.has[h] && car.r[h] == s.r[h]
      invariant forall h :: 1 <= h < MAX_GEARS && (h >= g || !s.has[h]) ==> car.has[h] == old'.has[h] && car.r[h] == old'.r[h]
    {
      if s.has[g] {
        car := Car(car.r[g := s.r[g]], car.has[g := true]);
      }
      g := g + 1;
    }
    var taken := car;
    g := 1;
    while g < MAX_GEARS
      invariant 1 <= g <= MAX_GEARS
      invariant forall h :: g <= h < MAX_GEARS || h == 0 ==> car.has[h] == taken.has[h] && car.r[h] == taken.r[h]
      invariant forall h :: 1 <= h < g ==>
        if !s.has[h] && old'.has[h] && !Agrees(old', s, h) then !car.has[h] && car.r[h] == 0.0
        else car.has[h] == taken.has[h] && car.r[h] == taken.r[h]
    {
      if !s.has[g] && car.has[g] {
        var contradicted := Contradicted(old', s, g);
        if contradicted { car := Car(car.r[g := 0.0], car.has[g := false]); }
      }
      g := g + 1;
    }
  }

  method Contradicted(car: Ratios, s: Ratios, g: nat) returns (yes: bool)
    requires 1 <= g < MAX_GEARS
    ensures yes <==> !Agrees(car, s, g)
  {
    var h := 1;
    while h < MAX_GEARS
      invariant 1 <= h <= MAX_GEARS
      invariant forall j :: 1 <= j < h && s.has[j] ==> (j < g ==> s.r[j] > car.r[g]) && (j > g ==> s.r[j] < car.r[g])
    {
      if s.has[h] && ((h < g && !(s.r[h] > car.r[g])) || (h > g && !(s.r[h] < car.r[g]))) {
        return true;
      }
      h := h + 1;
    }
    return false;
  }

  // ----- the cache -----

  class CarCache {
    var cars: seq<Ratios>     // the one driven last comes first
    var finishedSeq: bv32     // the count at which a left car was last looked at
    var unsaved: bool         // the list and the file may differ
    var retryWait: nat        // unforced flushes still to pass over

    /** What the file holds. */
    ghost var onDisk: seq<Ratios>

    /** The list is bounded, its cars fall with every gear, and what is not flagged unsaved is
        on disk. */
    ghost predicate Valid()
      reads this
    {
      && |cars| <= MAX_CACHED_CARS && (forall k :: 0 <= k < |cars| ==> Positive(cars[k]) && Falls(cars[k]))
      && (!unsaved ==> onDisk == cars)
    }

    constructor (loaded: seq<Ratios>)
      requires |loaded| <= MAX_CACHED_CARS && forall k :: 0 <= k < |loaded| ==> Positive(loaded[k]) && Falls(loaded[k])
      ensures Valid() && cars == loaded && !unsaved && retryWait == 0 && finishedSeq == 0
    {
      cars, onDisk, finishedSeq, unsaved, retryWait := loaded, loaded, 0, false, 0;
    }

    method Merge(s: Ratios) returns (changed: bool)
      requires |cars| <= MAX_CACHED_CARS
      modifies this`cars
      ensures IsMerge(old(cars), s, cars) && |cars| <= MAX_CACHED_CARS
      ensures changed <==> Usable(s)
    {
      hide IsUpdate, InOrderFrom, CountGears;
      var n := CountConfident(s);
      if n < ADOPT_MIN_GEARS { return false; }
      var k := FindMatch(cars, s);
      var ordered := InOrder(s);
      if !ordered { return false; }
      var car := UpdateCar(if k < |cars| then cars[k] else NoGears(), s);
      if k < |cars| { cars := cars[..k] + cars[k + 1..]; }
      ghost var others := cars;
      cars := [car] + cars;
      while |cars| > MAX_CACHED_CARS
        invariant |cars| >= 1 && cars[0] == car && cars[1..] == others[..|cars| - 1] && |cars| - 1 <= |others|
        invariant |cars| - 1 == |others| || |cars| >= MAX_CACHED_CARS
      {
        assert cars[..|cars| - 1][1..] == others[..|cars| - 2];
        cars := cars[..|cars| - 1];
      }
      return true;
    }

    /** The car being driven, at shutdown. */
    method TakeSession(s: Ratios, dirty: bool) returns (changed: bool)
      requires Valid() && Positive(s)
      modifies this`cars, this`unsaved
      ensures Valid() && (changed <==> dirty && Usable(s)) && unsaved == (old(unsaved) || changed)
      ensures if changed then IsMerge(old(cars), s, cars) else cars == old(cars)
    {
      if !dirty { return false; }
      changed := Merge(s);
      if changed {
        MergeKeepsOrder(old(cars), s, cars);
        unsaved := true;
      }
    }

    /** A car the sim moved away from: merged once per step of its count. */
    method TakeFinished(count: bv32, s: Ratios, dirty: bool) returns (changed: bool)
      requires Valid() && Positive(s)
      modifies this`cars, this`unsaved, this`finishedSeq
      ensures Valid() && finishedSeq == count && unsaved == (old(unsaved) || changed)
      ensures changed <==> count != old(finishedSeq) && dirty && Usable(s)
      ensures if changed then IsMerge(old(cars), s, cars) else cars == old(cars)
    {
      if count == finishedSeq { return false; }
      finishedSeq := count;
      changed := TakeSession(s, dirty);
    }

    /** `lands`: whether the write succeeds. */
    method Flush(force: bool, lands: bool) returns (wrote: bool)
      requires Valid()
      modifies this`unsaved, this`retryWait, this`onDisk
      ensures Valid() && (unsaved, retryWait, wrote) == FlushStep(old(unsaved), old(retryWait), force, lands)
      ensures wrote ==> onDisk == cars
    {
      if !unsaved { return false; }
      if !force && retryWait > 0 {
        retryWait := retryWait - 1;
        return false;
      }
      if !lands {
        retryWait := RETRY_CALLS;
        return false;
      }
      onDisk := cars;
      unsaved := false;
      retryWait := 0;
      return true;
    }
  }

  // ----- what a merge keeps -----

  /** The updated car has every gear of the session as driven, and falls with every gear. */
  lemma UpdateFalls(car: Ratios, s: Ratios, m: Ratios)
    requires Positive(car) && Falls(car) && Positive(s) && Falls(s) && IsUpdate(car, s, m)
    ensures Positive(m) && Falls(m)
    ensures forall g :: 1 <= g < MAX_GEARS && s.has[g] ==> m.has[g] && m.r[g] == s.r[g]
    ensures forall g :: 1 <= g < MAX_GEARS && car.has[g] && !s.has[g] && Agrees(car, s, g) ==> m.has[g] && m.r[g] == car.r[g]
  {
    forall g, h | 1 <= g < h < MAX_GEARS && m.has[g] && m.has[h] ensures m.r[h] < m.r[g] {
      assert (s.has[g] || (car.has[g] && Agrees(car, s, g))) && (s.has[h] || (car.has[h] && Agrees(car, s, h)));
    }
  }

  /** A gear is dropped only because keeping it would break the order. */
  lemma DroppedGearsContradict(car: Ratios, s: Ratios, m: Ratios, g: nat)
    requires Positive(car) && Falls(car) && IsUpdate(car, s, m) && 1 <= g < MAX_GEARS && car.has[g] && !m.has[g]
    ensures !Falls(Car(m.r[g := car.r[g]], m.has[g := true])) && m.r[g] == 0.0
  {
    var kept: Ratios := Car(m.r[g := car.r[g]], m.has[g := true]);
    var h :| 1 <= h < MAX_GEARS && s.has[h] && !((h < g ==> s.r[h] > car.r[g]) && (h > g ==> s.r[h] < car.r[g]));
    assert kept.has[g] && kept.has[h] && kept.r[g] == car.r[g] && kept.r[h] == s.r[h];
  }

  /** A session is worth merging exactly when it knows two gears and its ratios fall. */
  lemma UsableExactly(s: Ratios)
    requires Positive(s)
    ensures Usable(s) <==> (exists g, h :: 1 <= g < h <= 8 && s.has[g] && s.has[h]) && Falls(s)
  {
    KnowsTwo(s, 9);
    InOrderMeansFalls(s);
    hide CountGears, InOrderFrom;
  }

  predicate AllOrdered(cars: seq<Ratios>) {
    forall k :: 0 <= k < |cars| ==> Positive(cars[k]) && Falls(cars[k])
  }

  /** What stays behind the updated car. */
  lemma Stays(cars: seq<Ratios>, k: nat, n: nat, j: nat)
    requires j < |Take(Without(cars, k), n)|
    ensures var i := if j < k then j else j + 1; i < |cars| && Take(Without(cars, k), n)[j] == cars[i]
  {}

  lemma MergeKeepsOrder(cars: seq<Ratios>, s: Ratios, after: seq<Ratios>)
    requires Positive(s) && AllOrdered(cars) && IsMerge(cars, s, after)
    ensures AllOrdered(after)
  {
    InOrderMeansFalls(s);
    hide InOrderFrom, IsUpdate, Positive, Falls;
    if Usable(s) {
      assert Positive(NoGears()) && Falls(NoGears()) by { NothingFalls(); }
      UpdateFalls(Updated(cars, s), s, after[0]);
      hide Take, Without, Usable, FirstMatch;
      forall k | 0 < k < |after| ensures Positive(after[k]) && Falls(after[k]) {
        assert after[k] == after[1..][k - 1];
        Stays(cars, FirstMatch(cars, s), MAX_CACHED_CARS - 1, k - 1);
      }
    }
  }

  lemma NothingFalls()
    ensures Positive(NoGears()) && Falls(NoGears())
  {}

  /** The cars that stay are the ones that were there, in their order: each but the updated one
      keeps its contents, moves back by one place if it was before it, and is dropped only off
      the end of a full list. */
  lemma OthersKeepTheirOrder(cars: seq<Ratios>, s: Ratios, after: seq<Ratios>, j: nat)
    requires |cars| <= MAX_CACHED_CARS && Usable(s) && IsMerge(cars, s, after) && j < |cars| && j != FirstMatch(cars, s)
    ensures var place := if j < FirstMatch(cars, s) then j + 1 else j;
      if place < 64 then place < |after| && after[place] == cars[j]
      else j == 63 && FirstMatch(cars, s) == |cars|
    ensures |after| == (if FirstMatch(cars, s) < |cars| || |cars| == 64 then |cars| else |cars| + 1)
  {
    hide IsUpdate, Usable, FirstMatch, Matches;
    var k := FirstMatch(cars, s);
    var place := if j < k then j + 1 else j;
    TakenLength(cars, k, MAX_CACHED_CARS - 1);
    hide Take, Without;
    if place < MAX_CACHED_CARS {
      Stays(cars, k, MAX_CACHED_CARS - 1, place - 1);
      assert after[place] == after[1..][place - 1];
    }
  }

  lemma TakenLength(cars: seq<Ratios>, k: nat, n: nat)
    ensures var rest := if k < |cars| then |cars| - 1 else |cars|; |Take(Without(cars, k), n)| == if rest <= n then rest else n
  {}

  // ----- merging the same session again -----

  lemma {:induction false} SelfShared(m: Ratios, s: Ratios, n: nat)
    requires 1 <= n <= MAX_GEARS && forall g :: 1 <= g < MAX_GEARS && s.has[g] ==> m.has[g]
    ensures CountShared(m, s, n) == CountGears(s, n)
  {
    if n > 1 {
      SelfShared(m, s, n - 1);
    }
  }

  lemma UpdateMatches(car: Ratios, s: Ratios, m: Ratios)
    requires Positive(s) && IsUpdate(car, s, m) && CountGears(s, MAX_GEARS) >= ADOPT_MIN_GEARS
    ensures Matches(m, s)
  {
    SelfShared(m, s, MAX_GEARS);
  }

  /** A car updated by a session is not changed by the same session again. */
  lemma UpdateIsIdempotent(car: Ratios, s: Ratios, m: Ratios, n: Ratios)
    requires IsUpdate(car, s, m) && IsUpdate(m, s, n)
    ensures n == m
  {
    forall g | 0 <= g < MAX_GEARS ensures n.has[g] == m.has[g] && n.r[g] == m.r[g] {
      if g > 0 && !s.has[g] && m.has[g] {
        assert Agrees(car, s, g);
        assert Agrees(m, s, g);
      }
    }
    assert n.r == m.r && n.has == m.has;
  }

  /** Merging a session twice is merging it once: the second time it finds its own car in
      front. */
  lemma MergeIsIdempotent(cars: seq<Ratios>, s: Ratios, once: seq<Ratios>, twice: seq<Ratios>)
    requires Positive(s) && |cars| <= MAX_CACHED_CARS && IsMerge(cars, s, once) && IsMerge(once, s, twice)
    ensures twice == once
  {
    hide IsUpdate, InOrderFrom;
    if Usable(s) {
      UpdateMatches(Updated(cars, s), s, once[0]);
      assert FirstMatch(once, s) == 0;
      UpdateIsIdempotent(Updated(cars, s), s, once[0], twice[0]);
      assert Without(once, 0) == once[1..];
      assert twice == [twice[0]] + twice[1..] && once == [once[0]] + once[1..];
    }
  }

  // ----- writing -----

  /** One flush call: what it leaves of `unsaved` and `retryWait`, and whether it wrote. */
  function FlushStep(unsaved: bool, retryWait: nat, force: bool, lands: bool): (bool, nat, bool) {
    if !unsaved then (false, retryWait, false)
    else if !force && retryWait > 0 then (true, retryWait - 1, false)
    else if !lands then (true, RETRY_CALLS, false)
    else (false, 0, true)
  }

  /** A flush writes exactly when there is something unsaved, it is forced or no wait is left, and
      the write lands; it waits a call less when it is not forced, and forty calls after a write
      that did not land. */
  lemma FlushExactly(unsaved: bool, retryWait: nat, force: bool, lands: bool)
    ensures var (u, wait, wrote) := FlushStep(unsaved, retryWait, force, lands); var tried := unsaved && (force || retryWait == 0);
      && (wrote <==> tried && lands) && (u <==> unsaved && !wrote)
      && wait == if wrote then 0 else if tried then 40 else if unsaved then retryWait - 1 else retryWait
  {}

  /** The state after unforced calls whose writes land as `lands` says. */
  function Calls(unsaved: bool, retryWait: nat, lands: seq<bool>): (bool, nat)
    decreases |lands|
  {
    if lands == [] then (unsaved, retryWait)
    else
      var (u, w, _) := FlushStep(unsaved, retryWait, false, lands[0]);
      Calls(u, w, lands[1..])
  }

  /** After a failed write the next forty unforced calls do nothing, and the one after them
      tries again. */
  lemma {:induction false} RetriesAfterForty(wait: nat, lands: seq<bool>)
    ensures |lands| <= wait ==> Calls(true, wait, lands) == (true, wait - |lands|)
    ensures |lands| == wait + 1 ==> Calls(true, wait, lands) == if lands[wait] then (false, 0) else (true, 40)
    decreases |lands|
  {
    if lands != [] && wait > 0 {
      RetriesAfterForty(wait - 1, lands[1..]);
    }
  }
}
