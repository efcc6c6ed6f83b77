/** The car table: two layers of rows under normalised keys, a name index for each, and the
    lookups that must agree with what the rows say. */
module CarTable {
  import opened SortedMap

  /** The shortest name that may be one the sim cut short. */
  const CUT_MIN_CHARS: nat := 30

  datatype Row = Row(key: string, name: string)

  /** Rows by normalised key; `byName`: normalised "<game>:<name>" to the row's key. */
  datatype Layer = Layer(rows: seq<Entry<Row>>, byName: seq<Entry<string>>)

  // ----- normalising -----

  predicate IsAlnum(c: char) { 'a' <= c <= 'z' || 'A' <= c <= 'Z' || '0' <= c <= '9' }

  function ToLower(c: char): char { if 'A' <= c <= 'Z' then ((c as int) + 32) as char else c }

  /** Lower case, letters and digits only. */
  function Normalised(s: string): string {
    if s == [] then []
    else if IsAlnum(s[0]) then [ToLower(s[0])] + Normalised(s[1..])
    else Normalised(s[1..])
  }

  method Normalise(s: string) returns (out: string)
    ensures out == Normalised(s)
  {
    out := [];
    var i := 0;
    while i < |s|
      invariant 0 <= i <= |s| && Normalised(s) == out + Normalised(s[i..])
    {
      if IsAlnum(s[i]) { out := out + [ToLower(s[i])]; }
      assert s[i..][1..] == s[i + 1..];
      i := i + 1;
    }
  }

  predicate IsNormal(s: string) { forall i :: 0 <= i < |s| ==> IsAlnum(s[i]) && ToLower(s[i]) == s[i] }

  lemma {:induction false} NormalisedIsNormal(s: string)
    ensures IsNormal(Normalised(s))
    decreases |s|
  {
    if s != [] {
      NormalisedIsNormal(s[1..]);
    }
  }

  lemma {:induction false} NormalIsKept(s: string)
    requires IsNormal(s)
    ensures Normalised(s) == s
    decreases |s|
  {
    if s != [] {
      assert IsNormal(s[1..]) by { forall i | 0 <= i < |s[1..]| ensures IsAlnum(s[1..][i]) && ToLower(s[1..][i]) == s[1..][i] { assert s[1..][i] == s[i + 1]; } }
      NormalIsKept(s[1..]);
      assert s == [s[0]] + s[1..];
    }
  }

  /** Character by character: digits and lower case letters stay, upper case ones become lower
      case, and everything else goes. */
  lemma {:induction false} NormalisedCharacters(s: string, c: char, t: string)
    ensures '0' <= c <= '9' || 'a' <= c <= 'z' ==> Normalised(s + [c] + t) == Normalised(s) + [c] + Normalised(t)
    ensures 'A' <= c <= 'Z' ==> Normalised(s + [c] + t) == Normalised(s) + [(c as int - 'A' as int + 'a' as int) as char] + Normalised(t)
    ensures c < '0' || '9' < c < 'A' || 'Z' < c < 'a' || 'z' < c ==> Normalised(s + [c] + t) == Normalised(s) + Normalised(t)
    ensures Normalised("") == ""
  {
    NormalisedAdds(s + [c], t);
    NormalisedAdds(s, [c]);
    assert [c][1..] == "";
  }

  /** The position of the first colon, or the length. */
  function Colon(s: string): (n: nat)
    ensures n <= |s| && (n < |s| ==> s[n] == ':') && ':' !in s[..n]
  {
    if s == [] || s[0] == ':' then 0
    else
      var n := Colon(s[1..]) + 1;
      assert s[..n] == [s[0]] + s[1..][..n - 1];
      n
  }

  /** Normalised game names to short ids. */
  type Games = map<string, string>

  function GameId(games: Games, game: string): string {
    var id := Normalised(game);
    if id in games then games[id] else id
  }

  /** Both halves normalised, the game resolved. */
  function NormalKey(games: Games, key: string): string {
    var n := Colon(key);
    if n == |key| then Normalised(key) else GameId(games, key[..n]) + ":" + Normalised(key[n + 1..])
  }

  /** Ids are stored normalised. */
  predicate NormalIds(games: Games) { forall g :: g in games ==> IsNormal(games[g]) }

  lemma {:induction false} ColonAfter(a: string, b: string)
    requires ':' !in a
    ensures Colon(a + ":" + b) == |a|
    decreases |a|
  {
    if a != [] {
      ColonAfter(a[1..], b);
      assert (a + ":" + b)[1..] == a[1..] + ":" + b;
    }
  }

  lemma KeyWithoutGame(games: Games, key: string)
    requires ':' !in key
    ensures Colon(key) == |key| && NormalKey(games, key) == Normalised(key) && NormalKey(games, Normalised(key)) == Normalised(key)
  {
    NormalisedIsNormal(key);
    NormalHasNoColon(Normalised(key));
    NormalIsKept(Normalised(key));
  }

  lemma KeyWithGame(games: Games, game: string, car: string)
    requires IsNormal(game) && IsNormal(car)
    ensures NormalKey(games, game + ":" + car) == GameId(games, game) + ":" + car
  {
    NormalIsKept(car);
    NormalHasNoColon(game);
    ColonAfter(game, car);
    var k := game + ":" + car;
    assert k[..|game|] == game && k[|game| + 1..] == car;
    hide Colon, Normalised;
  }

  lemma ColonInside(key: string)
    requires ':' in key
    ensures Colon(key) < |key|
  {
    assert key[..|key|] == key;
  }

  lemma GameIdIsNormal(games: Games, game: string)
    requires NormalIds(games)
    ensures IsNormal(GameId(games, game))
  {
    NormalisedIsNormal(game);
    hide IsNormal, Normalised;
  }

  lemma SamePrefix(a: string, b: string, c: string)
    ensures a + ":" + c == b + ":" + c <==> a == b
  {
    if a + ":" + c == b + ":" + c {
      assert |a| == |b| && (a + ":" + c)[..|a|] == a && (b + ":" + c)[..|b|] == b;
    }
  }

  /** A key with both parts, resolved once and again. */
  lemma ResolvedAgain(games: Games, game: string, car: string)
    requires NormalIds(games)
    ensures var id := GameId(games, game); var k := id + ":" + Normalised(car);
      NormalKey(games, k) == k <==> GameId(games, id) == id
  {
    GameIdIsNormal(games, game);
    NormalisedIsNormal(car);
    hide Colon, Normalised, NormalKey, GameId, IsNormal, NormalIds;
    KeyWithGame(games, GameId(games, game), Normalised(car));
    SamePrefix(GameId(games, GameId(games, game)), GameId(games, game), Normalised(car));
  }

  /** A normalised key is its own exactly when it has no game part or the id its game resolves
      to resolves to itself; a game listed later that takes that id for an alias breaks it. */
  lemma NormalKeyIsIdempotent(games: Games, key: string)
    requires NormalIds(games)
    ensures NormalKey(games, NormalKey(games, key)) == NormalKey(games, key) <==>
            ':' !in key || GameId(games, GameId(games, key[..Colon(key)])) == GameId(games, key[..Colon(key)])
  {
    if ':' !in key {
      KeyWithoutGame(games, key);
    } else {
      ColonInside(key);
      ResolvedAgain(games, key[..Colon(key)], key[Colon(key) + 1..]);
      hide Colon, Normalised, GameId;
    }
  }

  lemma LetterIsNormal(c: char)
    requires 'a' <= c <= 'z'
    ensures IsNormal([c]) && Normalised([c]) == [c]
  {
    NormalIsKept([c]);
  }

  /** Such a map: game "a" has the alias "x", and a later game "b" the alias "a". */
  lemma ALaterGameMovesTheKey()
    ensures var games: Games := map["x" := "a", "a" := "b", "b" := "b"];
      NormalIds(games) && NormalKey(games, "x:c") == "a:c" && NormalKey(games, "a:c") == "b:c"
  {
    var games: Games := map["x" := "a", "a" := "b", "b" := "b"];
    LetterIsNormal('x');
    LetterIsNormal('a');
    LetterIsNormal('b');
    LetterIsNormal('c');
    hide Normalised, NormalKey, Colon, IsNormal;
    KeyWithGame(games, "x", "c");
    KeyWithGame(games, "a", "c");
    assert "x:c" == "x" + ":" + "c" && "a:c" == "a" + ":" + "c" && "b:c" == "b" + ":" + "c";
  }

  lemma NormalHasNoColon(s: string)
    requires IsNormal(s)
    ensures ':' !in s && Colon(s) == |s|
  {
  }

  /** The breaks between words: the underscore and the white space of C. */
  lemma BreaksAre(c: char)
    ensures IsBreak(c) <==> c == '_' || c == ' ' || 9 <= c as int <= 13
  {}

  // ----- the name index -----

  /** The key a row's display name is indexed under. */
  function NameKey(key: string, row: Row): string {
    (if Colon(key) == |key| then "" else key[..Colon(key)]) + ":" + Normalised(row.name)
  }

  /** A name belongs to the game of the row's key; a key without one has the empty game. */
  lemma NameKeyIsOfTheGame(game: string, car: string, row: Row)
    requires ':' !in game
    ensures NameKey(game + ":" + car, row) == game + ":" + Normalised(row.name)
    ensures NameKey(game, row) == ":" + Normalised(row.name)
  {
    ColonAfter(game, car);
    assert (game + ":" + car)[..|game|] == game;
    hide Normalised;
  }

  predicate Named(rows: seq<Entry<Row>>, i: nat, name: string)
    requires i < |rows|
  {
    rows[i].value.name != "" && NameKey(rows[i].key, rows[i].value) == name
  }

  /** The key of the first of the first `n` rows that has the name. */
  function FirstNamed(rows: seq<Entry<Row>>, n: nat, name: string): Option<string>
    requires n <= |rows|
  {
    if n == 0 then None
    else if FirstNamed(rows, n - 1, name).Some? then FirstNamed(rows, n - 1, name)
    else if Named(rows, n - 1, name) then Some(rows[n - 1].key)
    else None
  }

  /** One row's part in the index: nothing for a row without a name, or with one that is a
      row's key, or one that is taken. */
  function IndexStep(byName: seq<Entry<string>>, rows: seq<Entry<Row>>, i: nat): (r: seq<Entry<string>>)
    requires i < |rows| && Sorted(rows) && Sorted(byName)
    ensures Sorted(r)
  {
    var nn := NameKey(rows[i].key, rows[i].value);
    AssignWorks(byName, nn, rows[i].key);
    if rows[i].value.name == "" || nn == rows[i].key || Find(rows, nn).Some? then byName
    else Emplace(byName, nn, rows[i].key)
  }

  function IndexOf(rows: seq<Entry<Row>>, n: nat): (r: seq<Entry<string>>)
    requires n <= |rows| && Sorted(rows)
    ensures Sorted(r)
  {
    if n == 0 then [] else IndexStep(IndexOf(rows, n - 1), rows, n - 1)
  }

  method RebuildNames(rows: seq<Entry<Row>>) returns (byName: seq<Entry<string>>)
    requires Sorted(rows)
    ensures byName == IndexOf(rows, |rows|)
  {
    hide Normalised, Find, Emplace, Sorted, Colon;
    byName := [];
    var i := 0;
    while i < |rows|
      invariant 0 <= i <= |rows| && byName == IndexOf(rows, i)
    {
      var key, name := rows[i].key, rows[i].value.name;
      if name != "" {
        var colon := Colon(key);
        var game := if colon == |key| then "" else key[..colon];
        var nn := Normalise(name);
        nn := game + ":" + nn;
        if nn == key || Find(rows, nn).Some? {
        } else {
          byName := Emplace(byName, nn, key);
        }
      }
      i := i + 1;
    }
  }

  lemma {:induction false} IndexMeansFrom(rows: seq<Entry<Row>>, n: nat, name: string)
    requires n <= |rows| && Sorted(rows)
    ensures Find(IndexOf(rows, n), name) == if HasKey(rows, name) then None else FirstNamed(rows, n, name)
  {
    if n > 0 {
      IndexMeansFrom(rows, n - 1, name);
      IndexStepMeans(IndexOf(rows, n - 1), rows, n - 1, name);
      hide IndexStep, Sorted, HasKey, FirstNamed, Find;
    }
  }

  lemma IndexStepMeans(byName: seq<Entry<string>>, rows: seq<Entry<Row>>, i: nat, name: string)
    requires i < |rows| && Sorted(rows) && Sorted(byName)
    requires Find(byName, name) == if HasKey(rows, name) then None else FirstNamed(rows, i, name)
    ensures Find(IndexStep(byName, rows, i), name) == if HasKey(rows, name) then None else FirstNamed(rows, i + 1, name)
  {
    var key, nn := rows[i].key, NameKey(rows[i].key, rows[i].value);
    AssignWorks(byName, nn, key);
    assert nn == key ==> HasKey(rows, nn);
    hide Find, Assign, Sorted, NameKey;
  }

  /** The name index never shadows a key, and gives every other display name to the first row
      in key order that has it. */
  lemma IndexMeans(rows: seq<Entry<Row>>, name: string)
    requires Sorted(rows)
    ensures Find(IndexOf(rows, |rows|), name) == if HasKey(rows, name) then None else FirstNamed(rows, |rows|, name)
  {
    IndexMeansFrom(rows, |rows|, name);
  }

  lemma {:induction false} FirstNamedIsARow(rows: seq<Entry<Row>>, n: nat, name: string)
    requires n <= |rows| && FirstNamed(rows, n, name).Some?
    ensures exists i :: (0 <= i < n && Named(rows, i, name) && rows[i].key == FirstNamed(rows, n, name).value
                         && forall h :: 0 <= h < i ==> !Named(rows, h, name))
  {
    if FirstNamed(rows, n - 1, name).Some? {
      FirstNamedIsARow(rows, n - 1, name);
    } else {
      NoneIsNamed(rows, n - 1, name);
    }
  }

  lemma {:induction false} NoneIsNamed(rows: seq<Entry<Row>>, n: nat, name: string)
    requires n <= |rows|
    ensures FirstNamed(rows, n, name).None? <==> forall i :: 0 <= i < n ==> !Named(rows, i, name)
  {
    if n > 0 {
      NoneIsNamed(rows, n - 1, name);
    }
  }

  /** A layer as every operation leaves it. */
  ghost predicate Consistent(l: Layer) {
    Sorted(l.rows) && l.byName == IndexOf(l.rows, |l.rows|)
  }

  /** Whatever the index gives is the key of a row. */
  lemma IndexPointsAtRows(l: Layer, j: nat)
    requires Consistent(l) && j < |l.byName|
    ensures HasKey(l.rows, l.byName[j].value) && !HasKey(l.rows, l.byName[j].key)
  {
    var name := l.byName[j].key;
    IndexMeans(l.rows, name);
    assert Find(l.byName, name) == Some(l.byName[j].value);
    FirstNamedIsARow(l.rows, |l.rows|, name);
  }

  // ----- lookups -----

  /** By the key, then by the name. */
  function Lookup(l: Layer, nk: string): Option<Row>
    requires Sorted(l.rows) && Sorted(l.byName)
  {
    var byKey := Find(l.rows, nk);
    var name := Find(l.byName, nk);
    if byKey.Some? then byKey else if name.Some? then Find(l.rows, name.value) else None
  }

  /** A lookup finds the row with the key if there is one, else the first row in key order with
      the name, else nothing. */
  lemma LookupMeans(l: Layer, nk: string)
    requires Consistent(l)
    ensures Lookup(l, nk).Some? <==> HasKey(l.rows, nk) || exists i :: 0 <= i < |l.rows| && Named(l.rows, i, nk)
    ensures HasKey(l.rows, nk) ==> Lookup(l, nk) == Find(l.rows, nk)
    ensures forall i :: (0 <= i < |l.rows| && !HasKey(l.rows, nk) && Named(l.rows, i, nk)
                         && forall h :: 0 <= h < i ==> !Named(l.rows, h, nk)) ==> Lookup(l, nk) == Some(l.rows[i].value)
  {
    IndexMeans(l.rows, nk);
    NoneIsNamed(l.rows, |l.rows|, nk);
    hide FirstNamed, Named, NameKey, IndexOf, Sorted, Find;
    if FirstNamed(l.rows, |l.rows|, nk).Some? {
      FirstNamedIsARow(l.rows, |l.rows|, nk);
    }
    forall i | 0 <= i < |l.rows| && !HasKey(l.rows, nk) && Named(l.rows, i, nk) && forall h :: 0 <= h < i ==> !Named(l.rows, h, nk)
      ensures Lookup(l, nk) == Some(l.rows[i].value)
    {
      FirstIs(l.rows, |l.rows|, i, nk);
    }
  }

  /** A row of the layer belongs to the game. */
  ghost predicate Covers(l: Layer, id: string) {
    exists i :: 0 <= i < |l.rows| && Begins(l.rows[i].key, id + ":")
  }

  /** ... exactly when there is a car of it. */
  lemma CoversIsACar(l: Layer, id: string)
    ensures Covers(l, id) <==> exists car :: HasKey(l.rows, id + ":" + car)
  {
    if i :| 0 <= i < |l.rows| && Begins(l.rows[i].key, id + ":") {
      assert l.rows[i].key == id + ":" + l.rows[i].key[|id| + 1..];
      assert HasKey(l.rows, l.rows[i].key);
    }
    if car :| HasKey(l.rows, id + ":" + car) {
      var i :| 0 <= i < |l.rows| && l.rows[i].key == id + ":" + car;
      assert (id + ":" + car)[..|id| + 1] == id + ":";
      assert Begins(l.rows[i].key, id + ":");
    }
  }

  /** The keys a cut name fits: those that begin with it, and those of the indexed names that
      begin with it. */
  ghost function FitSet(l: Layer, prefix: string): set<string> {
    (set i | 0 <= i < |l.rows| && Begins(l.rows[i].key, prefix) :: l.rows[i].key)
    + (set i | 0 <= i < |l.byName| && Begins(l.byName[i].key, prefix) :: l.byName[i].value)
  }

  predicate IsBreak(c: char) { c in {'_', ' ', '\t', '\n', '\r', 11 as char, 12 as char} }

  /** The words of a name, each normalised, `word` the one under way; empty ones are dropped. */
  function Words(s: string, word: string): seq<string>
    decreases |s|
  {
    if s == [] then []
    else if !IsBreak(s[0]) then Words(s[1..], word + [s[0]])
    else (if Normalised(word) == [] then [] else [Normalised(word)]) + Words(s[1..], "")
  }

  function Join(words: seq<string>, k: nat): string
    requires k <= |words|
  {
    if k == 0 then "" else Join(words, k - 1) + words[k - 1]
  }

  lemma {:induction false} NormalisedAdds(a: string, b: string)
    ensures Normalised(a + b) == Normalised(a) + Normalised(b)
    decreases |a|
  {
    if a == [] {
      assert a + b == b;
    } else {
      assert (a + b)[1..] == a[1..] + b;
      NormalisedAdds(a[1..], b);
    }
  }

  lemma {:induction false} JoinAdds(first: seq<string>, rest: seq<string>, k: nat)
    requires k <= |rest|
    ensures Join(first + rest, |first| + k) == Join(first, |first|) + Join(rest, k)
    decreases k
  {
    if k == 0 {
      JoinPrefix(first, rest, |first|);
    } else {
      JoinAdds(first, rest, k - 1);
      assert (first + rest)[|first| + k - 1] == rest[k - 1];
      assert Join(first, |first|) + (Join(rest, k - 1) + rest[k - 1]) == Join(first, |first|) + Join(rest, k - 1) + rest[k - 1];
    }
  }

  lemma {:induction false} JoinPrefix(first: seq<string>, rest: seq<string>, k: nat)
    requires k <= |first|
    ensures Join(first + rest, k) == Join(first, k)
  {
    if k > 0 {
      JoinPrefix(first, rest, k - 1);
    }
  }

  /** Splitting into words loses nothing the normalised name has: all words in a row are it. */
  lemma {:induction false} WordsMakeTheName(s: string, word: string)
    requires s == [] ==> Normalised(word) == []
    requires s != [] ==> IsBreak(s[|s| - 1])
    ensures Join(Words(s, word), |Words(s, word)|) == Normalised(word + s)
    decreases |s|
  {
    if s == [] {
      assert word + s == word;
    } else if !IsBreak(s[0]) {
      assert word + s == word + [s[0]] + s[1..];
      WordsMakeTheName(s[1..], word + [s[0]]);
    } else {
      WordsMakeTheName(s[1..], "");
      assert "" + s[1..] == s[1..];
      WordEnds(s, word);
    }
  }

  lemma WordEnds(s: string, word: string)
    requires s != [] && IsBreak(s[0]) && Join(Words(s[1..], ""), |Words(s[1..], "")|) == Normalised(s[1..])
    ensures Join(Words(s, word), |Words(s, word)|) == Normalised(word + s)
  {
    NormalisedAdds(word, s);
    assert Normalised(s) == Normalised(s[1..]);
    hide Normalised, Join, IsBreak;
    WordFirst(Normalised(word), Words(s[1..], ""));
  }

  lemma WordFirst(w: string, rest: seq<string>)
    ensures var all := (if w == [] then [] else [w]) + rest; Join(all, |all|) == w + Join(rest, |rest|)
  {
    var first := if w == [] then [] else [w];
    JoinAdds(first, rest, |rest|);
    OneWord(w);
    hide Join;
  }

  lemma OneWord(w: string)
    ensures Join([w], 1) == w && Join([], 0) == ""
  {}

  datatype Match = Match(row: Row, user: bool)

  class CarTable {
    var user: Layer
    var stock: Layer
    const games: Games

    ghost predicate Valid()
      reads this
    {
      Consistent(user) && Consistent(stock)
    }

    constructor (games: Games)
      ensures Valid() && this.games == games && user.rows == [] && stock.rows == []
    {
      this.games := games;
      user, stock := Layer([], []), Layer([], []);
    }

    method PutUser(key: string, row: Row)
      requires Valid()
      modifies this`user
      ensures Valid() && Lookup(user, NormalKey(games, key)) == Some(row)
      ensures forall q :: Find(user.rows, q) == if q == NormalKey(games, key) then Some(row) else Find(old(user).rows, q)
    {
      var nk := NormalKey(games, key);
      AssignWorks(user.rows, nk, row);
      user := user.(rows := Assign(user.rows, nk, row));
      var names := RebuildNames(user.rows);
      user := user.(byName := names);
    }

    method RemoveUser(key: string) returns (gone: bool)
      requires Valid()
      modifies this`user
      ensures Valid() && (gone <==> HasKey(old(user).rows, NormalKey(games, key))) && (!gone ==> user == old(user))
      ensures forall q :: Find(user.rows, q) == if q == NormalKey(games, key) then None else Find(old(user).rows, q)
    {
      var nk := NormalKey(games, key);
      gone := Find(user.rows, nk).Some?;
      if gone {
        EraseWorks(user.rows, nk);
        user := user.(rows := Erase(user.rows, nk));
        var names := RebuildNames(user.rows);
        user := user.(byName := names);
      }
    }

    /** One look at the lower bound of the game's prefix decides. */
    method CoversGame(game: string) returns (covered: bool)
      requires Valid()
      ensures covered <==> Covers(user, GameId(games, game)) || Covers(stock, GameId(games, game))
    {
      var prefix := GameId(games, game) + ":";
      var u := AnyWith(user, prefix);
      var s := AnyWith(stock, prefix);
      return u || s;
    }

    static method AnyWith(l: Layer, prefix: string) returns (any: bool)
      requires Sorted(l.rows)
      ensures any <==> exists i :: 0 <= i < |l.rows| && Begins(l.rows[i].key, prefix)
    {
      var at := LowerBound(l.rows, prefix);
      any := at < |l.rows| && Begins(l.rows[at].key, prefix);
      forall i | 0 <= i < |l.rows| && Begins(l.rows[i].key, prefix) ensures any {
        ScanFindsThePrefix(l.rows, prefix, i);
        assert RunLength(l.rows, at, prefix) > 0;
      }
    }

    static method FitNames(l: Layer, prefix: string) returns (keys: set<string>)
      requires Sorted(l.byName)
      ensures keys == set i | 0 <= i < |l.byName| && Begins(l.byName[i].key, prefix) :: l.byName[i].value
    {
      keys := {};
      var start := LowerBound(l.byName, prefix);
      var i := start;
      while i < |l.byName| && Begins(l.byName[i].key, prefix)
        invariant start <= i <= |l.byName| && forall k :: start <= k < i ==> Begins(l.byName[k].key, prefix)
        invariant keys == set k | start <= k < i :: l.byName[k].value
      {
        keys := keys + {l.byName[i].value};
        i := i + 1;
      }
      ScanEnds(l.byName, prefix, i);
    }

    static method FitKeys(l: Layer, prefix: string) returns (keys: set<string>)
      requires Sorted(l.rows)
      ensures keys == set i | 0 <= i < |l.rows| && Begins(l.rows[i].key, prefix) :: l.rows[i].key
    {
      keys := {};
      var start := LowerBound(l.rows, prefix);
      var i := start;
      while i < |l.rows| && Begins(l.rows[i].key, prefix)
        invariant start <= i <= |l.rows| && forall k :: start <= k < i ==> Begins(l.rows[k].key, prefix)
        invariant keys == set k | start <= k < i :: l.rows[k].key
      {
        keys := keys + {l.rows[i].key};
        i := i + 1;
      }
      ScanEnds(l.rows, prefix, i);
    }

    /** A long name the sim cut short: found exactly when one key of both layers together fits
        it; the user's row for it before stock's. */
    method FindCut(game: string, car: string) returns (m: Option<Match>)
      requires Valid()
      ensures var keys := FitSet(user, GameId(games, game) + ":" + Normalised(car)) + FitSet(stock, GameId(games, game) + ":" + Normalised(car));
        && (m.Some? <==> |car| >= 30 && |keys| == 1)
        && (m.Some? ==> exists k :: keys == {k} && (if HasKey(user.rows, k) then Some(m.value.row) == Find(user.rows, k) && m.value.user
                                                    else Some(m.value.row) == Find(stock.rows, k) && !m.value.user))
    {
      if |car| < CUT_MIN_CHARS { return None; }
      var n := Normalise(car);
      var prefix := GameId(games, game) + ":" + n;
      var userNames := FitNames(user, prefix);
      var userKeys := FitKeys(user, prefix);
      var stockNames := FitNames(stock, prefix);
      var stockKeys := FitKeys(stock, prefix);
      var keys := userNames + userKeys + stockNames + stockKeys;
      assert keys == FitSet(user, prefix) + FitSet(stock, prefix);
      if |keys| != 1 { return None; }
      var k :| k in keys;
      assert keys == {k} by { OnlyOne(keys, k); }
      if k in FitSet(user, prefix) {
        FitIsARow(user, prefix, k);
      } else {
        FitIsARow(stock, prefix, k);
      }
      hide FitSet, Begins, Consistent, Normalised;
      var u := Find(user.rows, k);
      if u.Some? { return Some(Match(u.value, true)); }
      var s := Find(stock.rows, k);
      return Some(Match(s.value, false));
    }

    /** The words of the name, longest prefix first: at least two words, and never all of
        them. */
    method FindNear(game: string, car: string) returns (m: Option<Match>)
      requires Valid()
      ensures var words := Words(car + " ", ""); var id := GameId(games, game);
        if m.None? then forall k :: 2 <= k < |words| ==> Near(id, words, k).None?
        else exists k :: 2 <= k < |words| && Near(id, words, k) == m && forall j :: k < j < |words| ==> Near(id, words, j).None?
    {
      hide Words, Join, Either, Lookup, Normalised, IndexOf, Sorted, GameId;
      var words := SplitWords(car);
      if |words| < 3 { return None; }
      var id := GameId(games, game);
      var k := |words| - 1;
      while k >= 2
        invariant 1 <= k < |words| && forall j :: k < j < |words| ==> Near(id, words, j).None?
      {
        m := LookupBoth(id + ":" + Join(words, k));
        assert m == Near(id, words, k);
        if m.Some? { return; }
        k := k - 1;
      }
      return None;
    }

    method LookupBoth(nk: string) returns (m: Option<Match>)
      requires Valid()
      ensures m == Either(nk)
    {
      var r := Lookup(user, nk);
      if r.Some? { return Some(Match(r.value, true)); }
      r := Lookup(stock, nk);
      if r.Some? { return Some(Match(r.value, false)); }
      return None;
    }

    ghost function Either(nk: string): Option<Match>
      reads this
      requires Valid()
    {
      if Lookup(user, nk).Some? then Some(Match(Lookup(user, nk).value, true))
      else if Lookup(stock, nk).Some? then Some(Match(Lookup(stock, nk).value, false))
      else None
    }

    /** What the first `k` words find, the user's layer first. */
    ghost function Near(id: string, words: seq<string>, k: nat): Option<Match>
      reads this
      requires Valid() && k <= |words|
    {
      Either(id + ":" + Join(words, k))
    }

    static method SplitWords(car: string) returns (words: seq<string>)
      ensures words == Words(car + " ", "")
    {
      words := [];
      var s, word, i := car + " ", "", 0;
      while i < |s|
        invariant 0 <= i <= |s| && Words(s, "") == words + Words(s[i..], word)
      {
        assert s[i..][1..] == s[i + 1..];
        if IsBreak(s[i]) {
          var n := Normalise(word);
          if n != "" { words := words + [n]; }
          word := "";
        } else {
          word := word + [s[i]];
        }
        i := i + 1;
      }
    }
  }

  lemma OnlyOne(keys: set<string>, k: string)
    requires |keys| == 1 && k in keys
    ensures keys == {k}
  {
    assert |keys - {k}| == 0;
    assert keys == (keys - {k}) + {k};
  }

  lemma FitIsARow(l: Layer, prefix: string, k: string)
    requires Consistent(l) && k in FitSet(l, prefix)
    ensures HasKey(l.rows, k)
  {
    forall j | 0 <= j < |l.byName| && l.byName[j].value == k ensures HasKey(l.rows, k) {
      IndexPointsAtRows(l, j);
    }
  }

  /** A near match is of a name the sim's name begins with: the words that found it, in a row,
      are a prefix of the sim's whole normalised name, and not all of it. */
  lemma NearIsAPrefix(car: string, k: nat)
    requires k < |Words(car + " ", "")|
    ensures var words := Words(car + " ", ""); Begins(Normalised(car), Join(words, k)) && |Join(words, k)| < |Normalised(car)|
  {
    hide Normalised, Words, Join;
    var words := Words(car + " ", "");
    WordsMakeTheName(car + " ", "");
    NormalisedAdds(car, " ");
    assert Normalised(" ") == "" by { NormalisedBlank(); }
    assert "" + (car + " ") == car + " ";
    JoinAdds(words[..k], words[k..], |words| - k);
    assert words[..k] + words[k..] == words;
    JoinPrefix(words[..k], words[k..], k);
    assert Normalised(car) == Join(words, k) + Join(words[k..], |words| - k);
    WordsAreNotEmpty(car + " ", "", k);
    JoinGrows(words[k..], |words| - k);
  }

  lemma NormalisedBlank()
    ensures Normalised(" ") == ""
  {
    assert !IsAlnum(' ');
  }

  lemma {:induction false} WordsAreNotEmpty(s: string, word: string, k: nat)
    requires k < |Words(s, word)|
    ensures Words(s, word)[k] != []
    decreases |s|
  {
    if !IsBreak(s[0]) {
      WordsAreNotEmpty(s[1..], word + [s[0]], k);
    } else if Normalised(word) == [] {
      WordsAreNotEmpty(s[1..], "", k);
    } else if k > 0 {
      WordsAreNotEmpty(s[1..], "", k - 1);
    }
  }

  lemma {:induction false} JoinGrows(words: seq<string>, k: nat)
    requires 0 < k <= |words| && words[0] != []
    ensures |Join(words, k)| > 0
  {
    if k > 1 {
      JoinGrows(words, k - 1);
    } else {
      assert Join(words, 1) == Join(words, 0) + words[0];
    }
  }

  /** Row `i` goes by a name of its own in the index: not a row's key, and no earlier row's. */
  ghost predicate GoesByName(rows: seq<Entry<Row>>, i: nat)
    requires i < |rows|
  {
    var name := NameKey(rows[i].key, rows[i].value);
    Named(rows, i, name) && !HasKey(rows, name) && forall h :: 0 <= h < i ==> !Named(rows, h, name)
  }

  /** A row fits a cut name exactly when its key begins with it, or it goes by a name that does. */
  lemma FitsByKeyOrName(l: Layer, prefix: string, i: nat)
    requires Consistent(l) && i < |l.rows|
    ensures l.rows[i].key in FitSet(l, prefix) <==>
      Begins(l.rows[i].key, prefix) || (GoesByName(l.rows, i) && Begins(NameKey(l.rows[i].key, l.rows[i].value), prefix))
  {
    var key := l.rows[i].key;
    KeysDiffer(l.rows);
    if GoesByName(l.rows, i) {
      var j := IsIndexed(l, i);
    }
    forall j | 0 <= j < |l.byName| && l.byName[j].value == key
      ensures GoesByName(l.rows, i) && l.byName[j].key == NameKey(key, l.rows[i].value)
    {
      IndexedGoesByName(l, j, i);
    }
    forall m | 0 <= m < |l.rows| && l.rows[m].key == key ensures m == i {}
    hide GoesByName, Begins, NameKey, Consistent;
  }

  lemma IsIndexed(l: Layer, i: nat) returns (j: nat)
    requires Consistent(l) && i < |l.rows| && GoesByName(l.rows, i)
    ensures j < |l.byName| && l.byName[j].key == NameKey(l.rows[i].key, l.rows[i].value) && l.byName[j].value == l.rows[i].key
  {
    var name := NameKey(l.rows[i].key, l.rows[i].value);
    IndexMeans(l.rows, name);
    FirstIs(l.rows, |l.rows|, i, name);
    hide NameKey, Named, IndexOf, FirstNamed, Sorted;
    j :| 0 <= j < |l.byName| && l.byName[j].key == name;
    assert Find(l.byName, name) == Some(l.byName[j].value);
  }

  lemma IndexedGoesByName(l: Layer, j: nat, i: nat)
    requires Consistent(l) && i < |l.rows| && j < |l.byName| && l.byName[j].value == l.rows[i].key
    ensures GoesByName(l.rows, i) && l.byName[j].key == NameKey(l.rows[i].key, l.rows[i].value)
  {
    var name := l.byName[j].key;
    IndexMeans(l.rows, name);
    assert Find(l.byName, name) == Some(l.byName[j].value);
    FirstNamedIsARow(l.rows, |l.rows|, name);
    KeysDiffer(l.rows);
    hide NameKey, IndexOf, FirstNamed, Sorted, Find;
  }

  lemma KeysDiffer(rows: seq<Entry<Row>>)
    requires Sorted(rows)
    ensures forall a, b :: 0 <= a < b < |rows| ==> rows[a].key != rows[b].key
  {
    forall a, b | 0 <= a < b < |rows| ensures rows[a].key != rows[b].key {
      LessIsTotal(rows[a].key, rows[b].key);
    }
  }

  lemma {:induction false} FirstIs(rows: seq<Entry<Row>>, n: nat, i: nat, name: string)
    requires i < n <= |rows| && Named(rows, i, name) && forall h :: 0 <= h < i ==> !Named(rows, h, name)
    ensures FirstNamed(rows, n, name) == Some(rows[i].key)
  {
    NoneIsNamed(rows, i, name);
    if n > i + 1 {
      FirstIs(rows, n - 1, i, name);
    }
  }
}
