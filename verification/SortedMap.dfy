/** The ordered map of the standard library: entries in strictly increasing key order, and the
    operations the car table uses on it. */
module SortedMap {

  datatype Option<T> = None | Some(value: T)

  datatype Entry<V> = Entry(key: string, value: V)

  // ----- the order of strings -----

  predicate Less(a: string, b: string) {
    b != [] && (a == [] || a[0] < b[0] || (a[0] == b[0] && Less(a[1..], b[1..])))
  }

  predicate AtMost(a: string, b: string) { a == b || Less(a, b) }

  predicate Begins(s: string, prefix: string) { |prefix| <= |s| && s[..|prefix|] == prefix }

  lemma {:induction false} LessIsTotal(a: string, b: string)
    ensures Less(a, b) || Less(b, a) || a == b
    ensures !(Less(a, b) && Less(b, a)) && !(Less(a, b) && a == b)
    decreases |a|
  {
    if a != [] && b != [] {
      LessIsTotal(a[1..], b[1..]);
      assert a == [a[0]] + a[1..] && b == [b[0]] + b[1..];
    }
  }

  lemma {:induction false} LessIsTransitive(a: string, b: string, c: string)
    requires AtMost(a, b) && Less(b, c)
    ensures Less(a, c)
    decreases |a|
  {
    if a != b && a != [] && a[0] == b[0] == c[0] {
      LessIsTransitive(a[1..], b[1..], c[1..]);
    }
  }

  /** A string is not before its prefixes. */
  lemma {:induction false} PrefixComesFirst(prefix: string, s: string)
    requires Begins(s, prefix)
    ensures AtMost(prefix, s)
    decreases |prefix|
  {
    if prefix != [] {
      assert s[0] == prefix[0] && s[1..][..|prefix| - 1] == prefix[1..];
      PrefixComesFirst(prefix[1..], s[1..]);
      assert prefix == [prefix[0]] + prefix[1..] && s == [s[0]] + s[1..];
    } else if s != [] {
      assert Less(prefix, s);
    }
  }

  /** Between a prefix and a string that has it lie only strings that have it. */
  lemma {:induction false} PrefixIsAnInterval(prefix: string, a: string, b: string)
    requires AtMost(prefix, a) && AtMost(a, b) && Begins(b, prefix)
    ensures Begins(a, prefix)
    decreases |prefix|
  {
    if prefix != [] && prefix != a && a != b {
      assert b[0] == prefix[0] && b[1..][..|prefix| - 1] == prefix[1..];
      assert a[0] == prefix[0];
      PrefixIsAnInterval(prefix[1..], a[1..], b[1..]);
      assert a[..|prefix|] == [a[0]] + a[1..][..|prefix| - 1];
    }
  }

  // ----- the map -----

  predicate Sorted<V(!new)>(m: seq<Entry<V>>) { forall i, j :: 0 <= i < j < |m| ==> Less(m[i].key, m[j].key) }

  predicate HasKey<V>(m: seq<Entry<V>>, k: string) { exists i :: 0 <= i < |m| && m[i].key == k }

  /** The first entry whose key is not before `k`. */
  function LowerBound<V(!new)>(m: seq<Entry<V>>, k: string): (r: nat)
    requires Sorted(m)
    ensures r <= |m| && (forall i :: 0 <= i < r ==> Less(m[i].key, k)) && (forall i :: r <= i < |m| ==> !Less(m[i].key, k))
  {
    if m == [] || !Less(m[0].key, k) then
      assert forall i :: 0 <= i < |m| ==> !Less(m[i].key, k) by { NotBefore(m, k); }
      0
    else LowerBound(m[1..], k) + 1
  }

  lemma NotBefore<V(!new)>(m: seq<Entry<V>>, k: string)
    requires Sorted(m) && (m == [] || !Less(m[0].key, k))
    ensures forall i :: 0 <= i < |m| ==> !Less(m[i].key, k)
  {
    forall i | 0 <= i < |m| ensures !Less(m[i].key, k) {
      if i > 0 && Less(m[i].key, k) {
        LessIsTransitive(m[0].key, m[i].key, k);
      }
    }
  }

  function Find<V(!new)>(m: seq<Entry<V>>, k: string): (r: Option<V>)
    requires Sorted(m)
    ensures r.Some? <==> HasKey(m, k)
    ensures forall i :: 0 <= i < |m| && m[i].key == k ==> r == Some(m[i].value)
  {
    var n := LowerBound(m, k);
    FindAtBound(m, k);
    if n < |m| && m[n].key == k then Some(m[n].value) else None
  }

  /** A key that is in the map is at its lower bound. */
  lemma FindAtBound<V(!new)>(m: seq<Entry<V>>, k: string)
    requires Sorted(m)
    ensures forall i :: 0 <= i < |m| && m[i].key == k ==> i == LowerBound(m, k)
  {
    var n := LowerBound(m, k);
    assert forall i :: n < i < |m| ==> Less(m[n].key, m[i].key);
    forall i | 0 <= i < |m| && m[i].key == k ensures i == n {
      LessIsTotal(k, k);
    }
  }

  /** Inserts at the lower bound, or replaces the entry there if it has the key. */
  function Assign<V(!new)>(m: seq<Entry<V>>, k: string, v: V): (r: seq<Entry<V>>)
    requires Sorted(m)
  {
    var n := LowerBound(m, k);
    if n < |m| && m[n].key == k then m[n := Entry(k, v)] else m[..n] + [Entry(k, v)] + m[n..]
  }

  /** Inserts unless the key is there. */
  function Emplace<V(!new)>(m: seq<Entry<V>>, k: string, v: V): seq<Entry<V>>
    requires Sorted(m)
  {
    if Find(m, k).Some? then m else Assign(m, k, v)
  }

  function Erase<V(!new)>(m: seq<Entry<V>>, k: string): seq<Entry<V>>
    requires Sorted(m)
  {
    var n := LowerBound(m, k);
    if n < |m| && m[n].key == k then m[..n] + m[n + 1..] else m
  }

  lemma AssignWorks<V(!new)>(m: seq<Entry<V>>, k: string, v: V)
    requires Sorted(m)
    ensures var r := Assign(m, k, v); Sorted(r) && forall q :: Find(r, q) == if q == k then Some(v) else Find(m, q)
  {
    var n := LowerBound(m, k);
    var r := Assign(m, k, v);
    forall i, j | 0 <= i < j < |r| ensures Less(r[i].key, r[j].key) {
      if r[j].key == k && n < |m| {
        LessIsTotal(m[n].key, k);
      }
      if n < |m| && m[n].key != k {
        LessIsTotal(m[n].key, k);
        if i == n && j > n + 1 {
          LessIsTransitive(k, m[n].key, m[j - 1].key);
        }
      }
    }
    forall q ensures Find(r, q) == if q == k then Some(v) else Find(m, q) {
      AssignFind(m, k, v, q);
    }
  }

  lemma AssignFind<V(!new)>(m: seq<Entry<V>>, k: string, v: V, q: string)
    requires Sorted(m) && Sorted(Assign(m, k, v))
    ensures Find(Assign(m, k, v), q) == if q == k then Some(v) else Find(m, q)
  {
    var n := LowerBound(m, k);
    var r := Assign(m, k, v);
    if q == k {
      assert r[n].key == k;
    } else {
      forall i | 0 <= i < |m| && m[i].key == q ensures Find(r, q) == Some(m[i].value) {
        assert r[if i < n || (n < |m| && m[n].key == k) then i else i + 1] == m[i];
      }
      forall j | 0 <= j < |r| && r[j].key == q ensures HasKey(m, q) {
        assert m[if j < n || (n < |m| && m[n].key == k) then j else j - 1].key == q;
      }
    }
  }

  lemma EraseWorks<V(!new)>(m: seq<Entry<V>>, k: string)
    requires Sorted(m)
    ensures var r := Erase(m, k); Sorted(r) && forall q :: Find(r, q) == if q == k then None else Find(m, q)
  {
    var n := LowerBound(m, k);
    var r := Erase(m, k);
    FindAtBound(m, k);
    forall q ensures Find(r, q) == if q == k then None else Find(m, q) {
      forall j | 0 <= j < |r| && r[j].key == q ensures q != k && Find(m, q) == Some(r[j].value) {
        assert m[if j < n || r == m then j else j + 1] == r[j];
      }
      if q != k {
        forall i | 0 <= i < |m| && m[i].key == q ensures HasKey(r, q) {
          assert r[if i < n || r == m then i else i - 1] == m[i];
        }
      }
    }
  }

  // ----- the prefix scan -----

  /** How many entries from `from` on begin with the prefix, without a break. */
  function RunLength<V>(m: seq<Entry<V>>, from: nat, prefix: string): (n: nat)
    requires from <= |m|
    ensures from + n <= |m| && forall i :: from <= i < from + n ==> Begins(m[i].key, prefix)
    ensures from + n < |m| ==> !Begins(m[from + n].key, prefix)
    decreases |m| - from
  {
    if from == |m| || !Begins(m[from].key, prefix) then 0 else RunLength(m, from + 1, prefix) + 1
  }

  /** Scanning from the lower bound of a prefix for as long as keys begin with it finds exactly
      the keys that begin with it. */
  lemma ScanFindsThePrefix<V(!new)>(m: seq<Entry<V>>, prefix: string, i: nat)
    requires Sorted(m) && i < |m|
    ensures var from := LowerBound(m, prefix);
      Begins(m[i].key, prefix) <==> from <= i < from + RunLength(m, from, prefix)
  {
    var from := LowerBound(m, prefix);
    var end := from + RunLength(m, from, prefix);
    if Begins(m[i].key, prefix) {
      PrefixComesFirst(prefix, m[i].key);
      LessIsTotal(m[i].key, prefix);
    }
    if end <= i {
      LessIsTotal(m[end].key, prefix);
      assert AtMost(prefix, m[end].key) && AtMost(m[end].key, m[i].key);
      if Begins(m[i].key, prefix) {
        PrefixIsAnInterval(prefix, m[end].key, m[i].key);
        assert false;
      }
    }
  }

  /** A scan that has stopped: what it passed is exactly what begins with the prefix. */
  lemma ScanEnds<V(!new)>(m: seq<Entry<V>>, prefix: string, end: nat)
    requires Sorted(m) && LowerBound(m, prefix) <= end <= |m|
    requires forall k :: LowerBound(m, prefix) <= k < end ==> Begins(m[k].key, prefix)
    requires end < |m| ==> !Begins(m[end].key, prefix)
    ensures forall k :: 0 <= k < |m| ==> (Begins(m[k].key, prefix) <==> LowerBound(m, prefix) <= k < end)
  {
    var start := LowerBound(m, prefix);
    assert start + RunLength(m, start, prefix) == end;
    forall k | 0 <= k < |m| ensures Begins(m[k].key, prefix) <==> start <= k < end {
      ScanFindsThePrefix(m, prefix, k);
    }
  }
}
