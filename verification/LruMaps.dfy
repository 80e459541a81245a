/** The size-limited, recency-ordered map behind every shared cache. */
module LruMaps {
  import opened Wrappers

  /** The contents of such a map: entries from least to most recently used, the size limit,
      the size estimates of keys and values, and whether replacing a value refreshes its entry,
      which is up to the underlying map. */
  datatype Lru<!K, !V> = Lru(entries: seq<(K, V)>, limit: nat, keySize: K -> nat, valueSize: V -> nat, moves: bool)

  predicate Distinct<K(==), V>(s: seq<(K, V)>)
  {
    forall i, j :: 0 <= i < j < |s| ==> s[i].0 != s[j].0
  }

  /** The position of `k`, or the length when absent. */
  function IndexOf<K(==), V>(s: seq<(K, V)>, k: K): (i: nat)
    ensures i <= |s|
    ensures i < |s| ==> s[i].0 == k
    ensures forall j :: 0 <= j < i ==> s[j].0 != k
  {
    if s == [] then 0
    else if s[0].0 == k then 0
    else 1 + IndexOf(s[1..], k)
  }

  function Without<K(==), V>(s: seq<(K, V)>, k: K): seq<(K, V)>
  {
    var i := IndexOf(s, k);
    if i < |s| then s[..i] + s[i + 1..] else s
  }

  function Lookup<K(==), V>(s: seq<(K, V)>, k: K): Option<V>
  {
    var i := IndexOf(s, k);
    if i < |s| then Some(s[i].1) else None
  }

  function Refreshed<K(==), V>(s: seq<(K, V)>, k: K): seq<(K, V)>
  {
    var i := IndexOf(s, k);
    if i < |s| then s[..i] + s[i + 1..] + [s[i]] else s
  }

  /** Replaces or appends as most recent; `moves` says whether replacing refreshes as well. */
  function Put<K(==), V>(s: seq<(K, V)>, k: K, v: V, moves: bool): seq<(K, V)>
  {
    var i := IndexOf(s, k);
    if i == |s| then s + [(k, v)]
    else if moves then Refreshed(s[i := (k, v)], k)
    else s[i := (k, v)]
  }

  /** The sum of the estimated sizes of all keys and values. */
  function Total<K, V>(s: seq<(K, V)>, keySize: K -> nat, valueSize: V -> nat): nat
  {
    if s == [] then 0 else keySize(s[0].0) + valueSize(s[0].1) + Total(s[1..], keySize, valueSize)
  }

  /** The least eviction, oldest first, that brings the total within the limit. */
  function Shrunk<K, V>(s: seq<(K, V)>, limit: nat, keySize: K -> nat, valueSize: V -> nat): seq<(K, V)>
  {
    if s == [] || Total(s, keySize, valueSize) <= limit then s else Shrunk(s[1..], limit, keySize, valueSize)
  }

  function Add<K(==), V>(lru: Lru<K, V>, k: K, v: V): Lru<K, V>
  {
    lru.(entries := Shrunk(Put(lru.entries, k, v, lru.moves), lru.limit, lru.keySize, lru.valueSize))
  }

  function AddAll<K(==), V>(lru: Lru<K, V>, s: seq<(K, V)>): Lru<K, V>
    decreases |s|
  {
    if s == [] then lru else AddAll(Add(lru, s[0].0, s[0].1), s[1..])
  }

  lemma {:induction false} AddAllSnoc<K, V>(lru: Lru<K, V>, s: seq<(K, V)>, e: (K, V))
    ensures AddAll(lru, s + [e]) == Add(AddAll(lru, s), e.0, e.1)
    decreases |s|
  {
    if s == [] {
      assert s + [e] == [e];
    } else {
      assert (s + [e])[1..] == s[1..] + [e];
      AddAllSnoc(Add(lru, s[0].0, s[0].1), s[1..], e);
    }
  }

  /** The entries whose keys are not in `gone`, in their old order. */
  function Kept<K(==), V>(s: seq<(K, V)>, gone: set<K>): seq<(K, V)>
  {
    if s == [] then []
    else (if s[0].0 in gone then [] else [s[0]]) + Kept(s[1..], gone)
  }

  lemma {:induction false} KeptEntries<K, V>(s: seq<(K, V)>, gone: set<K>)
    ensures forall e :: e in Kept(s, gone) <==> e in s && e.0 !in gone
  {
    if s != [] {
      KeptEntries(s[1..], gone);
      assert s == [s[0]] + s[1..];
    }
  }

  lemma {:induction false} KeptFrom<K, V>(s: seq<(K, V)>, gone: set<K>, e: (K, V))
    requires e in Kept(s, gone)
    ensures e in s && e.0 !in gone
  {
    if e != s[0] || s[0].0 in gone {
      KeptFrom(s[1..], gone, e);
    }
  }

  lemma {:induction false} KeptDistinct<K, V>(s: seq<(K, V)>, gone: set<K>)
    requires Distinct(s)
    ensures Distinct(Kept(s, gone))
  {
    if s != [] {
      KeptDistinct(s[1..], gone);
      KeptEntries(s[1..], gone);
      var rest := Kept(s[1..], gone);
      forall i | 0 <= i < |rest| ensures rest[i].0 != s[0].0 {
        KeptFrom(s[1..], gone, rest[i]);
      }
    }
  }

  lemma {:induction false} KeptNothing<K, V>(s: seq<(K, V)>)
    ensures Kept(s, {}) == s
  {
    if s != [] {
      KeptNothing(s[1..]);
    }
  }

  lemma {:induction false} KeptTwice<K, V>(s: seq<(K, V)>, a: set<K>, b: set<K>)
    ensures Kept(Kept(s, a), b) == Kept(s, a + b)
  {
    if s != [] {
      KeptTwice(s[1..], a, b);
      var head: seq<(K, V)> := if s[0].0 in a then [] else [s[0]];
      assert (head + Kept(s[1..], a))[|head|..] == Kept(s[1..], a);
    }
  }

  lemma {:induction false} KeptWithout<K, V>(s: seq<(K, V)>, k: K)
    requires Distinct(s)
    ensures Kept(s, {k}) == Without(s, k)
  {
    if s != [] {
      if s[0].0 == k {
        KeptAll(s[1..], {k});
      } else {
        KeptWithout(s[1..], k);
        WithoutTail(s, k);
      }
    }
  }

  lemma WithoutTail<K, V>(s: seq<(K, V)>, k: K)
    requires s != [] && s[0].0 != k
    ensures Without(s, k) == [s[0]] + Without(s[1..], k)
  {
    var i := IndexOf(s[1..], k);
    if i < |s[1..]| {
      assert s[..i + 1] == [s[0]] + s[1..][..i];
    }
  }

  lemma {:induction false} KeptAll<K, V>(s: seq<(K, V)>, gone: set<K>)
    requires forall e :: e in s ==> e.0 !in gone
    ensures Kept(s, gone) == s
  {
    if s != [] {
      KeptAll(s[1..], gone);
    }
  }

  /** `order` lists exactly the entries of `m`, each once. */
  ghost predicate IsOrderOf<K(!new), V(!new)>(order: seq<(K, V)>, m: map<K, V>)
  {
    && Distinct(order)
    && forall e :: e in order <==> e.0 in m && m[e.0] == e.1
  }

  // What eviction removes

  /** Eviction drops a prefix of the recency order, and no shorter prefix would have done. */
  lemma {:induction false} ShrunkIsLeastSuffix<K, V>(s: seq<(K, V)>, limit: nat, keySize: K -> nat, valueSize: V -> nat)
    returns (n: nat)
    ensures n <= |s| && Shrunk(s, limit, keySize, valueSize) == s[n..]
    ensures Total(s[n..], keySize, valueSize) <= limit
    ensures forall m :: 0 <= m < n ==> Total(s[m..], keySize, valueSize) > limit
    decreases |s|
  {
    if s == [] || Total(s, keySize, valueSize) <= limit {
      n := 0;
      assert s[0..] == s;
    } else {
      var k := ShrunkIsLeastSuffix(s[1..], limit, keySize, valueSize);
      n := k + 1;
      assert s[1..][k..] == s[n..];
      forall m | 0 <= m < n ensures Total(s[m..], keySize, valueSize) > limit {
        if m == 0 {
          assert s[0..] == s;
        } else {
          assert s[1..][m - 1..] == s[m..];
        }
      }
    }
  }

  lemma {:induction false} TotalConcat<K, V>(a: seq<(K, V)>, b: seq<(K, V)>, keySize: K -> nat, valueSize: V -> nat)
    ensures Total(a + b, keySize, valueSize) == Total(a, keySize, valueSize) + Total(b, keySize, valueSize)
    decreases |a|
  {
    if a == [] {
      assert a + b == b;
    } else {
      assert (a + b)[1..] == a[1..] + b;
      TotalConcat(a[1..], b, keySize, valueSize);
    }
  }

  lemma TotalAt<K, V>(s: seq<(K, V)>, i: nat, keySize: K -> nat, valueSize: V -> nat)
    requires i < |s|
    ensures Total(s, keySize, valueSize) ==
            Total(s[..i], keySize, valueSize) + keySize(s[i].0) + valueSize(s[i].1) + Total(s[i + 1..], keySize, valueSize)
  {
    var tail := [s[i]] + s[i + 1..];
    assert s == s[..i] + tail && tail[1..] == s[i + 1..];
    TotalConcat(s[..i], tail, keySize, valueSize);
  }

  // Which key-value pairs each operation can leave behind

  lemma TotalRefreshed<K, V>(s: seq<(K, V)>, k: K, keySize: K -> nat, valueSize: V -> nat)
    ensures Total(Refreshed(s, k), keySize, valueSize) == Total(s, keySize, valueSize)
  {
    var i := IndexOf(s, k);
    if i < |s| {
      TotalAt(s, i, keySize, valueSize);
      TotalConcat(s[..i], s[i + 1..], keySize, valueSize);
      TotalConcat(s[..i] + s[i + 1..], [s[i]], keySize, valueSize);
    }
  }

  lemma WithoutEntries<K, V>(s: seq<(K, V)>, k: K)
    requires Distinct(s)
    ensures Distinct(Without(s, k))
    ensures forall e :: e in Without(s, k) <==> e in s && e.0 != k
  {
    var i := IndexOf(s, k);
    if i < |s| {
      assert s == s[..i] + [s[i]] + s[i + 1..];
    }
  }

  lemma AppendEntry<K, V>(s: seq<(K, V)>, x: (K, V))
    requires Distinct(s) && forall e :: e in s ==> e.0 != x.0
    ensures Distinct(s + [x])
    ensures forall e :: e in s + [x] <==> e in s || e == x
  {
    var t := s + [x];
    forall i, j | 0 <= i < j < |t| ensures t[i].0 != t[j].0 {
      assert t[i] in s;
    }
  }

  lemma RefreshedEntries<K, V>(s: seq<(K, V)>, k: K)
    requires Distinct(s)
    ensures Distinct(Refreshed(s, k))
    ensures forall e :: e in Refreshed(s, k) <==> e in s
  {
    var i := IndexOf(s, k);
    if i < |s| {
      var x := s[i];
      WithoutEntries(s, k);
      AppendEntry(Without(s, k), x);
      forall e | e in s && e.0 == k ensures e == x {
        var j :| 0 <= j < |s| && s[j] == e;
      }
    }
  }

  lemma ReplacedEntries<K, V>(s: seq<(K, V)>, k: K, v: V)
    requires Distinct(s) && IndexOf(s, k) < |s|
    ensures Distinct(s[IndexOf(s, k) := (k, v)])
    ensures forall e :: e in s[IndexOf(s, k) := (k, v)] <==> e == (k, v) || (e in s && e.0 != k)
  {
    var i := IndexOf(s, k);
    var p := s[i := (k, v)];
    assert p[i] == (k, v);
    forall e | e in s && e.0 != k ensures e in p {
      var j :| 0 <= j < |s| && s[j] == e;
      assert p[j] == e;
    }
  }

  lemma PutEntries<K, V>(s: seq<(K, V)>, k: K, v: V, moves: bool)
    requires Distinct(s)
    ensures Distinct(Put(s, k, v, moves))
    ensures forall e :: e in Put(s, k, v, moves) <==> e == (k, v) || (e in s && e.0 != k)
  {
    var i := IndexOf(s, k);
    if i < |s| {
      ReplacedEntries(s, k, v);
      RefreshedEntries(s[i := (k, v)], k);
    } else {
      AppendEntry(s, (k, v));
    }
  }

  lemma ShrunkEntries<K, V>(s: seq<(K, V)>, limit: nat, keySize: K -> nat, valueSize: V -> nat)
    requires Distinct(s)
    ensures Distinct(Shrunk(s, limit, keySize, valueSize))
    ensures forall e :: e in Shrunk(s, limit, keySize, valueSize) ==> e in s
  {
    var n := ShrunkIsLeastSuffix(s, limit, keySize, valueSize);
  }

  lemma AddEntries<K, V>(lru: Lru<K, V>, k: K, v: V)
    requires Distinct(lru.entries)
    ensures Distinct(Add(lru, k, v).entries)
    ensures forall e :: e in Add(lru, k, v).entries ==> e == (k, v) || (e in lru.entries && e.0 != k)
  {
    PutEntries(lru.entries, k, v, lru.moves);
    ShrunkEntries(Put(lru.entries, k, v, lru.moves), lru.limit, lru.keySize, lru.valueSize);
  }

  lemma LookupEntry<K, V>(s: seq<(K, V)>, k: K)
    requires Distinct(s)
    ensures Lookup(s, k).Some? ==> (k, Lookup(s, k).value) in s
    ensures Lookup(s, k).None? ==> forall e :: e in s ==> e.0 != k
  {
  }

  // The order of use

  /** Both keys are present and `a` was used less recently than `b`. */
  predicate Older<K(==), V>(s: seq<(K, V)>, a: K, b: K)
  {
    IndexOf(s, a) < IndexOf(s, b) < |s|
  }

  lemma IndexIs<K, V>(s: seq<(K, V)>, i: nat)
    requires Distinct(s) && i < |s|
    ensures IndexOf(s, s[i].0) == i
  {
  }

  /** `r` is `s` with the entry at `i` moved to the end. */
  ghost predicate MovedToEnd<K, V>(s: seq<(K, V)>, i: nat, r: seq<(K, V)>)
  {
    && i < |s| == |r|
    && (forall j :: 0 <= j < i ==> r[j] == s[j])
    && (forall j :: i < j < |s| ==> r[j - 1] == s[j])
    && r[|s| - 1] == s[i]
  }

  lemma MovedIndex<K, V>(s: seq<(K, V)>, i: nat, r: seq<(K, V)>, a: K)
    requires MovedToEnd(s, i, r) && a != s[i].0
    ensures IndexOf(r, a) == if i < IndexOf(s, a) < |s| then IndexOf(s, a) - 1 else IndexOf(s, a)
  {
    var p, q := IndexOf(s, a), IndexOf(r, a);
    if p < i {
      assert r[p] == s[p];
    } else if p < |s| {
      assert r[p - 1] == s[p];
    }
    if q < i {
      assert r[q] == s[q];
    } else if q < |s| - 1 {
      assert r[q + 1 - 1] == s[q + 1];
    }
  }

  lemma RefreshedMoves<K, V>(s: seq<(K, V)>, k: K, i: nat)
    requires i == IndexOf(s, k) < |s|
    ensures MovedToEnd(s, i, Refreshed(s, k))
  {
    var r := Refreshed(s, k);
    assert r == s[..i] + s[i + 1..] + [s[i]];
    MovedSlices(s, i);
  }

  lemma MovedSlices<K, V>(s: seq<(K, V)>, i: nat)
    requires i < |s|
    ensures MovedToEnd(s, i, s[..i] + s[i + 1..] + [s[i]])
  {
  }

  lemma MovedOrder<K, V>(s: seq<(K, V)>, i: nat, r: seq<(K, V)>, a: K, b: K)
    requires MovedToEnd(s, i, r) && a != s[i].0 && b != s[i].0
    ensures Older(r, a, b) <==> Older(s, a, b)
  {
    MovedIndex(s, i, r, a);
    MovedIndex(s, i, r, b);
  }

  /** Reading an entry makes it the most recently used and keeps the order of all others. */
  lemma RefreshedOrder<K, V>(s: seq<(K, V)>, k: K, a: K, b: K)
    ensures IndexOf(s, k) < |s| ==> MovedToEnd(s, IndexOf(s, k), Refreshed(s, k))
    ensures IndexOf(s, k) == |s| ==> Refreshed(s, k) == s
    ensures a != k && b != k ==> (Older(Refreshed(s, k), a, b) <==> Older(s, a, b))
  {
    var i := IndexOf(s, k);
    if i < |s| {
      RefreshedMoves(s, k, i);
      if a != k && b != k {
        MovedOrder(s, i, Refreshed(s, k), a, b);
      }
    }
  }

  lemma ReplacedIndex<K, V>(s: seq<(K, V)>, i: nat, v: V, a: K)
    requires Distinct(s) && i < |s|
    ensures var p := s[i := (s[i].0, v)]; Distinct(p) && IndexOf(p, a) == IndexOf(s, a)
  {
    var p, j := s[i := (s[i].0, v)], IndexOf(s, a);
    if j < |s| {
      assert p[j].0 == a;
      IndexIs(p, j);
    }
  }

  lemma NewEntryOrder<K, V>(s: seq<(K, V)>, e: (K, V), a: K, b: K)
    requires IndexOf(s, e.0) == |s| && a != e.0 && b != e.0
    ensures Older(s + [e], a, b) <==> Older(s, a, b)
  {
    AppendedIndex(s, e, a);
    AppendedIndex(s, e, b);
  }

  lemma ReplacedOrder<K, V>(s: seq<(K, V)>, k: K, v: V, a: K, b: K)
    requires Distinct(s) && IndexOf(s, k) < |s|
    ensures var p := s[IndexOf(s, k) := (k, v)]; Distinct(p) && IndexOf(p, k) == IndexOf(s, k) && (Older(p, a, b) <==> Older(s, a, b))
  {
    ReplacedIndex(s, IndexOf(s, k), v, a);
    ReplacedIndex(s, IndexOf(s, k), v, b);
    ReplacedIndex(s, IndexOf(s, k), v, k);
  }

  /** A new entry is the most recently used, and so is a replaced one where replacing counts
      as a use; every other entry keeps its place in the order. */
  lemma PutOrder<K, V>(s: seq<(K, V)>, k: K, v: V, moves: bool, a: K, b: K)
    requires Distinct(s)
    ensures var p := Put(s, k, v, moves);
            && p != []
            && (moves || IndexOf(s, k) == |s| ==> p[|p| - 1] == (k, v))
            && (!moves && IndexOf(s, k) < |s| ==> |p| == |s| && p[IndexOf(s, k)] == (k, v) && (Older(p, a, b) <==> Older(s, a, b)))
            && (a != k && b != k ==> (Older(p, a, b) <==> Older(s, a, b)))
  {
    var i := IndexOf(s, k);
    if i < |s| {
      ReplacedOrder(s, k, v, a, b);
      if moves {
        RefreshedOrder(s[i := (k, v)], k, a, b);
      }
    } else if a != k && b != k {
      NewEntryOrder(s, (k, v), a, b);
    }
  }

  lemma AppendedIndex<K, V>(s: seq<(K, V)>, e: (K, V), a: K)
    requires a != e.0
    ensures IndexOf(s + [e], a) == if IndexOf(s, a) < |s| then IndexOf(s, a) else |s| + 1
  {
    var t, i := s + [e], IndexOf(s, a);
    if i < |s| {
      assert t[i] == s[i];
      assert forall j :: 0 <= j < i ==> t[j].0 != a;
    }
  }

  /** The entry used last is evicted last. */
  lemma LastUsedStays<K, V>(s: seq<(K, V)>, limit: nat, keySize: K -> nat, valueSize: V -> nat)
    requires s != []
    ensures var t := Shrunk(s, limit, keySize, valueSize);
            var (k, v) := s[|s| - 1];
            && (t != [] <==> keySize(k) + valueSize(v) <= limit)
            && (t != [] ==> t[|t| - 1] == (k, v))
  {
    var n := ShrunkIsLeastSuffix(s, limit, keySize, valueSize);
    var last := |s| - 1;
    TotalAt(s, last, keySize, valueSize);
    assert s[last..] == [s[last]] && s[last..][1..] == [];
    if n < |s| {
      TotalAt(s[n..], last - n, keySize, valueSize);
    }
  }

  /** A new value is cached whenever it fits on its own, and then unless it is only replaced in place. */
  lemma AddedIsCached<K, V>(lru: Lru<K, V>, k: K, v: V)
    requires Distinct(lru.entries) && lru.keySize(k) + lru.valueSize(v) <= lru.limit
    requires lru.moves || Lookup(lru.entries, k).None?
    ensures Lookup(Add(lru, k, v).entries, k) == Some(v)
  {
    var p := Put(lru.entries, k, v, lru.moves);
    PutOrder(lru.entries, k, v, lru.moves, k, k);
    AddEntries(lru, k, v);
    LastUsedStays(p, lru.limit, lru.keySize, lru.valueSize);
    var t := Add(lru, k, v).entries;
    IndexIs(t, |t| - 1);
  }

  // Adding with room for everything

  lemma PutTotal<K, V>(s: seq<(K, V)>, k: K, v: V, moves: bool, keySize: K -> nat, valueSize: V -> nat)
    ensures Total(Put(s, k, v, moves), keySize, valueSize) <= Total(s, keySize, valueSize) + keySize(k) + valueSize(v)
  {
    var i := IndexOf(s, k);
    if i < |s| {
      var p := s[i := (k, v)];
      TotalAt(s, i, keySize, valueSize);
      TotalAt(p, i, keySize, valueSize);
      assert p[..i] == s[..i] && p[i + 1..] == s[i + 1..];
      TotalRefreshed(p, k, keySize, valueSize);
    } else {
      TotalConcat(s, [(k, v)], keySize, valueSize);
    }
  }

  lemma LookupIs<K, V>(s: seq<(K, V)>, e: (K, V))
    requires Distinct(s) && e in s
    ensures Lookup(s, e.0) == Some(e.1)
  {
    var i :| 0 <= i < |s| && s[i] == e;
    IndexIs(s, i);
  }

  /** With room nothing is evicted: the new value is there, and every other one as before. */
  lemma AddedWithRoom<K, V>(lru: Lru<K, V>, k: K, v: V, a: K)
    requires Distinct(lru.entries)
    requires Total(lru.entries, lru.keySize, lru.valueSize) + lru.keySize(k) + lru.valueSize(v) <= lru.limit
    ensures var t := Add(lru, k, v).entries;
            && Distinct(t) && Lookup(t, a) == (if a == k then Some(v) else Lookup(lru.entries, a))
            && Total(t, lru.keySize, lru.valueSize) <= Total(lru.entries, lru.keySize, lru.valueSize) + lru.keySize(k) + lru.valueSize(v)
  {
    var t := Add(lru, k, v).entries;
    PutTotal(lru.entries, k, v, lru.moves, lru.keySize, lru.valueSize);
    PutEntries(lru.entries, k, v, lru.moves);
    assert t == Put(lru.entries, k, v, lru.moves);
    if a == k {
      LookupIs(t, (k, v));
    } else {
      LookupEntry(t, a);
      LookupEntry(lru.entries, a);
      if Lookup(lru.entries, a).Some? {
        LookupIs(t, (a, Lookup(lru.entries, a).value));
      }
    }
  }

  /** The value of the last pair with key `k`, or `otherwise`. */
  function LastOr<K(==), V>(s: seq<(K, V)>, k: K, otherwise: Option<V>): Option<V>
  {
    if s == [] then otherwise
    else if s[|s| - 1].0 == k then Some(s[|s| - 1].1)
    else LastOr(s[..|s| - 1], k, otherwise)
  }

  lemma {:induction false} LastOrNone<K, V>(s: seq<(K, V)>, k: K, otherwise: Option<V>)
    requires forall i :: 0 <= i < |s| ==> s[i].0 != k
    ensures LastOr(s, k, otherwise) == otherwise
    decreases |s|
  {
    if s != [] {
      LastOrNone(s[..|s| - 1], k, otherwise);
    }
  }

  lemma {:induction false} LastOrAt<K, V>(s: seq<(K, V)>, k: K, otherwise: Option<V>, i: nat)
    requires i < |s| && s[i].0 == k && forall j :: i < j < |s| ==> s[j].0 != k
    ensures LastOr(s, k, otherwise) == Some(s[i].1)
    decreases |s|
  {
    if i < |s| - 1 {
      LastOrAt(s[..|s| - 1], k, otherwise, i);
    }
  }

  /** With room for all of them, the last value given for each key is the one looked up. */
  lemma {:induction false} AddAllWithRoom<K, V>(lru: Lru<K, V>, s: seq<(K, V)>, a: K)
    requires Distinct(lru.entries)
    requires Total(lru.entries, lru.keySize, lru.valueSize) + Total(s, lru.keySize, lru.valueSize) <= lru.limit
    ensures var t := AddAll(lru, s).entries;
            && Distinct(t) && Lookup(t, a) == LastOr(s, a, Lookup(lru.entries, a))
            && Total(t, lru.keySize, lru.valueSize) <= Total(lru.entries, lru.keySize, lru.valueSize) + Total(s, lru.keySize, lru.valueSize)
    decreases |s|
  {
    if s != [] {
      var init, e := s[..|s| - 1], s[|s| - 1];
      assert s == init + [e];
      TotalConcat(init, [e], lru.keySize, lru.valueSize);
      AddAllWithRoom(lru, init, a);
      AddAllSnoc(lru, init, e);
      AddAllKeepsLimits(lru, init);
      AddedWithRoom(AddAll(lru, init), e.0, e.1, a);
    }
  }

  lemma {:induction false} AddAllKeepsLimits<K, V>(lru: Lru<K, V>, s: seq<(K, V)>)
    ensures AddAll(lru, s) == lru.(entries := AddAll(lru, s).entries)
    decreases |s|
  {
    if s != [] {
      AddAllKeepsLimits(Add(lru, s[0].0, s[0].1), s[1..]);
    }
  }

  /** The map itself, with its running size counter. */
  class LruMap<K(==), V> {
    var entries: seq<(K, V)>
    var used: nat
    const limit: nat
    const keySize: K -> nat
    const valueSize: V -> nat
    const moves: bool

    ghost predicate Valid()
      reads this
    {
      && Distinct(entries)
      && used == Total(entries, keySize, valueSize)
    }

    function Contents(): Lru<K, V>
      reads this
    {
      Lru(entries, limit, keySize, valueSize, moves)
    }

    constructor (limit: nat, keySize: K -> nat, valueSize: V -> nat, moves: bool)
      ensures Valid()
      ensures Contents() == Lru([], limit, keySize, valueSize, moves)
    {
      entries, used := [], 0;
      this.limit, this.keySize, this.valueSize, this.moves := limit, keySize, valueSize, moves;
    }

    method Remove(k: K)
      requires Valid()
      modifies this
      ensures Valid()
      ensures entries == Without(old(entries), k)
    {
      var i := IndexOf(entries, k);
      WithoutEntries(entries, k);
      if i < |entries| {
        TotalAt(entries, i, keySize, valueSize);
        TotalConcat(entries[..i], entries[i + 1..], keySize, valueSize);
        var v := entries[i].1;
        entries := entries[..i] + entries[i + 1..];
        used := used - keySize(k);
        used := used - valueSize(v);
      }
    }

    /** Removes the keys one by one, in any order. */
    method RemoveAll(keys: set<K>)
      requires Valid()
      modifies this
      ensures Valid()
      ensures entries == Kept(old(entries), keys)
    {
      var todo := keys;
      ghost var gone: set<K> := {};
      KeptNothing(entries);
      while todo != {}
        invariant Valid() && gone + todo == keys
        invariant entries == Kept(old(entries), gone)
        decreases todo
      {
        var k :| k in todo;
        KeptWithout(entries, k);
        KeptTwice(old(entries), gone, {k});
        Remove(k);
        todo, gone := todo - {k}, gone + {k};
      }
      assert gone == keys;
    }

    /** Counts the new value before discounting the replaced one, then evicts from the
        front until the limit holds again. */
    method Insert(k: K, v: V)
      requires Valid()
      modifies this
      ensures Valid() && used <= limit
      ensures Contents() == Add(old(Contents()), k, v)
    {
      AddEntries(Contents(), k, v);
      PutEntries(entries, k, v, moves);
      var i := IndexOf(entries, k);
      used := used + valueSize(v);
      if i < |entries| {
        TotalAt(entries, i, keySize, valueSize);
        TotalAt(entries[i := (k, v)], i, keySize, valueSize);
        used := used - valueSize(entries[i].1);
        entries := entries[i := (k, v)];
        if moves {
          TotalRefreshed(entries, k, keySize, valueSize);
          entries := Refreshed(entries, k);
        }
      } else {
        TotalConcat(entries, [(k, v)], keySize, valueSize);
        used := used + keySize(k);
        entries := entries + [(k, v)];
      }
      ghost var full := entries;
      while used > limit
        invariant Valid()
        invariant Shrunk(full, limit, keySize, valueSize) == Shrunk(entries, limit, keySize, valueSize)
        decreases |entries|
      {
        if entries == [] {
          break;
        }
        var (k', v') := entries[0];
        entries := entries[1..];
        used := used - keySize(k');
        used := used - valueSize(v');
      }
    }

    /** Reads an entry and marks it as most recently used. */
    method Get(k: K) returns (r: Option<V>)
      requires Valid()
      modifies this
      ensures Valid()
      ensures r == Lookup(old(entries), k)
      ensures entries == Refreshed(old(entries), k)
      ensures r.Some? ==> entries != [] && entries[|entries| - 1] == (k, r.value)
    {
      RefreshedEntries(entries, k);
      TotalRefreshed(entries, k, keySize, valueSize);
      r := Lookup(entries, k);
      entries := Refreshed(entries, k);
    }

    method Clear()
      requires Valid()
      modifies this
      ensures Valid() && entries == []
    {
      entries, used := [], 0;
    }
  }

  /** Moves every entry of an unordered map into the recency-ordered one. */
  method Drain<K(==, !new), V(!new)>(m: map<K, V>, lru: LruMap<K, V>) returns (ghost order: seq<(K, V)>)
    requires lru.Valid()
    modifies lru
    ensures lru.Valid()
    ensures IsOrderOf(order, m)
    ensures lru.Contents() == AddAll(old(lru.Contents()), order)
  {
    order := [];
    var rest := m;
    while rest != map[]
      invariant lru.Valid()
      invariant rest.Keys <= m.Keys && forall k :: k in rest ==> rest[k] == m[k]
      invariant Distinct(order) && forall e :: e in order <==> e.0 in m && m[e.0] == e.1 && e.0 !in rest
      invariant lru.Contents() == AddAll(old(lru.Contents()), order)
      decreases |rest|
    {
      var k :| k in rest;
      AddAllSnoc(old(lru.Contents()), order, (k, rest[k]));
      lru.Insert(k, rest[k]);
      order := order + [(k, rest[k])];
      rest := rest - {k};
    }
  }
}
