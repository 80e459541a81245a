/** Cache coherence: over every run of imports, reorganizations, head moves and disposals,
    a state opened at any block of any fork reads exactly that block's values. */
module CacheCoherence {
  import opened Wrappers
  import opened ForkTree
  import opened LruMaps
  import opened StorageCaches

  // True storage

  type Blocks = map<Block, BlockState>

  function Write<K>(m: map<K, Bytes>, k: K, v: Option<Bytes>): map<K, Bytes>
  {
    if v.Some? then m[k := v.value] else m - {k}
  }

  function Applied<K>(m: map<K, Bytes>, s: seq<(K, Option<Bytes>)>): map<K, Bytes>
    decreases |s|
  {
    if s == [] then m else Applied(Write(m, s[0].0, s[0].1), s[1..])
  }

  function ChildState(parent: BlockState, changes: Changes): BlockState
  {
    BlockState(Applied(parent.top, changes.top), Applied(parent.child, FlatChild(changes.child)))
  }

  /** The two states agree on the key being looked up. */
  predicate SameOn(a: BlockState, b: BlockState, key: Option<Bytes>, childKey: Option<ChildKey>)
  {
    && (key.Some? ==> Read(a.top, key.value) == Read(b.top, key.value))
    && (childKey.Some? ==> Read(a.child, childKey.value) == Read(b.child, childKey.value))
  }

  ghost predicate OnlyChanges<K(!new)>(a: map<K, Bytes>, b: map<K, Bytes>, keys: set<K>)
  {
    forall k :: k !in keys ==> Read(a, k) == Read(b, k)
  }

  lemma {:induction false} AppliedOnlyChanges<K(!new)>(m: map<K, Bytes>, s: seq<(K, Option<Bytes>)>)
    ensures OnlyChanges(m, Applied(m, s), KeysOf(s))
    decreases |s|
  {
    if s != [] {
      AppliedOnlyChanges(Write(m, s[0].0, s[0].1), s[1..]);
      assert KeysOf(s) == {s[0].0} + KeysOf(s[1..]) by {
        assert forall i :: 0 < i < |s| ==> s[i] == s[1..][i - 1];
      }
    }
  }

  /** The storage after a list of changes: the last change of each key, or what was there. */
  lemma {:induction false} AppliedIsLast<K>(m: map<K, Bytes>, s: seq<(K, Option<Bytes>)>, k: K)
    ensures Some(Read(Applied(m, s), k)) == LastOr(s, k, Some(Read(m, k)))
    decreases |s|
  {
    if s != [] {
      var init, e := s[..|s| - 1], s[|s| - 1];
      AppliedIsLast(m, init, k);
      AppliedSnoc(m, init, e);
      assert s == init + [e];
    }
  }

  lemma {:induction false} AppliedSnoc<K>(m: map<K, Bytes>, s: seq<(K, Option<Bytes>)>, e: (K, Option<Bytes>))
    ensures Applied(m, s + [e]) == Write(Applied(m, s), e.0, e.1)
    decreases |s|
  {
    if s == [] {
      assert s + [e] == [e] && [e][1..] == [];
    } else {
      assert (s + [e])[1..] == s[1..] + [e];
      AppliedSnoc(Write(m, s[0].0, s[0].1), s[1..], e);
    }
  }

  // What the cache must satisfy

  ghost predicate Agrees<K(!new)>(entries: seq<(K, Option<Bytes>)>, m: map<K, Bytes>)
  {
    && Distinct(entries)
    && forall e :: e in entries ==> e.1 == Read(m, e.0)
  }

  ghost predicate ClosedTree(blocks: Blocks)
  {
    forall b :: b in blocks && b.number > 0 ==> b.parent in blocks
  }

  /** A listed block is known, its key sets cover what it changed, and its mark is right. */
  ghost predicate ModOk(blocks: Blocks, head: Block, m: BlockChanges)
  {
    && m.hash in blocks && m.hash.number > 0 && m.hash.parent in blocks
    && m.number == m.hash.number && m.parent == m.hash.parent
    && OnlyChanges(blocks[m.hash.parent].top, blocks[m.hash].top, m.storage)
    && OnlyChanges(blocks[m.hash.parent].child, blocks[m.hash].child, m.childStorage)
    && (m.isCanon <==> OnChain(m.hash, head))
  }

  ghost predicate Descending(mods: seq<BlockChanges>)
  {
    forall i, j :: 0 <= i < j < |mods| ==> mods[i].number >= mods[j].number
  }

  /** No canonical block between a listed canonical block and the head is missing. */
  ghost predicate NoGap(head: Block, mods: seq<BlockChanges>)
  {
    forall i, n :: 0 <= i < |mods| && mods[i].isCanon && mods[i].number < n <= head.number ==>
      Listed(mods, AncestorAt(head, n))
  }

  ghost predicate ModsOk(blocks: Blocks, head: Block, mods: seq<BlockChanges>)
  {
    && DistinctHashes(mods)
    && Descending(mods)
    && (forall i :: 0 <= i < |mods| ==> ModOk(blocks, head, mods[i]))
    && NoGap(head, mods)
  }

  ghost predicate Coherent(blocks: Blocks, head: Block, c: CacheState)
  {
    && ClosedTree(blocks) && head in blocks
    && Agrees(c.top.entries, blocks[head].top)
    && Agrees(c.child.entries, blocks[head].child)
    && ModsOk(blocks, head, c.mods)
  }

  // Lookups are sound

  /** `y` is listed and did not touch the key. */
  ghost predicate Untouched(mods: seq<BlockChanges>, y: Hash, key: Option<Bytes>, childKey: Option<ChildKey>)
  {
    exists i :: 0 <= i < |mods| && mods[i].hash == y && !Touches(mods[i], key, childKey)
  }

  lemma {:induction false} UntouchedChain(blocks: Blocks, head: Block, mods: seq<BlockChanges>, x: Block, n: nat,
                                          key: Option<Bytes>, childKey: Option<ChildKey>)
    requires ClosedTree(blocks) && ModsOk(blocks, head, mods) && x in blocks && n <= x.number
    requires forall y :: OnChain(y, x) && n < y.number ==> Untouched(mods, y, key, childKey)
    ensures AncestorAt(x, n) in blocks && SameOn(blocks[x], blocks[AncestorAt(x, n)], key, childKey)
    decreases x.number
  {
    if n < x.number {
      assert Untouched(mods, x, key, childKey);
      var i :| 0 <= i < |mods| && mods[i].hash == x && !Touches(mods[i], key, childKey);
      assert ModOk(blocks, head, mods[i]);
      forall y | OnChain(y, x.parent) && n < y.number ensures Untouched(mods, y, key, childKey) {
        OnChainTransitive(y, x.parent, x);
      }
      UntouchedChain(blocks, head, mods, x.parent, n, key, childKey);
    }
  }

  /** The heart of the read path: a key that may be looked up has the head's value. */
  lemma {:induction false} AllowedMeansHeadValue(blocks: Blocks, head: Block, mods: seq<BlockChanges>, i: nat, cur: Block,
                                                 key: Option<Bytes>, childKey: Option<ChildKey>)
    requires ClosedTree(blocks) && head in blocks && ModsOk(blocks, head, mods)
    requires i <= |mods| && cur in blocks
    requires forall j :: 0 <= j < i ==> !Touches(mods[j], key, childKey)
    requires AllowedFrom(mods[i..], cur, key, childKey)
    ensures SameOn(blocks[cur], blocks[head], key, childKey)
    decreases |mods| - i
  {
    var m := mods[i];
    assert mods[i..][1..] == mods[i + 1..];
    assert ModOk(blocks, head, m);
    if m.hash == cur && m.isCanon {
      forall y | OnChain(y, head) && cur.number < y.number ensures Untouched(mods, y, key, childKey) {
        assert Listed(mods, AncestorAt(head, y.number));
        var j :| 0 <= j < |mods| && mods[j].hash == y;
        assert ModOk(blocks, head, mods[j]);
        assert j < i;
      }
      UntouchedChain(blocks, head, mods, head, cur.number, key, childKey);
    } else {
      AllowedMeansHeadValue(blocks, head, mods, i + 1, if m.hash == cur then cur.parent else cur, key, childKey);
    }
  }

  lemma AllowedSound(blocks: Blocks, head: Block, c: CacheState, b: Block, key: Option<Bytes>, childKey: Option<ChildKey>)
    requires Coherent(blocks, head, c) && b in blocks
    requires Allowed(c.mods, Some(b), key, childKey)
    ensures SameOn(blocks[b], blocks[head], key, childKey)
  {
    assert c.mods[0..] == c.mods;
    AllowedMeansHeadValue(blocks, head, c.mods, 0, b, key, childKey);
  }

  // Moving the head

  lemma ListedEntry(mods: seq<BlockChanges>, h: Hash) returns (i: nat)
    requires Listed(mods, h)
    ensures i < |mods| && mods[i].hash == h && mods[i] in mods
  {
    i :| 0 <= i < |mods| && mods[i].hash == h;
  }

  /** A key no block of the move modified has the same value at both ends. */
  lemma UntouchedByMove(blocks: Blocks, a: Block, b: Block, mods: seq<BlockChanges>, key: Option<Bytes>, childKey: Option<ChildKey>)
    requires ClosedTree(blocks) && a in blocks && b in blocks && ModsOk(blocks, a, mods)
    requires AllListed(mods, Entering(a, b)) && AllListed(mods, Leaving(a, b))
    requires forall m :: m in mods && (m.hash in Entering(a, b) || m.hash in Leaving(a, b)) ==> !Touches(m, key, childKey)
    ensures SameOn(blocks[a], blocks[b], key, childKey)
  {
    var n := Common(a, b).number;
    forall y | OnChain(y, a) && n < y.number ensures Untouched(mods, y, key, childKey) {
      DownContains(a, n, y);
      var i := ListedEntry(mods, y);
    }
    forall y | OnChain(y, b) && n < y.number ensures Untouched(mods, y, key, childKey) {
      UpContains(b, n, y);
      var i := ListedEntry(mods, y);
    }
    UntouchedChain(blocks, a, mods, a, n, key, childKey);
    UntouchedChain(blocks, a, mods, b, n, key, childKey);
  }

  lemma FlaggedOk(blocks: Blocks, a: Block, b: Block, mods: seq<BlockChanges>)
    requires ClosedTree(blocks) && a in blocks && b in blocks && ModsOk(blocks, a, mods)
    requires AllListed(mods, Entering(a, b)) && AllListed(mods, Leaving(a, b))
    ensures ModsOk(blocks, b, Flagged(mods, SetOf(Entering(a, b)), SetOf(Leaving(a, b))))
  {
    var f := Flagged(mods, SetOf(Entering(a, b)), SetOf(Leaving(a, b)));
    forall i | 0 <= i < |f| ensures ModOk(blocks, b, f[i]) {
      assert ModOk(blocks, a, mods[i]);
      RouteMembers(a, b, mods[i].hash);
    }
    forall i, n | 0 <= i < |f| && f[i].isCanon && f[i].number < n <= b.number
      ensures Listed(f, AncestorAt(b, n))
    {
      var y := AncestorAt(b, n);
      RouteMembers(a, b, y);
      assert ModOk(blocks, b, f[i]) && ModOk(blocks, a, mods[i]);
      if OnChain(y, a) {
        OnChainComparable(mods[i].hash, y, b);
        OnChainTransitive(mods[i].hash, y, a);
        assert y == AncestorAt(a, n) && mods[i].isCanon;
      }
      assert Listed(mods, y);
      ListedUnflagged(mods, SetOf(Entering(a, b)), SetOf(Leaving(a, b)), y);
    }
  }

  lemma KeptAgrees<K(!new)>(entries: seq<(K, Option<Bytes>)>, gone: set<K>, a: map<K, Bytes>, b: map<K, Bytes>)
    requires Agrees(entries, a)
    requires forall k :: k !in gone ==> Read(a, k) == Read(b, k)
    ensures Agrees(Kept(entries, gone), b)
  {
    KeptEntries(entries, gone);
    KeptDistinct(entries, gone);
  }

  lemma UnmovedTop(blocks: Blocks, a: Block, b: Block, mods: seq<BlockChanges>, gone: set<Hash>, k: Bytes)
    requires ClosedTree(blocks) && a in blocks && b in blocks && ModsOk(blocks, a, mods)
    requires AllListed(mods, Entering(a, b)) && AllListed(mods, Leaving(a, b))
    requires gone == SetOf(Entering(a, b)) + SetOf(Leaving(a, b))
    requires k !in TopKeys(mods, gone)
    ensures Read(blocks[a].top, k) == Read(blocks[b].top, k)
  {
    UntouchedByMove(blocks, a, b, mods, Some(k), None);
  }

  lemma UnmovedChild(blocks: Blocks, a: Block, b: Block, mods: seq<BlockChanges>, gone: set<Hash>, k: ChildKey)
    requires ClosedTree(blocks) && a in blocks && b in blocks && ModsOk(blocks, a, mods)
    requires AllListed(mods, Entering(a, b)) && AllListed(mods, Leaving(a, b))
    requires gone == SetOf(Entering(a, b)) + SetOf(Leaving(a, b))
    requires k !in ChildKeys(mods, gone)
    ensures Read(blocks[a].child, k) == Read(blocks[b].child, k)
  {
    UntouchedByMove(blocks, a, b, mods, None, Some(k));
  }

  /** Synchronizing along the route between two heads keeps the cache coherent. */
  lemma SyncKeepsCoherence(blocks: Blocks, a: Block, b: Block, c: CacheState)
    requires Coherent(blocks, a, c) && b in blocks
    ensures Coherent(blocks, b, Synced(c, Entering(a, b), Leaving(a, b)))
  {
    var enacted, retracted := Entering(a, b), Leaving(a, b);
    if AllListed(c.mods, enacted) && AllListed(c.mods, retracted) {
      var gone := SetOf(enacted) + SetOf(retracted);
      assert Agrees(Kept(c.top.entries, TopKeys(c.mods, gone)), blocks[b].top) by {
        forall k | k !in TopKeys(c.mods, gone) ensures Read(blocks[a].top, k) == Read(blocks[b].top, k) {
          UnmovedTop(blocks, a, b, c.mods, gone, k);
        }
        KeptAgrees(c.top.entries, TopKeys(c.mods, gone), blocks[a].top, blocks[b].top);
      }
      assert Agrees(Kept(c.child.entries, ChildKeys(c.mods, gone)), blocks[b].child) by {
        forall k | k !in ChildKeys(c.mods, gone) ensures Read(blocks[a].child, k) == Read(blocks[b].child, k) {
          UnmovedChild(blocks, a, b, c.mods, gone, k);
        }
        KeptAgrees(c.child.entries, ChildKeys(c.mods, gone), blocks[a].child, blocks[b].child);
      }
      FlaggedOk(blocks, a, b, c.mods);
    }
  }

  // Adding values

  lemma {:induction false} TrueValuesAgree<K(!new)>(lru: Lru<K, Option<Bytes>>, s: seq<(K, Option<Bytes>)>, m: map<K, Bytes>)
    requires Agrees(lru.entries, m)
    requires forall e :: e in s ==> e.1 == Read(m, e.0)
    ensures Agrees(AddAll(lru, s).entries, m)
    decreases |s|
  {
    if s != [] {
      AddEntries(lru, s[0].0, s[0].1);
      assert s[0] in s;
      TrueValuesAgree(Add(lru, s[0].0, s[0].1), s[1..], m);
    }
  }

  lemma {:induction false} ChangesAgree<K(!new)>(lru: Lru<K, Option<Bytes>>, s: seq<(K, Option<Bytes>)>, m: map<K, Bytes>)
    requires Agrees(lru.entries, m)
    ensures Agrees(AddAll(lru, s).entries, Applied(m, s))
    decreases |s|
  {
    if s != [] {
      AddEntries(lru, s[0].0, s[0].1);
      ChangesAgree(Add(lru, s[0].0, s[0].1), s[1..], Write(m, s[0].0, s[0].1));
    }
  }

  // Inserting a committed block

  lemma InsertedMembers(mods: seq<BlockChanges>, m: BlockChanges)
    ensures forall x :: x in Inserted(Trimmed(mods), m) ==> x == m || x in mods
    ensures m in Inserted(Trimmed(mods), m)
  {
  }

  lemma InsertedDescending(mods: seq<BlockChanges>, m: BlockChanges)
    requires Descending(mods)
    ensures Descending(Inserted(Trimmed(mods), m))
  {
  }

  /** Only a lowest block can be pushed out, so a block above a listed one survives. */
  lemma InsertedKeepsHigher(mods: seq<BlockChanges>, m: BlockChanges, low: BlockChanges, i: nat)
    requires Descending(mods) && i < |mods| && low in mods && mods[i].number > low.number
    ensures Listed(Inserted(Trimmed(mods), m), mods[i].hash)
  {
    var t := Trimmed(mods);
    var j :| 0 <= j < |mods| && mods[j] == low;
    assert i < j;
    var at := InsertionPoint(t, m.number);
    var r := Inserted(t, m);
    if i < at {
      assert r[i] == mods[i];
    } else {
      assert r[i + 1] == mods[i];
    }
  }

  lemma AncestorKnown(blocks: Blocks, b: Block, n: nat)
    requires ClosedTree(blocks) && b in blocks && n <= b.number
    ensures AncestorAt(b, n) in blocks
    decreases b.number
  {
    if n < b.number {
      AncestorKnown(blocks, b.parent, n);
    }
  }

  lemma UnknownUnlisted(blocks: Blocks, head: Block, mods: seq<BlockChanges>, b: Hash)
    requires ModsOk(blocks, head, mods) && b !in blocks
    ensures !Listed(mods, b)
  {
    forall i | 0 <= i < |mods| ensures mods[i].hash != b {
      assert ModOk(blocks, head, mods[i]);
    }
  }

  lemma HeadMoved(head: Block, head': Block, b: Block, x: Block)
    requires head' == head || (head' == b && b.number > 0 && b.parent == head)
    requires x != b
    ensures OnChain(x, head') <==> OnChain(x, head)
    ensures forall n :: 0 <= n <= head'.number && (head' == b ==> n < b.number) ==> AncestorAt(head', n) == AncestorAt(head, n)
  {
  }

  lemma ModSurvives(blocks: Blocks, head: Block, head': Block, b: Block, state: BlockState, m: BlockChanges)
    requires ModOk(blocks, head, m) && b !in blocks
    requires head' == head || (head' == b && b.number > 0 && b.parent == head)
    ensures ModOk(blocks[b := state], head', m)
  {
    HeadMoved(head, head', b, m.hash);
  }

  lemma InsertedNoGap(blocks: Blocks, head: Block, head': Block, b: Block, mods: seq<BlockChanges>, m: BlockChanges, i: nat, n: nat)
    requires ModsOk(blocks, head, mods) && b !in blocks
    requires head' == head || (head' == b && b.number > 0 && b.parent == head)
    requires m.hash == b && (m.isCanon ==> head' == b) && m.number == b.number
    requires i < |Inserted(Trimmed(mods), m)|
    requires Inserted(Trimmed(mods), m)[i].isCanon && Inserted(Trimmed(mods), m)[i].number < n <= head'.number
    ensures Listed(Inserted(Trimmed(mods), m), AncestorAt(head', n))
  {
    var r := Inserted(Trimmed(mods), m);
    InsertedMembers(mods, m);
    if head' == b && n == b.number {
      var k :| 0 <= k < |r| && r[k] == m;
      assert r[k].hash == b;
    } else {
      assert r[i] in r;
      var j :| 0 <= j < |mods| && mods[j] == r[i];
      HeadMoved(head, head', b, mods[j].hash);
      assert Listed(mods, AncestorAt(head, n));
      var y := ListedEntry(mods, AncestorAt(head, n));
      assert ModOk(blocks, head, mods[y]);
      InsertedKeepsHigher(mods, m, mods[j], y);
    }
  }

  /** Recording an imported block `b`: `head` is the head before, `head'` the head after. */
  lemma InsertedOk(blocks: Blocks, head: Block, head': Block, b: Block, state: BlockState, mods: seq<BlockChanges>, m: BlockChanges)
    requires ClosedTree(blocks) && head in blocks && ModsOk(blocks, head, mods)
    requires b !in blocks && b.number > 0 && b.parent in blocks
    requires head' == head || (head' == b && b.parent == head)
    requires ModOk(blocks[b := state], head', m) && m.hash == b
    ensures ModsOk(blocks[b := state], head', Inserted(Trimmed(mods), m))
  {
    var r := Inserted(Trimmed(mods), m);
    InsertedMembers(mods, m);
    InsertedDescending(mods, m);
    UnknownUnlisted(blocks, head, mods, b);
    InsertedDistinct(mods, m);
    forall i | 0 <= i < |r| ensures ModOk(blocks[b := state], head', r[i]) {
      assert r[i] in r;
      if r[i] != m {
        var j :| 0 <= j < |mods| && mods[j] == r[i];
        ModSurvives(blocks, head, head', b, state, mods[j]);
      }
    }
    if m.isCanon && head' != b {
      AncestorKnown(blocks, head, b.number);
    }
    forall i, n | 0 <= i < |r| && r[i].isCanon && r[i].number < n <= head'.number
      ensures Listed(r, AncestorAt(head', n))
    {
      InsertedNoGap(blocks, head, head', b, mods, m, i, n);
    }
  }
}
