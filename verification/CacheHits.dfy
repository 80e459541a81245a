/** What the shared cache answers: which reads it serves without the backing state, what a moved
    head makes it forget, and what a committed block leaves in it. */
module CacheHits {
  import opened Wrappers
  import opened ForkTree
  import opened LruMaps
  import opened StorageCaches
  import opened CachingStates

  // Reads

  /** A read answers from the state's own values; or, where that is allowed, from the shared
      entry, whatever the backing state holds; or else from the backing state, and remembers it. */
  lemma ReadTopPaths(c: CacheState, s: Session, truth: BlockState, k: Bytes, v: Option<Bytes>)
    requires Distinct(c.top.entries)
    ensures var o := ReadTop(c, s, truth, k);
            var allowed := Allowed(c.mods, s.block, Some(k), None);
            && (k in s.top ==> o.value == s.top[k] && o.session == s && o.cache == c)
            && (k !in s.top && allowed && (k, v) in c.top.entries ==> o.value == v && o.session == s)
            && (k !in s.top && (!allowed || forall e :: e in c.top.entries ==> e.0 != k) ==>
                  && o.value == (if k in truth.top then Some(truth.top[k]) else None)
                  && o.session == s.(top := s.top[k := o.value]))
  {
    if (k, v) in c.top.entries {
      LookupIs(c.top.entries, (k, v));
    }
  }

  lemma ReadHashPaths(c: CacheState, s: Session, truth: BlockState, k: Bytes, v: Option<ValueHash>)
    requires Distinct(c.hashes.entries)
    ensures var o := ReadHash(c, s, truth, k);
            var allowed := Allowed(c.mods, s.block, Some(k), None);
            && (k in s.hashes ==> o.value == s.hashes[k] && o.session == s && o.cache == c)
            && (k !in s.hashes && allowed && (k, v) in c.hashes.entries ==> o.value == v && o.session == s)
            && (k !in s.hashes && (!allowed || forall e :: e in c.hashes.entries ==> e.0 != k) ==>
                  && o.value == (if k in truth.top then Some(ValueHash(truth.top[k])) else None)
                  && o.session == s.(hashes := s.hashes[k := o.value]))
  {
    if (k, v) in c.hashes.entries {
      LookupIs(c.hashes.entries, (k, v));
    }
  }

  lemma ReadChildPaths(c: CacheState, s: Session, truth: BlockState, k: ChildKey, v: Option<Bytes>)
    requires Distinct(c.child.entries)
    ensures var o := ReadChild(c, s, truth, k);
            var allowed := Allowed(c.mods, s.block, None, Some(k));
            && (k in s.child ==> o.value == s.child[k] && o.session == s && o.cache == c)
            && (k !in s.child && allowed && (k, v) in c.child.entries ==> o.value == v && o.session == s)
            && (k !in s.child && (!allowed || forall e :: e in c.child.entries ==> e.0 != k) ==>
                  && o.value == (if k in truth.child then Some(truth.child[k]) else None)
                  && o.session == s.(child := s.child[k := o.value]))
  {
    if (k, v) in c.child.entries {
      LookupIs(c.child.entries, (k, v));
    }
  }

  lemma RefreshedLookup<K, V>(s: seq<(K, V)>, k: K)
    requires Distinct(s)
    ensures Lookup(Refreshed(s, k), k) == Lookup(s, k)
  {
    RefreshedEntries(s, k);
    if Lookup(s, k).Some? {
      LookupEntry(s, k);
      LookupIs(Refreshed(s, k), (k, Lookup(s, k).value));
    }
  }

  /** A key is fetched from the backing state at most once: read again, it has the same value
      whatever that state would say now. */
  lemma SecondReadIsCached(c: CacheState, s: Session, truth: BlockState, later: BlockState, k: Bytes)
    requires Distinct(c.top.entries)
    ensures var o := ReadTop(c, s, truth, k); ReadTop(o.cache, o.session, later, k).value == o.value
  {
    RefreshedLookup(c.top.entries, k);
  }

  lemma SecondHashReadIsCached(c: CacheState, s: Session, truth: BlockState, later: BlockState, k: Bytes)
    requires Distinct(c.hashes.entries)
    ensures var o := ReadHash(c, s, truth, k); ReadHash(o.cache, o.session, later, k).value == o.value
  {
    RefreshedLookup(c.hashes.entries, k);
  }

  lemma SecondChildReadIsCached(c: CacheState, s: Session, truth: BlockState, later: BlockState, k: ChildKey)
    requires Distinct(c.child.entries)
    ensures var o := ReadChild(c, s, truth, k); ReadChild(o.cache, o.session, later, k).value == o.value
  {
    RefreshedLookup(c.child.entries, k);
  }

  // Moved heads

  /** A listed block of the route changed the key. */
  ghost predicate TouchedTop(mods: seq<BlockChanges>, route: seq<Hash>, k: Bytes)
  {
    exists i :: 0 <= i < |mods| && mods[i].hash in route && k in mods[i].storage
  }

  ghost predicate TouchedChild(mods: seq<BlockChanges>, route: seq<Hash>, k: ChildKey)
  {
    exists i :: 0 <= i < |mods| && mods[i].hash in route && k in mods[i].childStorage
  }

  /** While every block of the route is listed, exactly the values they changed are forgotten,
      and exactly their marks are set. */
  lemma SyncedForgets(c: CacheState, enacted: seq<Hash>, retracted: seq<Hash>)
    requires forall h :: h in enacted || h in retracted ==> Listed(c.mods, h)
    ensures var r := Synced(c, enacted, retracted);
            && (forall e :: e in r.top.entries <==> e in c.top.entries && !TouchedTop(c.mods, enacted + retracted, e.0))
            && (forall e :: e in r.child.entries <==> e in c.child.entries && !TouchedChild(c.mods, enacted + retracted, e.0))
            && r.hashes == c.hashes && |r.mods| == |c.mods|
            && (forall i :: 0 <= i < |c.mods| ==>
                  && r.mods[i] == c.mods[i].(isCanon := r.mods[i].isCanon)
                  && (r.mods[i].isCanon <==> c.mods[i].hash !in retracted && (c.mods[i].hash in enacted || c.mods[i].isCanon)))
  {
    var gone := SetOf(enacted) + SetOf(retracted);
    var r := Synced(c, enacted, retracted);
    forall e ensures e in r.top.entries <==> e in c.top.entries && !TouchedTop(c.mods, enacted + retracted, e.0) {
      KeptMember(c.top.entries, TopKeys(c.mods, gone), e);
      TouchedTopKeys(c.mods, enacted, retracted, e.0);
    }
    forall e ensures e in r.child.entries <==> e in c.child.entries && !TouchedChild(c.mods, enacted + retracted, e.0) {
      KeptMember(c.child.entries, ChildKeys(c.mods, gone), e);
      TouchedChildKeys(c.mods, enacted, retracted, e.0);
    }
  }

  lemma KeptMember<K, V>(s: seq<(K, V)>, gone: set<K>, e: (K, V))
    ensures e in Kept(s, gone) <==> e in s && e.0 !in gone
  {
    KeptEntries(s, gone);
  }

  /** As soon as one is not, everything goes. */
  lemma SyncedWipes(c: CacheState, enacted: seq<Hash>, retracted: seq<Hash>, h: Hash)
    requires (h in enacted || h in retracted) && !Listed(c.mods, h)
    ensures var r := Synced(c, enacted, retracted);
            r.top.entries == [] && r.hashes.entries == [] && r.child.entries == [] && r.mods == []
  {
  }

  lemma TouchedTopKeys(mods: seq<BlockChanges>, enacted: seq<Hash>, retracted: seq<Hash>, k: Bytes)
    ensures k in TopKeys(mods, SetOf(enacted) + SetOf(retracted)) <==> TouchedTop(mods, enacted + retracted, k)
  {
    if TouchedTop(mods, enacted + retracted, k) {
      var i :| 0 <= i < |mods| && mods[i].hash in enacted + retracted && k in mods[i].storage;
      assert mods[i] in mods;
    }
  }

  lemma TouchedChildKeys(mods: seq<BlockChanges>, enacted: seq<Hash>, retracted: seq<Hash>, k: ChildKey)
    ensures k in ChildKeys(mods, SetOf(enacted) + SetOf(retracted)) <==> TouchedChild(mods, enacted + retracted, k)
  {
    if TouchedChild(mods, enacted + retracted, k) {
      var i :| 0 <= i < |mods| && mods[i].hash in enacted + retracted && k in mods[i].childStorage;
      assert mods[i] in mods;
    }
  }

  // Commits

  /** A committed block is listed with exactly the keys it changed, marked canonical exactly as
      the best block, and takes the last place of a full list of twelve. */
  lemma CommitLists(c: CacheState, number: nat, hash: Hash, parent: Hash, changes: Changes, isBest: bool)
    ensures var r, n := Commit(c, number, hash, parent, changes, isBest).mods, |c.mods|;
            && |r| == (if n == 12 then n else n + 1)
            && (forall i :: 0 <= i < n && !(n == 12 && i == 11) ==> c.mods[i] in r)
            && (exists m :: m in r && m.number == number && m.hash == hash && m.parent == parent && m.isCanon == isBest
                            && (forall k :: k in m.storage <==> exists i :: 0 <= i < |changes.top| && changes.top[i].0 == k)
                            && (forall k :: k in m.childStorage <==> ChangesChild(changes, k)))
  {
    var flat := FlatChild(changes.child);
    var m := BlockChanges(number, hash, parent, KeysOf(changes.top), KeysOf(flat), isBest);
    forall k ensures k in KeysOf(flat) <==> ChangesChild(changes, k) {
      ChildKeyChanged(changes, k);
    }
    InsertedKeeps(Trimmed(c.mods), m);
  }

  ghost predicate ChangesChild(changes: Changes, k: ChildKey)
  {
    exists t, i :: 0 <= t < |changes.child| && 0 <= i < |changes.child[t].1|
                   && changes.child[t].0 == k.0 && changes.child[t].1[i].0 == k.1
  }

  lemma ChildKeyChanged(changes: Changes, k: ChildKey)
    ensures k in KeysOf(FlatChild(changes.child)) <==> ChangesChild(changes, k)
  {
    var flat := FlatChild(changes.child);
    if k in KeysOf(flat) {
      var i :| 0 <= i < |flat| && flat[i].0 == k;
      FlatChildEntries(changes.child, flat[i]);
      var t :| 0 <= t < |changes.child| && changes.child[t].0 == k.0 && (k.1, flat[i].1) in changes.child[t].1;
      var j :| 0 <= j < |changes.child[t].1| && changes.child[t].1[j] == (k.1, flat[i].1);
    }
    if ChangesChild(changes, k) {
      var t, i :| 0 <= t < |changes.child| && 0 <= i < |changes.child[t].1|
                  && changes.child[t].0 == k.0 && changes.child[t].1[i].0 == k.1;
      var e := (k, changes.child[t].1[i].1);
      FlatChildEntries(changes.child, e);
      assert e in flat;
    }
  }

  lemma InsertedKeeps(mods: seq<BlockChanges>, m: BlockChanges)
    ensures |Inserted(mods, m)| == |mods| + 1 && m in Inserted(mods, m)
    ensures forall x :: x in mods ==> x in Inserted(mods, m)
  {
    var i := InsertionPoint(mods, m.number);
    assert mods == mods[..i] + mods[i..];
    assert Inserted(mods, m)[i] == m;
  }

  /** There is room for the given values beside the entries. */
  ghost predicate Room<K, V>(lru: Lru<K, V>, a: seq<(K, V)>, b: seq<(K, V)>)
  {
    && Distinct(lru.entries)
    && Total(lru.entries, lru.keySize, lru.valueSize) + Total(a, lru.keySize, lru.valueSize) + Total(b, lru.keySize, lru.valueSize) <= lru.limit
  }

  lemma AddedInTurn<K, V>(lru: Lru<K, V>, a: seq<(K, V)>, b: seq<(K, V)>, k: K)
    requires Room(lru, a, b)
    ensures Lookup(AddAll(AddAll(lru, a), b).entries, k) == LastOr(b, k, LastOr(a, k, Lookup(lru.entries, k)))
  {
    AddAllWithRoom(lru, a, k);
    AddAllKeepsLimits(lru, a);
    AddAllWithRoom(AddAll(lru, a), b, k);
  }

  lemma {:induction false} KeptLookup<K, V>(s: seq<(K, V)>, gone: set<K>, k: K)
    requires Distinct(s)
    ensures Lookup(Kept(s, gone), k) == if k in gone then None else Lookup(s, k)
  {
    KeptEntries(s, gone);
    KeptDistinct(s, gone);
    LookupEntry(s, k);
    LookupEntry(Kept(s, gone), k);
    if k !in gone && Lookup(s, k).Some? {
      LookupIs(Kept(s, gone), (k, Lookup(s, k).value));
    }
  }

  /** After the best block is committed, and with room for it, the cache holds for every key the
      block's last change, else what the state had read itself, else what it held after the head
      moved; of hashes, the changed keys' are gone. */
  lemma BestCommitFills(c: CacheState, block: Hash, d: Drained, enacted: seq<Hash>, retracted: seq<Hash>, changes: Changes,
                        hash: Hash, number: nat, k: Bytes, ck: ChildKey)
    requires var c1 := Synced(c, Dropped(Some(hash), enacted), retracted);
             Room(c1.top, d.top, changes.top) && Room(c1.hashes, d.hashes, []) && Room(c1.child, d.child, FlatChild(changes.child))
    ensures var c1 := Synced(c, Dropped(Some(hash), enacted), retracted);
            var r := SyncedCache(c, Some(block), d, enacted, retracted, changes, Some(hash), Some(number), true);
            && Lookup(r.top.entries, k) == LastOr(changes.top, k, LastOr(d.top, k, Lookup(c1.top.entries, k)))
            && Lookup(r.child.entries, ck) == LastOr(FlatChild(changes.child), ck, LastOr(d.child, ck, Lookup(c1.child.entries, ck)))
            && Lookup(r.hashes.entries, k) ==
               if exists i :: 0 <= i < |changes.top| && changes.top[i].0 == k then None else LastOr(d.hashes, k, Lookup(c1.hashes.entries, k))
  {
    var c1 := Synced(c, Dropped(Some(hash), enacted), retracted);
    AddedInTurn(c1.top, d.top, changes.top, k);
    AddedInTurn(c1.child, d.child, FlatChild(changes.child), ck);
    AddAllWithRoom(c1.hashes, d.hashes, k);
    KeptLookup(AddAll(c1.hashes, d.hashes).entries, KeysOf(changes.top), k);
  }
}
