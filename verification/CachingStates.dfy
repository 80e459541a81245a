/** A state opened at a block: reads go through its local values, then the shared cache,
    then the backing state; its values are handed to the shared cache when it is released. */
module CachingStates {
  import opened Wrappers
  import opened ForkTree
  import opened LruMaps
  import opened StorageCaches

  /** Walks the recent blocks from the newest, following `parent` down to a canonical one. */
  method IsAllowed(key: Option<Bytes>, childKey: Option<ChildKey>, block: Option<Hash>, mods: seq<BlockChanges>)
    returns (allowed: bool)
    ensures allowed == Allowed(mods, block, key, childKey)
    ensures DistinctHashes(mods) ==>
              (allowed <==> block.Some? && exists path :: WalkAllows(mods, 0, block.value, path, key, childKey))
  {
    if DistinctHashes(mods) {
      AllowedIff(mods, block, key, childKey);
    }
    if block.None? {
      return false;
    }
    var parent := block.value;
    for i := 0 to |mods|
      invariant Allowed(mods, block, key, childKey) == AllowedFrom(mods[i..], parent, key, childKey)
    {
      var m := mods[i];
      assert mods[i..][0] == m && mods[i..][1..] == mods[i + 1..];
      if m.hash == parent {
        if m.isCanon {
          return true;
        }
        parent := m.parent;
      }
      if key.Some? && key.value in m.storage {
        return false;
      }
      if childKey.Some? && childKey.value in m.childStorage {
        return false;
      }
    }
    return false;
  }

  /** Adds the values in order. */
  method InsertAll<K(==, !new), V(!new)>(s: seq<(K, V)>, lru: LruMap<K, V>)
    requires lru.Valid()
    modifies lru
    ensures lru.Valid()
    ensures lru.Contents() == AddAll(old(lru.Contents()), s)
  {
    for i := 0 to |s|
      invariant lru.Valid()
      invariant lru.Contents() == AddAll(old(lru.Contents()), s[..i])
    {
      assert s[..i + 1] == s[..i] + [s[i]];
      AddAllSnoc(old(lru.Contents()), s[..i], s[i]);
      lru.Insert(s[i].0, s[i].1);
    }
    assert s[..|s|] == s;
  }

  lemma {:induction false} QualifiedConcat(sk: Bytes, a: seq<(Bytes, Option<Bytes>)>, b: seq<(Bytes, Option<Bytes>)>)
    ensures Qualified(sk, a + b) == Qualified(sk, a) + Qualified(sk, b)
  {
    if a == [] {
      assert a + b == b;
    } else {
      assert (a + b)[1..] == a[1..] + b;
      QualifiedConcat(sk, a[1..], b);
    }
  }

  lemma {:induction false} FlatChildConcat(a: seq<(Bytes, seq<(Bytes, Option<Bytes>)>)>, b: seq<(Bytes, seq<(Bytes, Option<Bytes>)>)>)
    ensures FlatChild(a + b) == FlatChild(a) + FlatChild(b)
  {
    if a == [] {
      assert a + b == b;
    } else {
      assert (a + b)[1..] == a[1..] + b;
      FlatChildConcat(a[1..], b);
    }
  }

  lemma {:induction false} QualifiedAt(sk: Bytes, s: seq<(Bytes, Option<Bytes>)>)
    ensures |Qualified(sk, s)| == |s|
    ensures forall i :: 0 <= i < |s| ==> Qualified(sk, s)[i] == ((sk, s[i].0), s[i].1)
  {
    if s != [] {
      QualifiedAt(sk, s[1..]);
    }
  }

  /** The changes of trie `t` come right after those of the tries before it, in their order
      and with the trie's name added to each key; nothing else is listed. */
  lemma FlatChildAt(s: seq<(Bytes, seq<(Bytes, Option<Bytes>)>)>, t: nat)
    requires t < |s|
    ensures var flat, from := FlatChild(s), |FlatChild(s[..t])|;
            && from + |s[t].1| == |FlatChild(s[..t + 1])| <= |flat|
            && forall i :: 0 <= i < |s[t].1| ==> flat[from + i] == ((s[t].0, s[t].1[i].0), s[t].1[i].1)
  {
    QualifiedAt(s[t].0, s[t].1);
    var init, rest := s[..t], s[t + 1..];
    assert s[..t + 1] == init + [s[t]] && s == (init + [s[t]]) + rest;
    FlatChildConcat(init, [s[t]]);
    FlatChildConcat(init + [s[t]], rest);
    assert [s[t]][1..] == [] && FlatChild([s[t]]) == Qualified(s[t].0, s[t].1);
  }

  /** A child key is changed exactly when its trie's list has a change for it. */
  lemma {:induction false} FlatChildEntries(s: seq<(Bytes, seq<(Bytes, Option<Bytes>)>)>, e: (ChildKey, Option<Bytes>))
    ensures e in FlatChild(s) <==> exists t :: 0 <= t < |s| && s[t].0 == e.0.0 && (e.0.1, e.1) in s[t].1
  {
    if s != [] {
      FlatChildEntries(s[1..], e);
      QualifiedAt(s[0].0, s[0].1);
      assert forall t :: 0 < t < |s| ==> s[t] == s[1..][t - 1];
      assert e in Qualified(s[0].0, s[0].1) <==> s[0].0 == e.0.0 && (e.0.1, e.1) in s[0].1;
    }
  }

  /** Turns per-trie change lists into one list of qualified keys, keeping the order. */
  method Flatten(child: seq<(Bytes, seq<(Bytes, Option<Bytes>)>)>) returns (flat: seq<(ChildKey, Option<Bytes>)>)
    ensures flat == FlatChild(child)
  {
    flat := [];
    for i := 0 to |child|
      invariant flat == FlatChild(child[..i])
    {
      var (sk, s) := child[i];
      ghost var before := flat;
      for j := 0 to |s|
        invariant flat == before + Qualified(sk, s[..j])
      {
        assert s[..j + 1] == s[..j] + [s[j]];
        QualifiedConcat(sk, s[..j], [s[j]]);
        flat := flat + [((sk, s[j].0), s[j].1)];
      }
      assert s[..|s|] == s;
      assert child[..i + 1] == child[..i] + [child[i]];
      FlatChildConcat(child[..i], [child[i]]);
    }
    assert child[..|child|] == child;
  }

  method DropBlock(h: Option<Hash>, s: seq<Hash>) returns (others: seq<Hash>)
    ensures others == Dropped(h, s)
    ensures forall x :: x in others <==> x in s && h != Some(x)
  {
    others := [];
    for i := 0 to |s|
      invariant others == Dropped(h, s[..i])
      invariant forall x :: x in others <==> x in s[..i] && h != Some(x)
    {
      assert s[..i + 1] == s[..i] + [s[i]];
      DroppedSnoc(h, s[..i], s[i]);
      if h.None? || s[i] != h.value {
        others := others + [s[i]];
      }
    }
    assert s[..|s|] == s;
  }

  class CachingState {
    const shared: Cache
    const truth: BlockState
    const block: Option<Hash>
    var localTop: map<Bytes, Option<Bytes>>
    var localHashes: map<Bytes, Option<ValueHash>>
    var localChild: map<ChildKey, Option<Bytes>>

    function View(): Session
      reads this
    {
      Session(block, localTop, localHashes, localChild)
    }

    constructor (shared: Cache, truth: BlockState, block: Option<Hash>)
      ensures this.shared == shared && this.truth == truth
      ensures View() == Session(block, map[], map[], map[])
    {
      this.shared, this.truth, this.block := shared, truth, block;
      localTop, localHashes, localChild := map[], map[], map[];
    }

    method Storage(key: Bytes) returns (r: Option<Bytes>)
      requires shared.Valid()
      modifies this, shared.top
      ensures shared.Valid()
      ensures Outcome(r, shared.State(), View()) == ReadTop(old(shared.State()), old(View()), truth, key)
    {
      if key in localTop {
        return localTop[key];
      }
      var allowed := IsAllowed(Some(key), None, block, shared.mods);
      if allowed {
        var entry := shared.top.Get(key);
        if entry.Some? {
          return entry.value;
        }
      }
      r := Read(truth.top, key);
      localTop := localTop[key := r];
    }

    method StorageHash(key: Bytes) returns (r: Option<ValueHash>)
      requires shared.Valid()
      modifies this, shared.hashes
      ensures shared.Valid()
      ensures Outcome(r, shared.State(), View()) == ReadHash(old(shared.State()), old(View()), truth, key)
    {
      if key in localHashes {
        return localHashes[key];
      }
      var allowed := IsAllowed(Some(key), None, block, shared.mods);
      if allowed {
        var entry := shared.hashes.Get(key);
        if entry.Some? {
          return entry.value;
        }
      }
      r := HashAt(truth.top, key);
      localHashes := localHashes[key := r];
    }

    method ChildStorage(storageKey: Bytes, key: Bytes) returns (r: Option<Bytes>)
      requires shared.Valid()
      modifies this, shared.child
      ensures shared.Valid()
      ensures Outcome(r, shared.State(), View()) == ReadChild(old(shared.State()), old(View()), truth, (storageKey, key))
    {
      var k := (storageKey, key);
      if k in localChild {
        return localChild[k];
      }
      var allowed := IsAllowed(None, Some(k), block, shared.mods);
      if allowed {
        var entry := shared.child.Get(k);
        if entry.Some? {
          return entry.value;
        }
      }
      r := Read(truth.child, k);
      localChild := localChild[k := r];
    }

    /** Hands the local values over when the state was that of the best block. */
    method Propagate() returns (ghost drained: Drained)
      requires shared.Valid()
      modifies this, shared.top, shared.hashes, shared.child
      ensures shared.Valid()
      ensures IsOrderOf(drained.top, old(localTop)) && IsOrderOf(drained.hashes, old(localHashes)) && IsOrderOf(drained.child, old(localChild))
      ensures shared.State() == WithLocal(old(shared.State()), drained)
      ensures localTop == map[] && localHashes == map[] && localChild == map[]
    {
      ghost var top := Drain(localTop, shared.top);
      ghost var child := Drain(localChild, shared.child);
      ghost var hashes := Drain(localHashes, shared.hashes);
      localTop, localHashes, localChild := map[], map[], map[];
      drained := Drained(top, hashes, child);
    }

    /** Records which keys the committed block changed and, for the best block, their values. */
    method CommitChanges(number: nat, hash: Hash, parent: Hash, changes: Changes, isBest: bool)
      requires shared.Valid() && !Listed(shared.mods, hash)
      modifies shared, shared.top, shared.hashes, shared.child
      ensures shared.Valid()
      ensures shared.State() == Commit(old(shared.State()), number, hash, parent, changes, isBest)
    {
      var flat := Flatten(changes.child);
      if isBest {
        ApplyChanges(changes, flat);
      }
      ListBlock(BlockChanges(number, hash, parent, KeysOf(changes.top), KeysOf(flat), isBest));
    }

    method ApplyChanges(changes: Changes, flat: seq<(ChildKey, Option<Bytes>)>)
      requires shared.Valid() && flat == FlatChild(changes.child)
      modifies shared.top, shared.hashes, shared.child
      ensures shared.Valid()
      ensures shared.State() == WithChanges(old(shared.State()), changes)
    {
      InsertAll(flat, shared.child);
      shared.hashes.RemoveAll(KeysOf(changes.top));
      InsertAll(changes.top, shared.top);
    }

    /** Lists a committed block, dropping the oldest entry of a full list. */
    method ListBlock(m: BlockChanges)
      requires shared.Valid() && !Listed(shared.mods, m.hash)
      modifies shared`mods
      ensures shared.Valid() && shared.mods == Inserted(Trimmed(old(shared.mods)), m)
    {
      InsertedDistinct(shared.mods, m);
      if |shared.mods| == STATE_CACHE_BLOCKS {
        shared.mods := shared.mods[..|shared.mods| - 1];
      }
      var at := InsertionPoint(shared.mods, m.number);
      shared.mods := shared.mods[..at] + [m] + shared.mods[at..];
    }

    /** Called after a block is committed, or with no block when a state is disposed of. */
    method SyncCache(enacted: seq<Hash>, retracted: seq<Hash>, changes: Changes,
                     commitHash: Option<Hash>, commitNumber: Option<nat>, isBest: bool)
      returns (ghost drained: Drained)
      requires shared.Valid()
      requires commitHash.Some? ==> !Listed(shared.mods, commitHash.value)
      modifies this, shared, shared.top, shared.hashes, shared.child
      ensures shared.Valid()
      ensures block.Some? && isBest ==>
                IsOrderOf(drained.top, old(localTop)) && IsOrderOf(drained.hashes, old(localHashes)) && IsOrderOf(drained.child, old(localChild))
      ensures shared.State() == SyncedCache(old(shared.State()), block, drained, enacted, retracted, changes, commitHash, commitNumber, isBest)
      ensures if block.Some? && isBest then localTop == map[] && localHashes == map[] && localChild == map[] else View() == old(View())
    {
      var others := DropBlock(commitHash, enacted);
      shared.Sync(others, retracted);
      SyncedListed(old(shared.State()), others, retracted);
      drained := NOTHING_DRAINED;
      if block.Some? && isBest {
        drained := Propagate();
      }
      if commitNumber.Some? && commitHash.Some? && block.Some? {
        CommitChanges(commitNumber.value, commitHash.value, block.value, changes, isBest);
      }
    }
  }

  lemma {:induction false} DroppedSnoc(h: Option<Hash>, s: seq<Hash>, x: Hash)
    ensures Dropped(h, s + [x]) == Dropped(h, s) + (if h == Some(x) then [] else [x])
  {
    if s == [] {
      assert s + [x] == [x];
    } else {
      assert (s + [x])[1..] == s[1..] + [x];
      DroppedSnoc(h, s[1..], x);
    }
  }

  lemma SyncedListed(c: CacheState, enacted: seq<Hash>, retracted: seq<Hash>)
    ensures forall h :: Listed(Synced(c, enacted, retracted).mods, h) ==> Listed(c.mods, h)
  {
    forall h | Listed(Synced(c, enacted, retracted).mods, h) ensures Listed(c.mods, h) {
      ListedUnflagged(c.mods, SetOf(enacted), SetOf(retracted), h);
    }
  }
}
