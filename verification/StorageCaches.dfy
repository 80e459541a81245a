/** The shared cache of the canonical state and the per-state view of it. */
module StorageCaches {
  import opened Wrappers
  import opened ForkTree
  import opened LruMaps

  newtype Byte = x: int | 0 <= x < 256
  type Bytes = seq<Byte>
  type ChildKey = (Bytes, Bytes)

  /** The hash of a stored value, as collision free as block hashes are. */
  datatype ValueHash = ValueHash(of: Bytes)

  const STATE_CACHE_BLOCKS: nat := 12

  /** Which keys a recently committed block modified. */
  datatype BlockChanges = BlockChanges(
    number: nat, hash: Hash, parent: Hash,
    storage: set<Bytes>, childStorage: set<ChildKey>, isCanon: bool)

  datatype CacheState = CacheState(
    top: Lru<Bytes, Option<Bytes>>,
    hashes: Lru<Bytes, Option<ValueHash>>,
    child: Lru<ChildKey, Option<Bytes>>,
    mods: seq<BlockChanges>)

  /** The storage of one block: top-level and child-trie entries. */
  datatype BlockState = BlockState(top: map<Bytes, Bytes>, child: map<ChildKey, Bytes>)

  function Read<K>(m: map<K, Bytes>, k: K): Option<Bytes>
  {
    if k in m then Some(m[k]) else None
  }

  function HashAt(m: map<Bytes, Bytes>, k: Bytes): Option<ValueHash>
  {
    if k in m then Some(ValueHash(m[k])) else None
  }

  // Synchronizing with a route

  predicate Listed(mods: seq<BlockChanges>, h: Hash)
  {
    exists i :: 0 <= i < |mods| && mods[i].hash == h
  }

  predicate DistinctHashes(mods: seq<BlockChanges>)
  {
    forall i, j :: 0 <= i < j < |mods| ==> mods[i].hash != mods[j].hash
  }

  function TopKeys(mods: seq<BlockChanges>, blocks: set<Hash>): set<Bytes>
  {
    set m, k | m in mods && m.hash in blocks && k in m.storage :: k
  }

  function ChildKeys(mods: seq<BlockChanges>, blocks: set<Hash>): set<ChildKey>
  {
    set m, k | m in mods && m.hash in blocks && k in m.childStorage :: k
  }

  function Flag(m: BlockChanges, enacted: set<Hash>, retracted: set<Hash>): BlockChanges
  {
    m.(isCanon := m.hash !in retracted && (m.hash in enacted || m.isCanon))
  }

  function Flagged(mods: seq<BlockChanges>, enacted: set<Hash>, retracted: set<Hash>): (r: seq<BlockChanges>)
    ensures |r| == |mods|
  {
    seq(|mods|, i requires 0 <= i < |mods| => Flag(mods[i], enacted, retracted))
  }

  /** Forgets every value the given blocks modified and updates the canonical marks. */
  function Unwound(c: CacheState, enacted: set<Hash>, retracted: set<Hash>): CacheState
  {
    var gone := enacted + retracted;
    c.(top := c.top.(entries := Kept(c.top.entries, TopKeys(c.mods, gone))),
       child := c.child.(entries := Kept(c.child.entries, ChildKeys(c.mods, gone))),
       mods := Flagged(c.mods, enacted, retracted))
  }

  function Wiped(c: CacheState): CacheState
  {
    CacheState(c.top.(entries := []), c.hashes.(entries := []), c.child.(entries := []), [])
  }

  function SetOf<T>(s: seq<T>): set<T>
  {
    set x | x in s
  }

  predicate AllListed(mods: seq<BlockChanges>, blocks: seq<Hash>)
  {
    forall h :: h in blocks ==> Listed(mods, h)
  }

  /** The effect of a route: unwind it when every block on it is still listed, else wipe. */
  function Synced(c: CacheState, enacted: seq<Hash>, retracted: seq<Hash>): CacheState
  {
    if AllListed(c.mods, enacted) && AllListed(c.mods, retracted)
    then Unwound(c, SetOf(enacted), SetOf(retracted))
    else Wiped(c)
  }

  // Committing a block

  /** Cached values of a state, in the order they leave its unordered maps. */
  datatype Drained = Drained(
    top: seq<(Bytes, Option<Bytes>)>,
    hashes: seq<(Bytes, Option<ValueHash>)>,
    child: seq<(ChildKey, Option<Bytes>)>)

  const NOTHING_DRAINED := Drained([], [], [])

  datatype Changes = Changes(
    top: seq<(Bytes, Option<Bytes>)>,
    child: seq<(Bytes, seq<(Bytes, Option<Bytes>)>)>)

  function Qualified(sk: Bytes, s: seq<(Bytes, Option<Bytes>)>): seq<(ChildKey, Option<Bytes>)>
  {
    if s == [] then [] else [((sk, s[0].0), s[0].1)] + Qualified(sk, s[1..])
  }

  function FlatChild(s: seq<(Bytes, seq<(Bytes, Option<Bytes>)>)>): seq<(ChildKey, Option<Bytes>)>
  {
    if s == [] then [] else Qualified(s[0].0, s[0].1) + FlatChild(s[1..])
  }

  function KeysOf<K, V>(s: seq<(K, V)>): set<K>
  {
    set i | 0 <= i < |s| :: s[i].0
  }

  function Dropped(h: Option<Hash>, s: seq<Hash>): seq<Hash>
  {
    if s == [] then []
    else (if h == Some(s[0]) then [] else [s[0]]) + Dropped(h, s[1..])
  }

  /** The first place whose block is lower than `number`. */
  function InsertionPoint(mods: seq<BlockChanges>, number: nat): (i: nat)
    ensures i <= |mods|
    ensures forall j :: 0 <= j < i ==> mods[j].number >= number
    ensures i < |mods| ==> mods[i].number < number
  {
    if mods == [] || mods[0].number < number then 0 else 1 + InsertionPoint(mods[1..], number)
  }

  function Inserted(mods: seq<BlockChanges>, m: BlockChanges): seq<BlockChanges>
  {
    var i := InsertionPoint(mods, m.number);
    mods[..i] + [m] + mods[i..]
  }

  function Trimmed(mods: seq<BlockChanges>): seq<BlockChanges>
  {
    if |mods| == STATE_CACHE_BLOCKS then mods[..|mods| - 1] else mods
  }

  function WithLocal(c: CacheState, d: Drained): CacheState
  {
    c.(top := AddAll(c.top, d.top), hashes := AddAll(c.hashes, d.hashes), child := AddAll(c.child, d.child))
  }

  function WithChanges(c: CacheState, changes: Changes): CacheState
  {
    c.(top := AddAll(c.top, changes.top),
       hashes := c.hashes.(entries := Kept(c.hashes.entries, KeysOf(changes.top))),
       child := AddAll(c.child, FlatChild(changes.child)))
  }

  function Commit(c: CacheState, number: nat, hash: Hash, parent: Hash, changes: Changes, isBest: bool): CacheState
  {
    var c1 := if isBest then WithChanges(c, changes) else c;
    var m := BlockChanges(number, hash, parent, KeysOf(changes.top), KeysOf(FlatChild(changes.child)), isBest);
    c1.(mods := Inserted(Trimmed(c.mods), m))
  }

  function SyncedCache(c: CacheState, block: Option<Hash>, d: Drained, enacted: seq<Hash>, retracted: seq<Hash>,
                       changes: Changes, commitHash: Option<Hash>, commitNumber: Option<nat>, isBest: bool): CacheState
  {
    var c1 := Synced(c, Dropped(commitHash, enacted), retracted);
    var c2 := if block.Some? && isBest then WithLocal(c1, d) else c1;
    if commitNumber.Some? && commitHash.Some? && block.Some?
    then Commit(c2, commitNumber.value, commitHash.value, block.value, changes, isBest)
    else c2
  }

  // Reading

  predicate Touches(m: BlockChanges, key: Option<Bytes>, childKey: Option<ChildKey>)
  {
    (key.Some? && key.value in m.storage) || (childKey.Some? && childKey.value in m.childStorage)
  }

  predicate AllowedFrom(mods: seq<BlockChanges>, parent: Hash, key: Option<Bytes>, childKey: Option<ChildKey>)
  {
    if mods == [] then false
    else if mods[0].hash == parent && mods[0].isCanon then true
    else if Touches(mods[0], key, childKey) then false
    else AllowedFrom(mods[1..], if mods[0].hash == parent then mods[0].parent else parent, key, childKey)
  }

  /** Whether a state opened at `block` may use the shared value of a key. */
  predicate Allowed(mods: seq<BlockChanges>, block: Option<Hash>, key: Option<Bytes>, childKey: Option<ChildKey>)
  {
    block.Some? && AllowedFrom(mods, block.value, key, childKey)
  }

  /** The path leads from `parent` through listed blocks, each the parent of the one before. */
  ghost predicate IsWalk(mods: seq<BlockChanges>, parent: Hash, path: seq<nat>)
  {
    && path != []
    && (forall t :: 0 <= t < |path| ==> path[t] < |mods|)
    && (forall t, u :: 0 <= t < u < |path| ==> path[t] < path[u])
    && mods[path[0]].hash == parent
    && forall t :: 0 < t < |path| ==> mods[path[t]].hash == mods[path[t - 1]].parent
  }

  /** Such a path ends at a canonical block, and no block listed from `i` up to it touched the key. */
  ghost predicate WalkAllows(mods: seq<BlockChanges>, i: nat, parent: Hash, path: seq<nat>, key: Option<Bytes>, childKey: Option<ChildKey>)
  {
    && IsWalk(mods, parent, path) && i <= path[0]
    && mods[path[|path| - 1]].isCanon
    && forall j: nat :: i <= j < path[|path| - 1] ==> !Touches(mods[j], key, childKey)
  }

  lemma {:induction false} AllowedHasWalk(mods: seq<BlockChanges>, i: nat, parent: Hash, key: Option<Bytes>, childKey: Option<ChildKey>)
    returns (path: seq<nat>)
    requires i <= |mods| && AllowedFrom(mods[i..], parent, key, childKey)
    ensures WalkAllows(mods, i, parent, path, key, childKey)
    decreases |mods| - i
  {
    var m := mods[i];
    assert mods[i..][1..] == mods[i + 1..];
    if m.hash == parent && m.isCanon {
      path := [i];
    } else {
      var rest := AllowedHasWalk(mods, i + 1, if m.hash == parent then m.parent else parent, key, childKey);
      path := if m.hash == parent then [i] + rest else rest;
      if m.hash == parent {
        WalkGrows(mods, i, rest, key, childKey);
      }
    }
  }

  lemma WalkGrows(mods: seq<BlockChanges>, i: nat, rest: seq<nat>, key: Option<Bytes>, childKey: Option<ChildKey>)
    requires i < |mods| && !Touches(mods[i], key, childKey)
    requires WalkAllows(mods, i + 1, mods[i].parent, rest, key, childKey)
    ensures WalkAllows(mods, i, mods[i].hash, [i] + rest, key, childKey)
  {
    var path := [i] + rest;
    forall t | 0 < t < |path| ensures mods[path[t]].hash == mods[path[t - 1]].parent {
      if t > 1 {
        assert mods[rest[t - 1]].hash == mods[rest[t - 2]].parent;
      }
    }
  }

  lemma {:induction false} WalkIsAllowed(mods: seq<BlockChanges>, i: nat, parent: Hash, path: seq<nat>, key: Option<Bytes>, childKey: Option<ChildKey>)
    requires DistinctHashes(mods) && i <= |mods| && WalkAllows(mods, i, parent, path, key, childKey)
    ensures AllowedFrom(mods[i..], parent, key, childKey)
    decreases |mods| - i
  {
    assert mods[i..][1..] == mods[i + 1..];
    if path[0] > i {
      assert mods[i].hash != parent;
      WalkIsAllowed(mods, i + 1, parent, path, key, childKey);
    } else if !mods[i].isCanon {
      var rest := path[1..];
      assert rest[|rest| - 1] == path[|path| - 1];
      assert mods[path[1]].hash == mods[path[0]].parent;
      WalkIsAllowed(mods, i + 1, mods[i].parent, rest, key, childKey);
    }
  }

  /** The shared value may be used exactly when a listed canonical block is reached from the
      state's block through listed parents, and no block listed before it touched the key. */
  lemma AllowedIff(mods: seq<BlockChanges>, block: Option<Hash>, key: Option<Bytes>, childKey: Option<ChildKey>)
    requires DistinctHashes(mods)
    ensures Allowed(mods, block, key, childKey) <==>
            block.Some? && exists path :: WalkAllows(mods, 0, block.value, path, key, childKey)
  {
    assert mods[0..] == mods;
    if Allowed(mods, block, key, childKey) {
      var path := AllowedHasWalk(mods, 0, block.value, key, childKey);
    }
    if block.Some? && exists path :: WalkAllows(mods, 0, block.value, path, key, childKey) {
      var path :| WalkAllows(mods, 0, block.value, path, key, childKey);
      WalkIsAllowed(mods, 0, block.value, path, key, childKey);
    }
  }

  /** A state opened at a block, with the values it has read from disk itself. */
  datatype Session = Session(
    block: Option<Hash>,
    top: map<Bytes, Option<Bytes>>,
    hashes: map<Bytes, Option<ValueHash>>,
    child: map<ChildKey, Option<Bytes>>)

  datatype Outcome<V> = Outcome(value: V, cache: CacheState, session: Session)

  function ReadTop(c: CacheState, s: Session, truth: BlockState, k: Bytes): Outcome<Option<Bytes>>
  {
    if k in s.top then Outcome(s.top[k], c, s)
    else
      var allowed := Allowed(c.mods, s.block, Some(k), None);
      var c1 := if allowed then c.(top := c.top.(entries := Refreshed(c.top.entries, k))) else c;
      if allowed && Lookup(c.top.entries, k).Some? then Outcome(Lookup(c.top.entries, k).value, c1, s)
      else Outcome(Read(truth.top, k), c1, s.(top := s.top[k := Read(truth.top, k)]))
  }

  function ReadHash(c: CacheState, s: Session, truth: BlockState, k: Bytes): Outcome<Option<ValueHash>>
  {
    if k in s.hashes then Outcome(s.hashes[k], c, s)
    else
      var allowed := Allowed(c.mods, s.block, Some(k), None);
      var c1 := if allowed then c.(hashes := c.hashes.(entries := Refreshed(c.hashes.entries, k))) else c;
      if allowed && Lookup(c.hashes.entries, k).Some? then Outcome(Lookup(c.hashes.entries, k).value, c1, s)
      else Outcome(HashAt(truth.top, k), c1, s.(hashes := s.hashes[k := HashAt(truth.top, k)]))
  }

  function ReadChild(c: CacheState, s: Session, truth: BlockState, k: ChildKey): Outcome<Option<Bytes>>
  {
    if k in s.child then Outcome(s.child[k], c, s)
    else
      var allowed := Allowed(c.mods, s.block, None, Some(k));
      var c1 := if allowed then c.(child := c.child.(entries := Refreshed(c.child.entries, k))) else c;
      if allowed && Lookup(c.child.entries, k).Some? then Outcome(Lookup(c.child.entries, k).value, c1, s)
      else Outcome(Read(truth.child, k), c1, s.(child := s.child[k := Read(truth.child, k)]))
  }

  // The imperative cache

  function BytesSize(b: Bytes): nat { |b| }
  function ValueSize(v: Option<Bytes>): nat { if v.Some? then |v.value| else 0 }
  function ChildKeySize(k: ChildKey): nat { |k.0| + |k.1| }
  function HashSize(v: Option<ValueHash>): nat { if v.Some? then 32 else 0 }

  const HASH_CACHE_LIMIT: nat := 65536

  lemma FlaggedUpdate(mods: seq<BlockChanges>, i: nat, enacted: set<Hash>, retracted: set<Hash>, canon: bool)
    requires DistinctHashes(mods) && i < |mods|
    requires canon ==> mods[i].hash !in retracted
    ensures Flagged(mods, enacted, retracted)[i := Flagged(mods, enacted, retracted)[i].(isCanon := canon)] ==
            Flagged(mods, if canon then enacted + {mods[i].hash} else enacted, if canon then retracted else retracted + {mods[i].hash})
  {
  }

  lemma KeysGrow(mods: seq<BlockChanges>, i: nat, blocks: set<Hash>)
    requires DistinctHashes(mods) && i < |mods|
    ensures TopKeys(mods, blocks + {mods[i].hash}) == TopKeys(mods, blocks) + mods[i].storage
    ensures ChildKeys(mods, blocks + {mods[i].hash}) == ChildKeys(mods, blocks) + mods[i].childStorage
  {
    assert mods[i] in mods;
  }

  /** The integral part of a ratio of the memory. */
  function Share(size: nat, numerator: nat, denominator: nat): nat
    requires denominator > 0
  {
    size * numerator / denominator
  }

  /** `part` is the integral part of that share. */
  ghost predicate IsShare(part: nat, size: nat, numerator: nat, denominator: nat)
  {
    part * denominator <= size * numerator < (part + 1) * denominator
  }

  lemma ShareBounds(size: nat, numerator: nat, denominator: nat)
    requires denominator > 0
    ensures IsShare(Share(size, numerator, denominator), size, numerator, denominator)
    ensures numerator == 0 ==> Share(size, numerator, denominator) == 0
  {
    var n := size * numerator;
    assert n == denominator * (n / denominator) + n % denominator;
    assert (n / denominator + 1) * denominator == denominator * (n / denominator) + denominator;
  }

  lemma SharesFit(size: nat, a: nat, b: nat, numerator: nat, denominator: nat)
    requires 0 < denominator && numerator <= denominator
    requires IsShare(a, size, denominator - numerator, denominator) && IsShare(b, size, numerator, denominator)
    ensures a + b <= size
  {
    assert size * (denominator - numerator) + size * numerator == size * denominator;
    assert (a + b) * denominator == a * denominator + b * denominator;
    if a + b > size {
      MulStrict(size, a + b, denominator);
    }
  }

  lemma MulStrict(x: nat, y: nat, d: nat)
    requires x < y && 0 < d
    ensures x * d < y * d
  {
    assert (y - x) * d > 0;
  }

  class Cache {
    const top: LruMap<Bytes, Option<Bytes>>
    const hashes: LruMap<Bytes, Option<ValueHash>>
    const child: LruMap<ChildKey, Option<Bytes>>
    var mods: seq<BlockChanges>

    ghost predicate Valid()
      reads this, top, hashes, child
    {
      && top.Valid() && hashes.Valid() && child.Valid()
      && top as object != hashes && top as object != child && hashes as object != child
      && DistinctHashes(mods)
    }

    function State(): CacheState
      reads this, top, hashes, child
    {
      CacheState(top.Contents(), hashes.Contents(), child.Contents(), mods)
    }

    /** Splits the configured memory between top-level and child storage. */
    constructor (size: nat, childRatio: (nat, nat), moves: bool)
      requires childRatio.1 > 0
      ensures Valid() && fresh(top) && fresh(hashes) && fresh(child)
      ensures mods == [] && top.entries == [] && hashes.entries == [] && child.entries == []
      ensures IsShare(child.limit, size, childRatio.0, childRatio.1) && hashes.limit == 65536
      ensures if childRatio.0 <= childRatio.1
              then IsShare(top.limit, size, childRatio.1 - childRatio.0, childRatio.1) && top.limit + child.limit <= size
              else top.limit == 0
      ensures forall k :: top.keySize(k) == |k|
      ensures forall k :: hashes.keySize(k) == |k|
      ensures forall k :: child.keySize(k) == |k.0| + |k.1|
      ensures forall v :: top.valueSize(v) == if v.Some? then |v.value| else 0
      ensures forall v :: child.valueSize(v) == if v.Some? then |v.value| else 0
      ensures forall v :: hashes.valueSize(v) == if v.Some? then 32 else 0
    {
      var rest := if childRatio.1 >= childRatio.0 then childRatio.1 - childRatio.0 else 0;
      ShareBounds(size, rest, childRatio.1);
      ShareBounds(size, childRatio.0, childRatio.1);
      if childRatio.0 <= childRatio.1 {
        SharesFit(size, Share(size, rest, childRatio.1), Share(size, childRatio.0, childRatio.1), childRatio.0, childRatio.1);
      }
      top := new LruMap(Share(size, rest, childRatio.1), BytesSize, ValueSize, moves);
      hashes := new LruMap(HASH_CACHE_LIMIT, BytesSize, HashSize, moves);
      child := new LruMap(Share(size, childRatio.0, childRatio.1), ChildKeySize, ValueSize, moves);
      mods := [];
    }

    method Find(h: Hash) returns (i: nat)
      ensures i <= |mods|
      ensures i < |mods| ==> mods[i].hash == h
      ensures i == |mods| ==> !Listed(mods, h)
    {
      i := 0;
      while i < |mods| && mods[i].hash != h
        invariant i <= |mods|
        invariant forall j :: 0 <= j < i ==> mods[j].hash != h
      {
        i := i + 1;
      }
    }

    /** Forgets what listed block `i` modified and marks it canonical or not. */
    method Revert(i: nat, canon: bool, ghost c: CacheState, ghost enacted: set<Hash>, ghost retracted: set<Hash>)
      requires Valid() && i < |mods| && DistinctHashes(c.mods)
      requires State() == Unwound(c, enacted, retracted)
      requires canon ==> mods[i].hash !in retracted
      modifies this, top, child
      ensures Valid()
      ensures State() == Unwound(c, if canon then enacted + {old(mods[i].hash)} else enacted,
                                    if canon then retracted else retracted + {old(mods[i].hash)})
    {
      FlaggedUpdate(c.mods, i, enacted, retracted, canon);
      KeysGrow(c.mods, i, enacted + retracted);
      ghost var h := mods[i].hash;
      assert (enacted + {h}) + retracted == (enacted + retracted) + {h} == enacted + (retracted + {h});
      KeptTwice(c.top.entries, TopKeys(c.mods, enacted + retracted), mods[i].storage);
      KeptTwice(c.child.entries, ChildKeys(c.mods, enacted + retracted), mods[i].childStorage);
      top.RemoveAll(mods[i].storage);
      child.RemoveAll(mods[i].childStorage);
      mods := mods[i := mods[i].(isCanon := canon)];
    }

    /** Reverts the blocks in turn until one is not listed. */
    method RevertAll(blocks: seq<Hash>, canon: bool, ghost c: CacheState, ghost enacted: set<Hash>)
      returns (clear: bool)
      requires Valid() && DistinctHashes(c.mods)
      requires State() == Unwound(c, enacted, {})
      modifies this, top, child
      ensures Valid()
      ensures clear <==> !AllListed(c.mods, blocks)
      ensures !clear ==> State() == if canon then Unwound(c, enacted + SetOf(blocks), {}) else Unwound(c, enacted, SetOf(blocks))
    {
      clear := false;
      assert SetOf(blocks[..0]) == {} && enacted + SetOf(blocks[..0]) == enacted;
      for k := 0 to |blocks|
        invariant Valid()
        invariant clear ==> !AllListed(c.mods, blocks)
        invariant !clear ==>
                    && AllListed(c.mods, blocks[..k])
                    && State() == if canon then Unwound(c, enacted + SetOf(blocks[..k]), {}) else Unwound(c, enacted, SetOf(blocks[..k]))
      {
        assert blocks[..k + 1] == blocks[..k] + [blocks[k]];
        SetOfSnoc(enacted, blocks[..k], blocks[k]);
        if !clear {
          var i := Find(blocks[k]);
          if i < |mods| {
            assert c.mods[i].hash == blocks[k];
            if canon {
              Revert(i, true, c, enacted + SetOf(blocks[..k]), {});
            } else {
              Revert(i, false, c, enacted, SetOf(blocks[..k]));
            }
          } else {
            clear := true;
            ListedUnflagged(c.mods, enacted + SetOf(blocks[..k]), {}, blocks[k]);
            ListedUnflagged(c.mods, enacted, SetOf(blocks[..k]), blocks[k]);
          }
        }
      }
      assert blocks[..|blocks|] == blocks;
    }

    /** Re-aligns the cache with a head that moved without a block being imported. */
    method Sync(enacted: seq<Hash>, retracted: seq<Hash>)
      requires Valid()
      modifies this, top, hashes, child
      ensures Valid()
      ensures State() == Synced(old(State()), enacted, retracted)
    {
      ghost var c := State();
      UnwoundNothing(c);
      var clear := RevertAll(enacted, true, c, {});
      if !clear {
        assert {} + SetOf(enacted) == SetOf(enacted);
        clear := RevertAll(retracted, false, c, SetOf(enacted));
      }
      if clear {
        top.Clear();
        child.Clear();
        hashes.Clear();
        mods := [];
      }
    }
  }

  lemma InsertedDistinct(mods: seq<BlockChanges>, m: BlockChanges)
    requires DistinctHashes(mods) && !Listed(mods, m.hash)
    ensures DistinctHashes(Inserted(Trimmed(mods), m))
  {
  }

  lemma UnwoundNothing(c: CacheState)
    ensures Unwound(c, {}, {}) == c
  {
    var none: set<Hash> := {};
    assert none + none == none;
    assert TopKeys(c.mods, none) == {} && ChildKeys(c.mods, none) == {};
    KeptNothing(c.top.entries);
    KeptNothing(c.child.entries);
    assert Flagged(c.mods, {}, {}) == c.mods;
  }

  lemma SetOfSnoc<T>(base: set<T>, s: seq<T>, x: T)
    ensures SetOf(s + [x]) == SetOf(s) + {x}
    ensures base + SetOf(s + [x]) == base + SetOf(s) + {x}
  {
  }

  lemma ListedUnflagged(mods: seq<BlockChanges>, enacted: set<Hash>, retracted: set<Hash>, h: Hash)
    ensures Listed(Flagged(mods, enacted, retracted), h) <==> Listed(mods, h)
  {
    var f := Flagged(mods, enacted, retracted);
    if Listed(mods, h) {
      var i :| 0 <= i < |mods| && mods[i].hash == h;
      assert f[i].hash == h;
    }
  }
}
