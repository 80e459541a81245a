/** Whole runs of the backend as the shared cache sees them. */
module CacheRuns {
  import opened Wrappers
  import opened ForkTree
  import opened LruMaps
  import opened StorageCaches
  import opened CacheCoherence

  /** The committed blocks with their true storage, the best block, the shared cache and
      the states currently open. */
  datatype World = World(blocks: Blocks, head: Block, cache: CacheState, sessions: map<nat, Session>)

  datatype Op =
    | OpenState(id: nat, at: Block)
    | GetStorage(id: nat, key: Bytes)
    | GetStorageHash(id: nat, key: Bytes)
    | GetChildStorage(id: nat, childKey: ChildKey)
    | Import(id: nat, block: Block, changes: Changes, isBest: bool, drained: Drained)
    | ImportSplit(id: nat, block: Block, changes: Changes, drained: Drained)
    | SetHead(target: Block)
    | Dispose(id: nat, drained: Drained)

  /** An empty cache over a committed genesis block, with any memory limits. */
  ghost predicate Initial(w: World)
  {
    && w.blocks.Keys == {GENESIS} && w.head == GENESIS && w.sessions == map[]
    && w.cache == Wiped(w.cache)
  }

  ghost predicate DrainOf(d: Drained, s: Session)
  {
    IsOrderOf(d.top, s.top) && IsOrderOf(d.hashes, s.hashes) && IsOrderOf(d.child, s.child)
  }

  /** Each block is imported once, on top of a state entered at its parent.  A final block whose
      parent is off the best chain is a split import: it also marks the parent as head. */
  ghost predicate Enabled(w: World, op: Op)
  {
    match op
    case OpenState(id, at) => id !in w.sessions && at in w.blocks
    case GetStorage(id, _) => id in w.sessions && w.sessions[id].block.Some? && w.sessions[id].block.value in w.blocks
    case GetStorageHash(id, _) => id in w.sessions && w.sessions[id].block.Some? && w.sessions[id].block.value in w.blocks
    case GetChildStorage(id, _) => id in w.sessions && w.sessions[id].block.Some? && w.sessions[id].block.value in w.blocks
    case Import(id, b, _, _, d) =>
      && id in w.sessions && b.number > 0 && w.sessions[id].block == Some(b.parent)
      && b.parent in w.blocks && b !in w.blocks && DrainOf(d, w.sessions[id])
    case ImportSplit(id, b, _, d) =>
      && id in w.sessions && b.number > 0 && w.sessions[id].block == Some(b.parent)
      && b.parent in w.blocks && b !in w.blocks && DrainOf(d, w.sessions[id]) && !OnChain(b.parent, w.head)
    case SetHead(b) => b in w.blocks
    case Dispose(id, d) => id in w.sessions && w.sessions[id].block.Some? && DrainOf(d, w.sessions[id])
  }

  function TruthOf(w: World, id: nat): BlockState
    requires id in w.sessions && w.sessions[id].block.Some? && w.sessions[id].block.value in w.blocks
  {
    w.blocks[w.sessions[id].block.value]
  }

  function After<V>(w: World, id: nat, o: Outcome<V>): World
  {
    w.(cache := o.cache, sessions := w.sessions[id := o.session])
  }

  /** The cache once a block has been committed as best. */
  function CommittedBest(w: World, b: Block, changes: Changes, d: Drained): CacheState
    requires b.number > 0
  {
    SyncedCache(w.cache, Some(b.parent), d, Entering(w.head, b.parent), Leaving(w.head, b.parent),
                changes, Some(b), Some(b.number), true)
  }

  ghost function Step(w: World, op: Op): World
    requires Enabled(w, op)
  {
    match op
    case OpenState(id, at) => w.(sessions := w.sessions[id := Session(Some(at), map[], map[], map[])])
    case GetStorage(id, k) => After(w, id, ReadTop(w.cache, w.sessions[id], TruthOf(w, id), k))
    case GetStorageHash(id, k) => After(w, id, ReadHash(w.cache, w.sessions[id], TruthOf(w, id), k))
    case GetChildStorage(id, k) => After(w, id, ReadChild(w.cache, w.sessions[id], TruthOf(w, id), k))
    case Import(id, b, changes, isBest, d) =>
      var p: Block := b.parent;
      var enacted := if isBest then Entering(w.head, p) else [];
      var retracted := if isBest then Leaving(w.head, p) else [];
      World(w.blocks[b := ChildState(w.blocks[p], changes)],
            if isBest then b else w.head,
            SyncedCache(w.cache, Some(p), d, enacted, retracted, changes, Some(b), Some(b.number), isBest),
            w.sessions - {id})
    case ImportSplit(id, b, changes, d) =>
      // both head changes are routed from the old head: the block's commit, then the mark's sync
      World(w.blocks[b := ChildState(w.blocks[b.parent], changes)], b.parent,
            Synced(CommittedBest(w, b, changes, d), Entering(w.head, b.parent), Leaving(w.head, b.parent)),
            w.sessions - {id})
    case SetHead(b) =>
      w.(head := b, cache := Synced(w.cache, Entering(w.head, b), Leaving(w.head, b)))
    case Dispose(id, d) =>
      var at := w.sessions[id].block;
      w.(cache := SyncedCache(w.cache, at, d, [], [], Changes([], []), None, None, Some(w.head) == at),
         sessions := w.sessions - {id})
  }

  ghost predicate Runs(w: World, ops: seq<Op>)
    decreases |ops|
  {
    ops == [] || (Enabled(w, ops[0]) && Runs(Step(w, ops[0]), ops[1..]))
  }

  ghost function Run(w: World, ops: seq<Op>): World
    requires Runs(w, ops)
    decreases |ops|
  {
    if ops == [] then w else Run(Step(w, ops[0]), ops[1..])
  }

  /** An imported block has its parent's storage with the last change of every key, and becomes
      the head as best; the state it was built on is closed.  A split import leaves the parent as
      head. */
  lemma ImportEffect(w: World, op: Op, k: Bytes, ck: ChildKey)
    requires (op.Import? || op.ImportSplit?) && Enabled(w, op)
    ensures var w' := Step(w, op);
            && op.block in w'.blocks && w'.blocks == w.blocks[op.block := w'.blocks[op.block]]
            && Some(Read(w'.blocks[op.block].top, k)) == LastOr(op.changes.top, k, Some(Read(w.blocks[op.block.parent].top, k)))
            && Some(Read(w'.blocks[op.block].child, ck)) ==
               LastOr(FlatChild(op.changes.child), ck, Some(Read(w.blocks[op.block.parent].child, ck)))
            && w'.head == (if op.ImportSplit? then op.block.parent else if op.isBest then op.block else w.head)
            && w'.sessions == w.sessions - {op.id}
  {
    AppliedIsLast(w.blocks[op.block.parent].top, op.changes.top, k);
    AppliedIsLast(w.blocks[op.block.parent].child, FlatChild(op.changes.child), ck);
  }

  /** No other operation changes a block, and only a head mark moves the head. */
  lemma OtherEffect(w: World, op: Op)
    requires !op.Import? && !op.ImportSplit? && Enabled(w, op)
    ensures var w' := Step(w, op);
            && w'.blocks == w.blocks && w'.head == (if op.SetHead? then op.target else w.head)
            && (op.OpenState? ==> w'.cache == w.cache && w'.sessions == w.sessions[op.id := Session(Some(op.at), map[], map[], map[])])
            && (op.SetHead? ==> w'.sessions == w.sessions)
            && (op.Dispose? ==> w'.sessions == w.sessions - {op.id})
            && (!op.OpenState? && !op.Dispose? ==> w'.sessions.Keys == w.sessions.Keys)
  {
  }

  // The invariant

  ghost predicate TrueMap<K(!new)>(local: map<K, Option<Bytes>>, m: map<K, Bytes>)
  {
    forall k :: k in local ==> local[k] == Read(m, k)
  }

  ghost predicate SessionOk(blocks: Blocks, s: Session)
  {
    && s.block.Some? && s.block.value in blocks
    && TrueMap(s.top, blocks[s.block.value].top)
    && TrueMap(s.child, blocks[s.block.value].child)
    && forall k :: k in s.hashes ==> s.hashes[k] == HashAt(blocks[s.block.value].top, k)
  }

  ghost predicate Inv(w: World)
  {
    && Coherent(w.blocks, w.head, w.cache)
    && forall id :: id in w.sessions ==> SessionOk(w.blocks, w.sessions[id])
  }

  lemma RefreshKeepsCoherence(blocks: Blocks, head: Block, c: CacheState, k: Bytes, ck: ChildKey)
    requires Coherent(blocks, head, c)
    ensures Coherent(blocks, head, c.(top := c.top.(entries := Refreshed(c.top.entries, k))))
    ensures Coherent(blocks, head, c.(child := c.child.(entries := Refreshed(c.child.entries, ck))))
  {
    RefreshedEntries(c.top.entries, k);
    RefreshedEntries(c.child.entries, ck);
  }

  lemma LocalKeepsCoherence(blocks: Blocks, head: Block, c: CacheState, s: Session, d: Drained)
    requires Coherent(blocks, head, c) && SessionOk(blocks, s) && s.block == Some(head) && DrainOf(d, s)
    ensures Coherent(blocks, head, WithLocal(c, d))
  {
    TrueValuesAgree(c.top, d.top, blocks[head].top);
    TrueValuesAgree(c.child, d.child, blocks[head].child);
  }

  lemma CommitKeepsCoherence(blocks: Blocks, head: Block, c: CacheState, b: Block, changes: Changes, isBest: bool)
    requires Coherent(blocks, head, c)
    requires b.number > 0 && b.parent in blocks && b !in blocks && (isBest ==> b.parent == head)
    ensures Coherent(blocks[b := ChildState(blocks[b.parent], changes)], if isBest then b else head,
                     Commit(c, b.number, b, b.parent, changes, isBest))
  {
    var state := ChildState(blocks[b.parent], changes);
    var head' := if isBest then b else head;
    var m := BlockChanges(b.number, b, b.parent, KeysOf(changes.top), KeysOf(FlatChild(changes.child)), isBest);
    AppliedOnlyChanges(blocks[b.parent].top, changes.top);
    AppliedOnlyChanges(blocks[b.parent].child, FlatChild(changes.child));
    if !isBest && b.number <= head.number {
      AncestorKnown(blocks, head, b.number);
    }
    InsertedOk(blocks, head, head', b, state, c.mods, m);
    if isBest {
      ChangesAgree(c.top, changes.top, blocks[head].top);
      ChangesAgree(c.child, FlatChild(changes.child), blocks[head].child);
    }
  }

  /** An imported block is not on the route to its own parent. */
  lemma {:induction false} DroppedUnknown(h: Hash, s: seq<Hash>)
    requires h !in s
    ensures Dropped(Some(h), s) == s
  {
    if s != [] {
      DroppedUnknown(h, s[1..]);
    }
  }

  lemma BestImportKeepsCoherence(w: World, s: Session, b: Block, changes: Changes, d: Drained)
    requires Coherent(w.blocks, w.head, w.cache) && SessionOk(w.blocks, s) && DrainOf(d, s)
    requires b.number > 0 && b !in w.blocks && s.block == Some(b.parent)
    ensures Coherent(w.blocks[b := ChildState(w.blocks[b.parent], changes)], b,
                     SyncedCache(w.cache, s.block, d, Entering(w.head, b.parent), Leaving(w.head, b.parent),
                                 changes, Some(b), Some(b.number), true))
  {
    var p: Block := b.parent;
    RouteMembers(w.head, p, b);
    DroppedUnknown(b, Entering(w.head, p));
    SyncKeepsCoherence(w.blocks, w.head, p, w.cache);
    var c1 := Synced(w.cache, Entering(w.head, p), Leaving(w.head, p));
    LocalKeepsCoherence(w.blocks, p, c1, s, d);
    CommitKeepsCoherence(w.blocks, p, WithLocal(c1, d), b, changes, true);
  }

  lemma ImportKeepsCoherence(w: World, op: Op)
    requires Inv(w) && op.Import? && Enabled(w, op)
    ensures var w' := Step(w, op); Coherent(w'.blocks, w'.head, w'.cache)
  {
    var Import(id, b, changes, isBest, d) := op;
    if isBest {
      BestImportKeepsCoherence(w, w.sessions[id], b, changes, d);
    } else {
      SyncedNowhere(w.cache);
      CommitKeepsCoherence(w.blocks, w.head, w.cache, b, changes, false);
    }
  }

  lemma SyncedNowhere(c: CacheState)
    ensures Synced(c, [], []) == c
  {
    UnwoundNothing(c);
    var none: seq<Hash> := [];
    assert SetOf(none) == {};
  }

  lemma GrowthKeepsSession(blocks: Blocks, b: Block, state: BlockState, s: Session)
    requires SessionOk(blocks, s) && b !in blocks
    ensures SessionOk(blocks[b := state], s)
  {
  }

  lemma TopReadOk(blocks: Blocks, head: Block, c: CacheState, s: Session, k: Bytes)
    requires Coherent(blocks, head, c) && SessionOk(blocks, s)
    ensures var o := ReadTop(c, s, blocks[s.block.value], k); Coherent(blocks, head, o.cache) && SessionOk(blocks, o.session)
  {
    RefreshKeepsCoherence(blocks, head, c, k, ([], k));
  }

  lemma ChildReadOk(blocks: Blocks, head: Block, c: CacheState, s: Session, k: ChildKey)
    requires Coherent(blocks, head, c) && SessionOk(blocks, s)
    ensures var o := ReadChild(c, s, blocks[s.block.value], k); Coherent(blocks, head, o.cache) && SessionOk(blocks, o.session)
  {
    RefreshKeepsCoherence(blocks, head, c, k.1, k);
  }

  lemma HashReadOk(blocks: Blocks, head: Block, c: CacheState, s: Session, k: Bytes)
    requires Coherent(blocks, head, c) && SessionOk(blocks, s)
    ensures var o := ReadHash(c, s, blocks[s.block.value], k); Coherent(blocks, head, o.cache) && SessionOk(blocks, o.session)
  {
  }

  lemma ReadKeepsInv(w: World, op: Op)
    requires Inv(w) && Enabled(w, op) && (op.GetStorage? || op.GetStorageHash? || op.GetChildStorage?)
    ensures Inv(Step(w, op))
  {
    match op
    case GetStorage(id, k) => TopReadOk(w.blocks, w.head, w.cache, w.sessions[id], k);
    case GetStorageHash(id, k) => HashReadOk(w.blocks, w.head, w.cache, w.sessions[id], k);
    case GetChildStorage(id, k) => ChildReadOk(w.blocks, w.head, w.cache, w.sessions[id], k);
  }

  lemma DisposeKeepsInv(w: World, op: Op)
    requires Inv(w) && Enabled(w, op) && op.Dispose?
    ensures Inv(Step(w, op))
  {
    SyncedNowhere(w.cache);
    if Some(w.head) == w.sessions[op.id].block {
      LocalKeepsCoherence(w.blocks, w.head, w.cache, w.sessions[op.id], op.drained);
    }
  }

  // The split import

  lemma ListedInserted(mods: seq<BlockChanges>, m: BlockChanges, h: Hash)
    ensures Listed(Inserted(mods, m), h) <==> h == m.hash || Listed(mods, h)
  {
    var r, at := Inserted(mods, m), InsertionPoint(mods, m.number);
    assert r[at] == m;
    if Listed(mods, h) {
      var i := ListedEntry(mods, h);
      assert r[if i < at then i else i + 1] == mods[i];
    }
  }

  lemma ListedFlagged(mods: seq<BlockChanges>, enacted: set<Hash>, retracted: set<Hash>, h: Hash)
    ensures Listed(Trimmed(Flagged(mods, enacted, retracted)), h) <==> Listed(Trimmed(mods), h)
  {
    var flagged := Trimmed(Flagged(mods, enacted, retracted));
    assert |flagged| == |Trimmed(mods)|;
    assert forall i :: 0 <= i < |flagged| ==> flagged[i].hash == Trimmed(mods)[i].hash;
  }

  lemma TrimmedListed(mods: seq<BlockChanges>, h: Hash)
    ensures Listed(Trimmed(mods), h) ==> Listed(mods, h)
  {
  }

  /** The sync for the head mark finds a block of the route no longer listed, and wipes. */
  ghost predicate Resettles(w: World, op: Op)
    requires op.ImportSplit? && op.block.number > 0
  {
    var mods := Trimmed(w.cache.mods);
    !AllListed(mods, Entering(w.head, op.block.parent)) || !AllListed(mods, Leaving(w.head, op.block.parent))
  }

  /** What the commit of the block lists, seen from the route. */
  lemma ListedAfterCommit(c: CacheState, enacted: seq<Hash>, retracted: seq<Hash>, d: Drained, changes: Changes, b: Block, h: Hash)
    requires b.number > 0 && b !in enacted && h != b
    ensures var c1 := SyncedCache(c, Some(b.parent), d, enacted, retracted, changes, Some(b), Some(b.number), true);
            Listed(c1.mods, h) <==> AllListed(c.mods, enacted) && AllListed(c.mods, retracted) && Listed(Trimmed(c.mods), h)
  {
    DroppedUnknown(b, enacted);
    var c0 := Synced(c, enacted, retracted);
    var m := BlockChanges(b.number, b, b.parent, KeysOf(changes.top), KeysOf(FlatChild(changes.child)), true);
    ListedInserted(Trimmed(c0.mods), m, h);
    ListedFlagged(c.mods, SetOf(enacted), SetOf(retracted), h);
  }

  lemma RouteIsKnown(w: World, p: Block)
    requires ClosedTree(w.blocks) && w.head in w.blocks && p in w.blocks
    ensures forall h :: h in Entering(w.head, p) || h in Leaving(w.head, p) ==> h in w.blocks
  {
    var c := Common(w.head, p);
    UpAt(p, c.number);
    DownAt(w.head, c.number);
    forall b: Block, n: nat | b in w.blocks && n <= b.number ensures AncestorAt(b, n) in w.blocks {
      AncestorKnown(w.blocks, b, n);
    }
  }

  lemma SecondSyncWipesIff(w: World, op: Op)
    requires Inv(w) && op.ImportSplit? && Enabled(w, op)
    ensures var mods := CommittedBest(w, op.block, op.changes, op.drained).mods;
            !AllListed(mods, Entering(w.head, op.block.parent)) || !AllListed(mods, Leaving(w.head, op.block.parent))
            <==> Resettles(w, op)
  {
    var p: Block := op.block.parent;
    var enacted, retracted := Entering(w.head, p), Leaving(w.head, p);
    var c1 := CommittedBest(w, op.block, op.changes, op.drained);
    RouteIsKnown(w, p);
    forall h | h in enacted || h in retracted
      ensures Listed(c1.mods, h) <==> AllListed(w.cache.mods, enacted) && AllListed(w.cache.mods, retracted) && Listed(Trimmed(w.cache.mods), h)
      ensures Listed(Trimmed(w.cache.mods), h) ==> Listed(w.cache.mods, h)
    {
      ListedAfterCommit(w.cache, enacted, retracted, op.drained, op.changes, op.block, h);
      TrimmedListed(w.cache.mods, h);
    }
  }

  lemma CommittedIsListed(w: World, b: Block, changes: Changes, d: Drained) returns (i: nat)
    requires b.number > 0 && b !in Entering(w.head, b.parent)
    ensures var mods := CommittedBest(w, b, changes, d).mods; i < |mods| && mods[i].hash == b && mods[i].isCanon
  {
    var c0 := Synced(w.cache, Entering(w.head, b.parent), Leaving(w.head, b.parent));
    var m := BlockChanges(b.number, b, b.parent, KeysOf(changes.top), KeysOf(FlatChild(changes.child)), true);
    DroppedUnknown(b, Entering(w.head, b.parent));
    InsertedMembers(c0.mods, m);
    var mods := CommittedBest(w, b, changes, d).mods;
    assert mods == Inserted(Trimmed(c0.mods), m);
    i :| 0 <= i < |mods| && mods[i] == m;
  }

  lemma WrongMark(blocks: Blocks, head: Block, c: CacheState, i: nat)
    requires i < |c.mods| && c.mods[i].isCanon && Linked(c.mods[i].hash) && head.number < c.mods[i].hash.number
    ensures !Coherent(blocks, head, c)
  {
    assert !ModOk(blocks, head, c.mods[i]);
  }

  /** A second sync that does not wipe leaves the block marked canonical above the new head. */
  lemma BlockStaysCanonical(w: World, op: Op)
    requires Inv(w) && op.ImportSplit? && Enabled(w, op) && !Resettles(w, op)
    ensures var w' := Step(w, op); !Coherent(w'.blocks, w'.head, w'.cache)
  {
    var p: Block := op.block.parent;
    SecondSyncWipesIff(w, op);
    RouteIsKnown(w, p);
    var i := CommittedIsListed(w, op.block, op.changes, op.drained);
    var w' := Step(w, op);
    assert w'.cache.mods[i].hash == op.block && w'.cache.mods[i].isCanon;
    WrongMark(w'.blocks, p, w'.cache, i);
  }

  lemma WipedIsCoherent(blocks: Blocks, head: Block, c: CacheState)
    requires ClosedTree(blocks) && head in blocks
    ensures Coherent(blocks, head, Wiped(c))
  {
  }

  /** A split import keeps the cache coherent if and only if its second sync wipes. */
  lemma SplitKeepsIff(w: World, op: Op)
    requires Inv(w) && op.ImportSplit? && Enabled(w, op)
    ensures Inv(Step(w, op)) <==> Resettles(w, op)
  {
    if Resettles(w, op) {
      SplitWipes(w, op);
    } else {
      BlockStaysCanonical(w, op);
    }
  }

  lemma SplitWipes(w: World, op: Op)
    requires Inv(w) && op.ImportSplit? && Enabled(w, op) && Resettles(w, op)
    ensures Inv(Step(w, op)) && Step(w, op).cache.hashes.entries == []
  {
    var w', state := Step(w, op), ChildState(w.blocks[op.block.parent], op.changes);
    SecondSyncWipesIff(w, op);
    WipedIsCoherent(w'.blocks, w'.head, CommittedBest(w, op.block, op.changes, op.drained));
    forall i | i in w'.sessions ensures SessionOk(w'.blocks, w'.sessions[i]) {
      GrowthKeepsSession(w.blocks, op.block, state, w.sessions[i]);
    }
  }

  /** Split imports wipe the cache. */
  ghost predicate Settled(w: World, op: Op)
  {
    op.ImportSplit? ==> op.block.number > 0 && Resettles(w, op)
  }

  ghost predicate SettledRun(w: World, ops: seq<Op>)
    requires Runs(w, ops)
    decreases |ops|
  {
    ops == [] || (Settled(w, ops[0]) && SettledRun(Step(w, ops[0]), ops[1..]))
  }

  /** Every operation keeps the invariant if and only if it is not a split import that leaves the
      cache standing. */
  lemma StepKeepsInvIff(w: World, op: Op)
    requires Inv(w) && Enabled(w, op)
    ensures Inv(Step(w, op)) <==> Settled(w, op)
  {
    if op.ImportSplit? {
      SplitKeepsIff(w, op);
    } else {
      StepKeepsInv(w, op);
    }
  }

  lemma StepKeepsInv(w: World, op: Op)
    requires Inv(w) && Enabled(w, op) && !op.ImportSplit?
    ensures Inv(Step(w, op))
  {
    match op
    case OpenState(id, at) =>
      assert SessionOk(w.blocks, Session(Some(at), map[], map[], map[]));
    case Import(id, b, changes, isBest, d) =>
      ImportKeepsCoherence(w, op);
      forall i | i in w.sessions ensures SessionOk(w.blocks[b := ChildState(w.blocks[b.parent], changes)], w.sessions[i]) {
        GrowthKeepsSession(w.blocks, b, ChildState(w.blocks[b.parent], changes), w.sessions[i]);
      }
    case SetHead(b) =>
      SyncKeepsCoherence(w.blocks, w.head, b, w.cache);
    case Dispose(id, d) =>
      DisposeKeepsInv(w, op);
    case _ =>
      ReadKeepsInv(w, op);
  }

  lemma {:induction false} RunKeepsInv(w: World, ops: seq<Op>)
    requires Inv(w) && Runs(w, ops) && SettledRun(w, ops)
    ensures Inv(Run(w, ops))
    decreases |ops|
  {
    if ops != [] {
      StepKeepsInvIff(w, ops[0]);
      RunKeepsInv(Step(w, ops[0]), ops[1..]);
    }
  }

  lemma InitialInv(w: World)
    requires Initial(w)
    ensures Inv(w)
  {
  }

  /** Every read, of any key through any open state, after any run whose split imports wipe the
      cache, is the true value. */
  lemma ReadsAreTrue(w0: World, ops: seq<Op>, id: nat, key: Bytes, childKey: ChildKey)
    requires Initial(w0) && Runs(w0, ops) && SettledRun(w0, ops)
    requires id in Run(w0, ops).sessions
    ensures var w := Run(w0, ops);
            var s := w.sessions[id];
            && s.block.Some? && s.block.value in w.blocks
            && ReadTop(w.cache, s, TruthOf(w, id), key).value == Read(TruthOf(w, id).top, key)
            && ReadChild(w.cache, s, TruthOf(w, id), childKey).value == Read(TruthOf(w, id).child, childKey)
  {
    InitialInv(w0);
    RunKeepsInv(w0, ops);
    var w := Run(w0, ops);
    var s := w.sessions[id];
    assert SessionOk(w.blocks, s);
    if Allowed(w.cache.mods, s.block, Some(key), None) {
      AllowedSound(w.blocks, w.head, w.cache, s.block.value, Some(key), None);
      LookupEntry(w.cache.top.entries, key);
    }
    if Allowed(w.cache.mods, s.block, None, Some(childKey)) {
      AllowedSound(w.blocks, w.head, w.cache, s.block.value, None, Some(childKey));
      LookupEntry(w.cache.child.entries, childKey);
    }
  }

  // Cached value hashes

  ghost predicate HashesAgree(entries: seq<(Bytes, Option<ValueHash>)>, m: map<Bytes, Bytes>)
  {
    && Distinct(entries)
    && forall e :: e in entries ==> e.1 == HashAt(m, e.0)
  }

  /** Moving the head from `a` to `b` wipes the cache, or every cached hash of a key that some
      block of the route changed is of a value that came out the same. */
  ghost predicate Harmless(blocks: Blocks, a: Block, b: Block, c: CacheState)
    requires a in blocks && b in blocks
  {
    var route := SetOf(Entering(a, b)) + SetOf(Leaving(a, b));
    || !AllListed(c.mods, Entering(a, b)) || !AllListed(c.mods, Leaving(a, b))
    || forall e :: e in c.hashes.entries && e.0 in TopKeys(c.mods, route) ==> Read(blocks[a].top, e.0) == Read(blocks[b].top, e.0)
  }

  /** Moving the head purges the values the route changed but not their hashes: the hashes
      stay right exactly when the move is harmless. */
  lemma SyncKeepsHashesIff(blocks: Blocks, a: Block, b: Block, c: CacheState)
    requires Coherent(blocks, a, c) && b in blocks && HashesAgree(c.hashes.entries, blocks[a].top)
    ensures HashesAgree(Synced(c, Entering(a, b), Leaving(a, b)).hashes.entries, blocks[b].top) <==> Harmless(blocks, a, b, c)
  {
    if AllListed(c.mods, Entering(a, b)) && AllListed(c.mods, Leaving(a, b)) {
      var route := SetOf(Entering(a, b)) + SetOf(Leaving(a, b));
      forall k | k !in TopKeys(c.mods, route) ensures Read(blocks[a].top, k) == Read(blocks[b].top, k) {
        UnmovedTop(blocks, a, b, c.mods, route, k);
      }
    }
  }

  /** Every head move of the run is harmless. */
  ghost predicate HarmlessStep(w: World, op: Op)
    requires w.head in w.blocks && Enabled(w, op)
  {
    match op
    case SetHead(b) => Harmless(w.blocks, w.head, b, w.cache)
    case Import(_, b, _, isBest, _) => isBest ==> Harmless(w.blocks, w.head, b.parent, w.cache)
    case ImportSplit(_, _, _, _) => Resettles(w, op)
    case _ => true
  }

  ghost predicate HarmlessRun(w: World, ops: seq<Op>)
    requires Runs(w, ops)
    decreases |ops|
  {
    ops == [] || (w.head in w.blocks && HarmlessStep(w, ops[0]) && HarmlessRun(Step(w, ops[0]), ops[1..]))
  }

  lemma {:induction false} TrueHashesAgree(lru: Lru<Bytes, Option<ValueHash>>, s: seq<(Bytes, Option<ValueHash>)>, m: map<Bytes, Bytes>)
    requires HashesAgree(lru.entries, m)
    requires forall e :: e in s ==> e.1 == HashAt(m, e.0)
    ensures HashesAgree(AddAll(lru, s).entries, m)
    decreases |s|
  {
    if s != [] {
      AddEntries(lru, s[0].0, s[0].1);
      assert s[0] in s;
      TrueHashesAgree(Add(lru, s[0].0, s[0].1), s[1..], m);
    }
  }

  /** Dropping the hashes of changed keys leaves hashes of the changed storage. */
  lemma ChangeKeepsHashes(entries: seq<(Bytes, Option<ValueHash>)>, m: map<Bytes, Bytes>, changes: seq<(Bytes, Option<Bytes>)>)
    requires HashesAgree(entries, m)
    ensures HashesAgree(Kept(entries, KeysOf(changes)), Applied(m, changes))
  {
    AppliedOnlyChanges(m, changes);
    KeptEntries(entries, KeysOf(changes));
    KeptDistinct(entries, KeysOf(changes));
    var after := Applied(m, changes);
    forall k | k !in KeysOf(changes) ensures HashAt(after, k) == HashAt(m, k) {
      assert Read(after, k) == Read(m, k);
    }
  }

  lemma BestImportKeepsHashes(w: World, b: Block, changes: Changes, d: Drained, s: Session)
    requires Inv(w) && b.number > 0 && b.parent in w.blocks && b !in w.blocks
    requires s.block == Some(b.parent) && SessionOk(w.blocks, s) && DrainOf(d, s)
    requires HashesAgree(w.cache.hashes.entries, w.blocks[w.head].top) && Harmless(w.blocks, w.head, b.parent, w.cache)
    ensures HashesAgree(SyncedCache(w.cache, s.block, d, Entering(w.head, b.parent), Leaving(w.head, b.parent),
                                    changes, Some(b), Some(b.number), true).hashes.entries,
                        ChildState(w.blocks[b.parent], changes).top)
  {
    var p: Block := b.parent;
    RouteMembers(w.head, p, b);
    DroppedUnknown(b, Entering(w.head, p));
    SyncKeepsHashesIff(w.blocks, w.head, p, w.cache);
    var c1 := Synced(w.cache, Entering(w.head, p), Leaving(w.head, p));
    TrueHashesAgree(c1.hashes, d.hashes, w.blocks[p].top);
    ChangeKeepsHashes(WithLocal(c1, d).hashes.entries, w.blocks[p].top, changes.top);
  }

  lemma ImportKeepsHashes(w: World, op: Op)
    requires Inv(w) && op.Import? && Enabled(w, op) && HarmlessStep(w, op)
    requires HashesAgree(w.cache.hashes.entries, w.blocks[w.head].top)
    ensures var w' := Step(w, op); w'.head in w'.blocks && HashesAgree(w'.cache.hashes.entries, w'.blocks[w'.head].top)
  {
    if op.isBest {
      BestImportKeepsHashes(w, op.block, op.changes, op.drained, w.sessions[op.id]);
    } else {
      SyncedNowhere(w.cache);
    }
  }

  lemma DisposeKeepsHashes(w: World, op: Op)
    requires Inv(w) && op.Dispose? && Enabled(w, op)
    requires HashesAgree(w.cache.hashes.entries, w.blocks[w.head].top)
    ensures var w' := Step(w, op); w'.head in w'.blocks && HashesAgree(w'.cache.hashes.entries, w'.blocks[w'.head].top)
  {
    SyncedNowhere(w.cache);
    var s := w.sessions[op.id];
    if Some(w.head) == s.block {
      assert SessionOk(w.blocks, s);
      TrueHashesAgree(w.cache.hashes, op.drained.hashes, w.blocks[w.head].top);
    }
  }

  lemma LookupKeepsHashes(w: World, op: Op)
    requires w.head in w.blocks && Enabled(w, op) && !op.Import? && !op.ImportSplit? && !op.Dispose? && !op.SetHead?
    requires HashesAgree(w.cache.hashes.entries, w.blocks[w.head].top)
    ensures var w' := Step(w, op); w'.head in w'.blocks && HashesAgree(w'.cache.hashes.entries, w'.blocks[w'.head].top)
  {
    if op.GetStorageHash? {
      RefreshedEntries(w.cache.hashes.entries, op.key);
    }
  }

  lemma StepKeepsHashes(w: World, op: Op)
    requires Inv(w) && Enabled(w, op) && HarmlessStep(w, op)
    requires HashesAgree(w.cache.hashes.entries, w.blocks[w.head].top)
    ensures var w' := Step(w, op); w'.head in w'.blocks && HashesAgree(w'.cache.hashes.entries, w'.blocks[w'.head].top)
  {
    if op.Import? {
      ImportKeepsHashes(w, op);
    } else if op.ImportSplit? {
      SplitWipes(w, op);
    } else if op.Dispose? {
      DisposeKeepsHashes(w, op);
    } else if op.SetHead? {
      SyncKeepsHashesIff(w.blocks, w.head, op.target, w.cache);
    } else {
      LookupKeepsHashes(w, op);
    }
  }

  lemma {:induction false} RunKeepsHashes(w: World, ops: seq<Op>)
    requires Inv(w) && Runs(w, ops) && HarmlessRun(w, ops)
    requires HashesAgree(w.cache.hashes.entries, w.blocks[w.head].top)
    ensures var w' := Run(w, ops); Inv(w') && HashesAgree(w'.cache.hashes.entries, w'.blocks[w'.head].top)
    decreases |ops|
  {
    if ops != [] {
      StepKeepsInvIff(w, ops[0]);
      StepKeepsHashes(w, ops[0]);
      RunKeepsHashes(Step(w, ops[0]), ops[1..]);
    }
  }

  /** After any run of harmless head moves, hash reads are true as well. */
  lemma HashReadsAreTrue(w0: World, ops: seq<Op>, id: nat, key: Bytes)
    requires Initial(w0) && Runs(w0, ops) && HarmlessRun(w0, ops)
    requires id in Run(w0, ops).sessions
    ensures var w := Run(w0, ops);
            var s := w.sessions[id];
            && s.block.Some? && s.block.value in w.blocks
            && ReadHash(w.cache, s, TruthOf(w, id), key).value == HashAt(TruthOf(w, id).top, key)
  {
    InitialInv(w0);
    RunKeepsHashes(w0, ops);
    var w := Run(w0, ops);
    var s := w.sessions[id];
    assert SessionOk(w.blocks, s);
    if Allowed(w.cache.mods, s.block, Some(key), None) {
      AllowedSound(w.blocks, w.head, w.cache, s.block.value, Some(key), None);
      LookupEntry(w.cache.hashes.entries, key);
      assert Read(TruthOf(w, id).top, key) == Read(w.blocks[w.head].top, key);
    }
  }

  /** A head that only advances to a child imported on top of it moves harmlessly. */
  lemma AdvancingIsHarmless(w: World, op: Op)
    requires Inv(w) && Enabled(w, op)
    requires op.SetHead? ==> op.target == w.head
    requires op.Import? && op.isBest ==> op.block.parent == w.head
    requires !op.ImportSplit?
    ensures HarmlessStep(w, op)
  {
    assert Entering(w.head, w.head) == [] && Leaving(w.head, w.head) == [];
  }
}
