/** Committing block-import operations to the database: the canonical index, the best and
    finalized blocks, and the leaf set. */
module ChainDb {
  import opened Wrappers
  import opened ForkTree
  import opened ChainIndex
  import TreeRoutes
  import LeafSets

  datatype Error = UnknownBlock(hash: Hash) | NotInFinalizedChain | NonSequentialFinalization

  datatype NewBlockState = Normal | Best | Final {
    predicate IsBest() { Best? || Final? }
  }

  datatype Pending = Pending(block: Block, state: NewBlockState)

  datatype Operation = Operation(finalized: seq<Hash>, pending: Option<Pending>, setHead: Option<Hash>)

  datatype Imported = Imported(ops: seq<NumberOp>, finalized: Block, leafDisk: map<Hash, nat>)

  datatype HeadChange = HeadChange(ops: seq<NumberOp>, enacted: seq<Hash>, retracted: seq<Hash>)

  /** Each block of the list is a known child of the one before, starting above `last`. */
  predicate Sequential(db: set<Block>, last: Hash, blocks: seq<Hash>)
    decreases |blocks|
  {
    blocks == [] || (blocks[0] in db && blocks[0].parent == last && Sequential(db, blocks[0], blocks[1..]))
  }

  function LastOr(last: Hash, blocks: seq<Hash>): Hash
  {
    if blocks == [] then last else blocks[|blocks| - 1]
  }

  lemma {:induction false} SequentialSnoc(db: set<Block>, last: Hash, blocks: seq<Hash>, b: Hash)
    ensures Sequential(db, last, blocks + [b]) <==>
            Sequential(db, last, blocks) && b in db && b.parent == LastOr(last, blocks)
    decreases |blocks|
  {
    if blocks == [] {
      assert blocks + [b] == [b];
    } else {
      assert (blocks + [b])[1..] == blocks[1..] + [b];
      SequentialSnoc(db, blocks[0], blocks[1..], b);
    }
  }

  lemma {:induction false} SequentialPrefix(db: set<Block>, last: Hash, blocks: seq<Hash>, n: nat)
    requires n <= |blocks| && Sequential(db, last, blocks)
    ensures Sequential(db, last, blocks[..n])
    decreases |blocks|
  {
    if n > 0 {
      assert blocks[..n][1..] == blocks[1..][..n - 1];
      SequentialPrefix(db, blocks[0], blocks[1..], n - 1);
    }
  }

  /** Consecutive finalizations are exactly the chain up to the last of them. */
  lemma {:induction false} SequentialIsChain(db: set<Block>, last: Block, blocks: seq<Hash>)
    requires Sequential(db, last, blocks)
    ensures Linked(LastOr(last, blocks)) && OnChain(last, LastOr(last, blocks))
    ensures blocks == Up(LastOr(last, blocks), last.number)
    decreases |blocks|
  {
    if blocks != [] {
      var n := |blocks| - 1;
      assert blocks == blocks[..n] + [blocks[n]];
      SequentialPrefix(db, last, blocks, n);
      SequentialSnoc(db, last, blocks[..n], blocks[n]);
      SequentialIsChain(db, last, blocks[..n]);
      OnChainTransitive(last, LastOr(last, blocks[..n]), blocks[n]);
    }
  }

  lemma LeavesFinalized(db: set<Block>, f: nat, g: nat)
    requires f <= g
    ensures LeafSets.LeavesFrom(LeavesOf(db, f), g) == LeavesOf(db, g)
  {
    assert forall b :: b in LeafBlocks(db, g) <==> b in LeafBlocks(db, f) && b.number >= g;
  }

  /** Removes the number entries of retracted blocks, noticing the finalized one among them. */
  method WriteRetracted(leaving: seq<Block>, finalized: Block) returns (ops: seq<NumberOp>, reverts: bool)
    ensures ops == Deletes(leaving) && (reverts <==> finalized in leaving)
  {
    ops, reverts := [], false;
    for i := 0 to |leaving|
      invariant ops == Deletes(leaving[..i]) && (reverts <==> finalized in leaving[..i])
    {
      reverts := reverts || leaving[i] == finalized;
      assert leaving[..i + 1] == leaving[..i] + [leaving[i]];
      DeletesSnoc(leaving[..i], leaving[i]);
      ops := ops + [Delete(leaving[i].number)];
    }
    assert leaving[..|leaving|] == leaving;
  }

  method WriteEnacted(entering: seq<Block>) returns (ops: seq<NumberOp>)
    ensures ops == Puts(entering)
  {
    ops := [];
    for i := 0 to |entering|
      invariant ops == Puts(entering[..i])
    {
      assert entering[..i + 1] == entering[..i] + [entering[i]];
      PutsSnoc(entering[..i], entering[i]);
      ops := ops + [Put(entering[i].number, entering[i])];
    }
    assert entering[..|entering|] == entering;
  }

  /** Applies the transaction in order. */
  method WriteIndex(numbers: map<nat, Block>, ops: seq<NumberOp>) returns (r: map<nat, Block>)
    ensures r == Apply(numbers, ops)
  {
    r := numbers;
    for i := 0 to |ops|
      invariant Apply(numbers, ops) == Apply(r, ops[i..])
    {
      assert ops[i..][0] == ops[i] && ops[i..][1..] == ops[i + 1..];
      match ops[i]
      case Put(n, h) => r := r[n := h];
      case Delete(n) => r := r - {n};
    }
  }

  lemma UpSplit(a: Block, b: Block)
    requires OnChain(a, b)
    ensures Up(b, 0) == Up(a, 0) + Up(b, a.number)
  {
    UpAt(b, 0);
    UpAt(a, 0);
    UpAt(b, a.number);
    forall n | 0 <= n <= a.number ensures AncestorAt(a, n) == AncestorAt(b, n) {
      AncestorOfAncestor(b, a.number, n);
    }
  }

  // What an operation does, as a function of the tree

  /** What the client has checked before building an operation. */
  ghost predicate WellFormed(db: set<Block>, finalized: Block, op: Operation)
  {
    op.pending.Some? ==>
      var b := op.pending.value.block;
      && b.number > finalized.number && b.parent in db && b !in db
      && forall h :: h in op.finalized && h in db ==> h.number < b.number
  }

  predicate AcceptsBlocks(db: set<Block>, best: Block, finalized: Block, op: Operation)
  {
    && Sequential(db, finalized, op.finalized)
    && (op.pending.Some? && op.pending.value.state.IsBest() ==>
          var p := op.pending.value.block.parent; p in db && finalized !in Leaving(best, p))
    && (op.pending.Some? && op.pending.value.state.Final? ==> op.pending.value.block.parent == LastOr(finalized, op.finalized))
  }

  predicate Accepts(db: set<Block>, best: Block, finalized: Block, op: Operation)
  {
    && AcceptsBlocks(db, best, finalized, op)
    && (op.setHead.Some? ==> op.setHead.value in db && finalized !in Leaving(best, op.setHead.value))
  }

  function HeadersAfter(db: set<Block>, op: Operation): set<Block>
  {
    if op.pending.Some? then db + {op.pending.value.block} else db
  }

  function BestAfter(best: Block, op: Operation): Hash
  {
    if op.setHead.Some? then op.setHead.value
    else if op.pending.Some? && op.pending.value.state.IsBest() then op.pending.value.block
    else best
  }

  function FinalizedAfter(finalized: Block, op: Operation): Hash
  {
    if op.pending.Some? && op.pending.value.state.Final? then op.pending.value.block
    else LastOr(finalized, op.finalized)
  }

  /** The blocks an operation finalizes, in order. */
  function NewlyFinalized(finalized: Block, op: Operation): seq<Hash>
  {
    op.finalized + if op.pending.Some? && op.pending.value.state.Final? then [op.pending.value.block] else []
  }

  /** The index changes of the transaction, in the order they are written. */
  function PendingOps(best: Block, op: Operation): seq<NumberOp>
  {
    if op.pending.Some? && op.pending.value.state.IsBest() && op.pending.value.block.number > 0
    then HeadOps(best, op.pending.value.block.parent, op.pending.value.block) else []
  }

  function IndexOps(best: Block, op: Operation): seq<NumberOp>
  {
    PendingOps(best, op) +
    if op.setHead.Some? && Linked(op.setHead.value) then HeadOps(best, op.setHead.value, op.setHead.value) else []
  }

  lemma HeadersGrow(db: set<Block>, op: Operation)
    requires ValidTree(db)
    requires op.pending.Some? ==> op.pending.value.block.number > 0 && op.pending.value.block.parent in db
    ensures ValidTree(HeadersAfter(db, op)) && db <= HeadersAfter(db, op)
  {
  }

  /** Accepted finalizations extend the finalized chain block by block. */
  lemma LogGrows(db: set<Block>, finalized: Block, op: Operation)
    requires Sequential(db, finalized, op.finalized)
    requires op.pending.Some? && op.pending.value.state.Final? ==>
               op.pending.value.block.number > 0 && op.pending.value.block.parent == LastOr(finalized, op.finalized)
    ensures Linked(FinalizedAfter(finalized, op)) && OnChain(finalized, FinalizedAfter(finalized, op))
    ensures Up(finalized, 0) + NewlyFinalized(finalized, op) == Up(FinalizedAfter(finalized, op), 0)
  {
    SequentialIsChain(db, finalized, op.finalized);
    var last: Block := LastOr(finalized, op.finalized);
    UpSplit(finalized, last);
    if op.pending.Some? && op.pending.value.state.Final? {
      OnChainTransitive(finalized, last, op.pending.value.block);
    }
  }

  lemma SequentialStep(db: set<Block>, last: Block, blocks: seq<Hash>, i: nat)
    requires i < |blocks| && Sequential(db, last, blocks[..i])
    ensures if blocks[i] in db && blocks[i].parent == LastOr(last, blocks[..i])
            then Sequential(db, last, blocks[..i + 1]) && LastOr(last, blocks[..i + 1]) == blocks[i]
            else !Sequential(db, last, blocks)
  {
    assert blocks[..i + 1] == blocks[..i] + [blocks[i]];
    SequentialSnoc(db, last, blocks[..i], blocks[i]);
    if Sequential(db, last, blocks) {
      SequentialPrefix(db, last, blocks, i + 1);
    }
  }

  /** `f` is where finalizing the blocks one by one passes or stops. */
  ghost predicate Reached(db: set<Block>, last: Block, blocks: seq<Hash>, f: Block)
  {
    exists i :: 0 <= i <= |blocks| && Sequential(db, last, blocks[..i]) && LastOr(last, blocks[..i]) == f
  }

  class Backend {
    var headers: set<Block>
    var numbers: map<nat, Block>
    var leafDisk: map<Hash, nat>
    var best: Block
    var finalized: Block
    const leaves: LeafSets.LeafSet
    ghost var finalizedLog: seq<Hash>

    ghost predicate Stored()
      reads this
    {
      ValidTree(headers) && best in headers && finalized in headers && finalizedLog == Up(finalized, 0)
    }

    /** The leaf set is the childless blocks from height `f` up, in memory and, once pending
        changes are written, on disk. */
    ghost predicate LeavesExact(f: nat)
      reads this, leaves
    {
      && leaves.Valid()
      && leaves.leaves == LeavesOf(headers, f)
      && leaves.Persists(leafDisk)
      && forall h :: h in leaves.pendingRemoved ==> h in headers
    }

    ghost predicate Valid()
      reads this, leaves
    {
      && Stored()
      && numbers == Canon(best)
      && OnChain(finalized, best)
      && LeavesExact(finalized.number)
    }

    /** The database once the genesis block has been committed as best and final. */
    constructor ()
      ensures Valid() && fresh(leaves)
      ensures headers == {GENESIS} && best == GENESIS && finalized == GENESIS && leafDisk == leaves.leaves
    {
      headers, numbers := {GENESIS}, map[0 := GENESIS];
      best, finalized, finalizedLog := GENESIS, GENESIS, [];
      leaves := new LeafSets.LeafSet();
      leafDisk := map[];
      new;
      var displaced := leaves.Import(GENESIS, 0, Unset, leafDisk);
      leafDisk := leaves.PrepareTransaction(leafDisk);
      assert LeafBlocks(headers, 0) == {GENESIS};
    }

    /** Writes the index changes of a new head, refusing to retract the finalized block. */
    method SetHeadWithTransaction(routeTo: Hash, to: Block) returns (r: Result<HeadChange, Error>)
      requires Stored()
      ensures r.Ok? <==> routeTo in headers && finalized !in Leaving(best, routeTo)
      ensures r.Ok? ==> r.value == HeadChange(HeadOps(best, routeTo, to), Entering(best, routeTo), Leaving(best, routeTo))
      ensures r.Err? ==> r.error == if routeTo in headers then NotInFinalizedChain else UnknownBlock(routeTo)
    {
      if routeTo in headers {
        TreeRoutes.TreeIsConnected(headers, best, routeTo);
      }
      var route := TreeRoutes.ComputeTreeRoute(headers, best, routeTo);
      if route.Err? {
        return Err(UnknownBlock(routeTo));
      }
      var leaving, entering := route.value.Retracted(), route.value.Enacted();
      var deletes, reverts := WriteRetracted(leaving, finalized);
      if reverts {
        return Err(NotInFinalizedChain);
      }
      var puts := WriteEnacted(entering);
      r := Ok(HeadChange(deletes + puts + [Put(to.number, to)], entering, leaving));
    }

    /** Moves the leaf set's lower bound up to one more finalized block. */
    method FinalizeOne(f: nat, block: Block)
      requires ValidTree(headers) && LeavesExact(f) && f <= block.number
      modifies leaves
      ensures LeavesExact(block.number)
    {
      LeavesFinalized(headers, f, block.number);
      var displaced := leaves.FinalizeHeight(block.number, leafDisk);
    }

    /** Notes the blocks finalized in turn; on failure the leaf set may already have moved. */
    method FinalizeBlocks(blocks: seq<Hash>) returns (r: Result<Block, Error>)
      requires Stored() && LeavesExact(finalized.number)
      modifies leaves
      ensures r.Ok? <==> Sequential(headers, finalized, blocks)
      ensures r.Ok? ==> r.value == LastOr(finalized, blocks) && r.value in headers && LeavesExact(r.value.number)
      ensures r.Ok? ==> finalized.number <= r.value.number
      ensures r.Err? ==> exists f: Block :: Reached(headers, finalized, blocks, f) && LeavesExact(f.number)
      ensures blocks == [] ==> r == Ok(finalized)
    {
      var last := finalized;
      for i := 0 to |blocks|
        invariant last == LastOr(finalized, blocks[..i]) && last in headers && finalized.number <= last.number
        invariant Sequential(headers, finalized, blocks[..i]) && LeavesExact(last.number)
        invariant i == 0 ==> last == finalized
      {
        SequentialStep(headers, finalized, blocks, i);
        if blocks[i] !in headers || blocks[i].parent != last {
          assert Reached(headers, finalized, blocks, last);
          return Err(if blocks[i] in headers then NonSequentialFinalization else UnknownBlock(blocks[i]));
        }
        FinalizeOne(last.number, blocks[i]);
        last := blocks[i];
      }
      assert blocks[..|blocks|] == blocks;
      r := Ok(last);
    }

    /** Adds the imported block to the leaf set and writes the pending leaf changes; the
        header itself reaches the database in the same write. */
    method ImportLeaf(b: Block, ghost f: nat) returns (written: map<Hash, nat>)
      requires ValidTree(headers) && LeavesExact(f)
      requires b !in headers && b.number > 0 && b.parent in headers && b.number >= f
      modifies leaves
      ensures leaves.Valid() && leaves.leaves == LeavesOf(headers + {b}, f)
      ensures written == leaves.leaves && leaves.Persists(written) && leaves.pendingRemoved == []
    {
      assert b !in leaves.pendingRemoved + [b.parent];
      LeavesAfterImport(headers, f, b);
      var displaced := leaves.Import(b, b.number, b.parent, leafDisk);
      assert leaves.Persists(leafDisk);
      written := leaves.PrepareTransaction(leafDisk);
    }

    /** The part of a commit that concerns the imported block, on top of last finalized `f`. */
    method CommitPending(p: Pending, f: Block) returns (r: Result<Imported, Error>)
      requires Stored() && f in headers && LeavesExact(f.number)
      requires p.block.number > f.number && p.block.parent in headers && p.block !in headers
      modifies leaves
      ensures r.Ok? <==>
                && (p.state.IsBest() ==> finalized !in Leaving(best, p.block.parent))
                && (p.state.Final? ==> p.block.parent == f)
      ensures r.Err? ==> LeavesExact(f.number)
      ensures r.Ok? ==>
                && r.value.finalized == (if p.state.Final? then p.block else f)
                && r.value.ops == (if p.state.IsBest() then HeadOps(best, p.block.parent, p.block) else [])
                && leaves.Valid() && leaves.leaves == LeavesOf(headers + {p.block}, r.value.finalized.number)
                && r.value.leafDisk == leaves.leaves && leaves.Persists(r.value.leafDisk) && leaves.pendingRemoved == []
    {
      var Pending(b, state) := p;
      var ops: seq<NumberOp> := [];
      if state.IsBest() {
        var change := SetHeadWithTransaction(b.parent, b);
        if change.Err? {
          return Err(change.error);
        }
        ops := change.value.ops;
      }
      var newFinalized := f;
      if state.Final? {
        if b.parent != f {
          return Err(NonSequentialFinalization);
        }
        LeavesFinalized(headers, f.number, b.number);
        var displaced := leaves.FinalizeHeight(b.number, leafDisk);
        newFinalized := b;
      }
      var written := ImportLeaf(b, newFinalized.number);
      r := Ok(Imported(ops, newFinalized, written));
    }

    /** The finalized blocks and the pending block of an operation. */
    method PrepareBlocks(op: Operation) returns (r: Result<Imported, Error>)
      requires Valid() && WellFormed(headers, finalized, op)
      modifies leaves
      ensures r.Ok? <==> AcceptsBlocks(headers, best, finalized, op)
      ensures r.Err? ==> exists f: Block :: Reached(headers, finalized, op.finalized, f) && LeavesExact(f.number)
      ensures r.Ok? ==>
                && r.value.ops == PendingOps(best, op) && r.value.finalized == FinalizedAfter(finalized, op)
                && r.value.finalized in HeadersAfter(headers, op)
                && leaves.Valid() && leaves.leaves == LeavesOf(HeadersAfter(headers, op), r.value.finalized.number)
                && leaves.Persists(r.value.leafDisk)
                && r.value.leafDisk == (if op.pending.Some? then leaves.leaves else leafDisk)
                && forall h :: h in leaves.pendingRemoved ==> h in HeadersAfter(headers, op)
    {
      var last := FinalizeBlocks(op.finalized);
      if last.Err? {
        return Err(last.error);
      }
      if op.pending.Some? {
        if op.finalized != [] {
          assert last.value in op.finalized;
        }
        assert Reached(headers, finalized, op.finalized, last.value) by {
          assert op.finalized[..|op.finalized|] == op.finalized;
        }
        r := CommitPending(op.pending.value, last.value);
      } else {
        assert headers + {} == headers;
        r := Ok(Imported([], last.value, leafDisk));
      }
    }

    /** The head mark of an operation, which must name a stored block. */
    method PrepareHead(target: Option<Hash>) returns (r: Result<seq<NumberOp>, Error>)
      requires Stored()
      ensures r.Ok? <==> (target.Some? ==> target.value in headers && finalized !in Leaving(best, target.value))
      ensures r.Ok? ==> r.value == if target.Some? then HeadOps(best, target.value, target.value) else []
    {
      if target.None? {
        return Ok([]);
      }
      if target.value !in headers {
        return Err(UnknownBlock(target.value));
      }
      var change := SetHeadWithTransaction(target.value, target.value);
      if change.Err? {
        return Err(change.error);
      }
      r := Ok(change.value.ops);
    }

    /** Writes the transaction and updates the in-memory best and finalized blocks. */
    method Write(op: Operation, w: Imported)
      requires Stored() && Sequential(headers, finalized, op.finalized)
      requires op.pending.Some? ==>
                 && op.pending.value.block.number > 0 && op.pending.value.block.parent in headers
                 && (op.pending.value.state.Final? ==> op.pending.value.block.parent == LastOr(finalized, op.finalized))
      requires op.setHead.Some? ==> op.setHead.value in headers
      requires w.finalized == FinalizedAfter(finalized, op) && w.finalized in HeadersAfter(headers, op)
      modifies this
      ensures headers == HeadersAfter(old(headers), op) && leafDisk == w.leafDisk
      ensures best == BestAfter(old(best), op) && finalized == w.finalized
      ensures numbers == Apply(old(numbers), w.ops)
      ensures Stored() && OnChain(old(finalized), finalized)
    {
      LogGrows(headers, finalized, op);
      HeadersGrow(headers, op);
      ghost var log := finalizedLog + NewlyFinalized(finalized, op);
      assert log == Up(w.finalized, 0);
      var written := WriteIndex(numbers, w.ops);
      var head := best;
      if op.pending.Some? && op.pending.value.state.IsBest() {
        head := op.pending.value.block;
      }
      if op.setHead.Some? {
        head := op.setHead.value;
      }
      assert head == BestAfter(best, op) && head in HeadersAfter(headers, op);
      Store(HeadersAfter(headers, op), written, w.leafDisk, head, w.finalized, log);
    }

    /** The one write of all columns and markers. */
    method Store(headers: set<Block>, numbers: map<nat, Block>, leafDisk: map<Hash, nat>, best: Block, finalized: Block,
                 ghost log: seq<Hash>)
      requires ValidTree(headers) && best in headers && finalized in headers && log == Up(finalized, 0)
      modifies this
      ensures this.headers == headers && this.numbers == numbers && this.leafDisk == leafDisk
      ensures this.best == best && this.finalized == finalized && finalizedLog == log && Stored()
    {
      this.headers, this.numbers, this.leafDisk := headers, numbers, leafDisk;
      this.best, this.finalized, finalizedLog := best, finalized, log;
    }

    /** Builds one transaction from the finalized blocks, the pending block and the head
        mark, writes it, then updates the in-memory best and finalized blocks. */
    method TryCommitOperation(op: Operation) returns (r: Result<(), Error>)
      requires Valid() && WellFormed(headers, finalized, op)
      modifies this, leaves
      ensures r.Ok? <==> old(Accepts(headers, best, finalized, op))
      ensures r.Err? ==>
                && headers == old(headers) && numbers == old(numbers) && leafDisk == old(leafDisk)
                && best == old(best) && finalized == old(finalized) && finalizedLog == old(finalizedLog)
      ensures r.Err? && !old(AcceptsBlocks(headers, best, finalized, op)) ==>
                exists f: Block :: Reached(headers, finalized, op.finalized, f) && LeavesExact(f.number)
      ensures r.Err? && old(AcceptsBlocks(headers, best, finalized, op)) ==>
                && op.setHead.Some? && leaves.Valid() && Linked(FinalizedAfter(finalized, op))
                && leaves.leaves == LeavesOf(HeadersAfter(headers, op), FinalizedAfter(finalized, op).number)
      ensures r.Err? && op.finalized == [] && (op.pending.None? || op.setHead.None?) ==> Valid()
      ensures r.Ok? ==>
                && headers == HeadersAfter(old(headers), op)
                && best == BestAfter(old(best), op)
                && finalized == FinalizedAfter(old(finalized), op)
                && numbers == Apply(old(numbers), IndexOps(old(best), op))
                && OnChain(old(finalized), finalized)
                && Stored() && LeavesExact(finalized.number)
                && (op.pending.Some? ==> leafDisk == leaves.leaves)
    {
      var prepared := PrepareBlocks(op);
      if prepared.Err? {
        return Err(prepared.error);
      }
      var marked := PrepareHead(op.setHead);
      if marked.Err? {
        return Err(marked.error);
      }
      Write(op, prepared.value.(ops := prepared.value.ops + marked.value));
      r := Ok(());
    }
  }
}
