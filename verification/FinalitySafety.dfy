/** The client's import and finalization decisions, and what every run of them keeps. */
module FinalitySafety {
  import opened Wrappers
  import opened ForkTree
  import opened ChainIndex
  import opened ChainDb
  import TreeRoutes

  datatype ForkChoice = LongestChain | Custom(choose: bool)

  datatype Request =
    | ImportBlock(block: Block, finalized: bool, choice: ForkChoice)
    | FinalizeBlock(target: Hash)

  datatype Response = AlreadyInChain | UnknownParent | Imported(isNewBest: bool) | Finalized | Failed(error: Error)

  /** What the index, leaf set and metadata are all functions of. */
  datatype Chain = Chain(blocks: set<Block>, best: Block, finalized: Block)

  ghost predicate Sound(c: Chain)
  {
    ValidTree(c.blocks) && c.best in c.blocks && c.finalized in c.blocks && OnChain(c.finalized, c.best)
  }

  predicate IsNewBest(c: Chain, r: Request)
    requires r.ImportBlock?
  {
    r.finalized || match r.choice case LongestChain => r.block.number > c.best.number case Custom(v) => v
  }

  /** The specification of both requests on the tree. */
  function Handle(c: Chain, r: Request): (Chain, Response)
  {
    match r
    case FinalizeBlock(target) =>
      if target == c.finalized then (c, Finalized)
      else if target !in c.blocks then (c, Failed(Error.UnknownBlock(target)))
      else if !OnChain(c.finalized, target) then (c, Failed(NotInFinalizedChain))
      else (c.(finalized := target, best := if OnChain(target, c.best) then c.best else target), Finalized)
    case ImportBlock(b, fin, _) =>
      if b.number == 0 || b.parent !in c.blocks then (c, UnknownParent)
      else if b in c.blocks then (c, AlreadyInChain)
      else if b.number <= c.finalized.number then (c, Failed(NotInFinalizedChain))
      else if IsNewBest(c, r) && !OnChain(c.finalized, b.parent) then (c, Failed(NotInFinalizedChain))
      else
        var best := if !IsNewBest(c, r) then c.best
                    else if fin && !OnChain(b.parent, c.best) then b.parent
                    else b;
        (Chain(c.blocks + {b}, best, if fin then b else c.finalized), Response.Imported(IsNewBest(c, r)))
  }

  /** A block imported as final whose parent is not on the best chain: the operation then
      carries both the new block and a head mark for its parent. */
  predicate SplitsHead(c: Chain, r: Request)
  {
    && r.ImportBlock? && r.finalized
    && r.block.number > c.finalized.number && r.block.parent in c.blocks && r.block !in c.blocks
    && OnChain(c.finalized, r.block.parent) && !OnChain(r.block.parent, c.best)
  }

  // What the requests mean

  /** An import is accepted exactly above finality, once, on a known parent, and, if it is to
      become best, on top of the finalized block; a refused one changes nothing. */
  lemma ImportAcceptedIff(c: Chain, b: Block, fin: bool, choice: ForkChoice)
    ensures var (c', response) := Handle(c, ImportBlock(b, fin, choice));
            && (response.Imported? <==>
                  && b.number > c.finalized.number && b.parent in c.blocks && b !in c.blocks
                  && (fin || choice == Custom(true) || (choice == LongestChain && b.number > c.best.number) ==>
                        OnChain(c.finalized, b.parent)))
            && (!response.Imported? ==> c' == c)
            && (b.number == 0 || b.parent !in c.blocks ==> response == UnknownParent)
            && (b.number > 0 && b.parent in c.blocks && b in c.blocks ==> response == AlreadyInChain)
  {
  }

  /** Under the longest-chain rule an accepted block becomes best exactly when it is higher than
      the best block; under a custom rule, exactly when the caller says so. */
  lemma ForkChoiceIsKept(c: Chain, b: Block, choice: ForkChoice)
    requires Handle(c, ImportBlock(b, false, choice)).1.Imported?
    ensures var (c', response) := Handle(c, ImportBlock(b, false, choice));
            && c'.blocks == c.blocks + {b} && c'.finalized == c.finalized
            && (choice == LongestChain ==>
                  && (response.isNewBest <==> b.number > c.best.number)
                  && c'.best == if b.number > c.best.number then b else c.best)
            && (choice.Custom? ==> response == Response.Imported(choice.choose) && c'.best == if choice.choose then b else c.best)
  {
  }

  /** A block accepted as final is finalized and reported as new best; it is best unless its
      parent was off the best chain. */
  lemma FinalImportIsFinal(c: Chain, b: Block, choice: ForkChoice)
    requires Handle(c, ImportBlock(b, true, choice)).1.Imported?
    ensures var (c', response) := Handle(c, ImportBlock(b, true, choice));
            && c'.blocks == c.blocks + {b} && c'.finalized == b && response == Response.Imported(true)
            && c'.best == if OnChain(b.parent, c.best) then b else b.parent
  {
  }

  /** Finalizing succeeds exactly for the finalized block and known blocks above it, moves
      finality there, and moves best only when the block is off the best chain. */
  lemma FinalizeMovesFinality(c: Chain, target: Hash)
    requires Sound(c)
    ensures var (c', response) := Handle(c, FinalizeBlock(target));
            && (response == Finalized <==> target in c.blocks && OnChain(c.finalized, target))
            && (response == Finalized ==> c'.finalized == target && c'.blocks == c.blocks)
            && (response == Finalized ==> c'.best == if OnChain(target, c.best) then c.best else target)
            && (response != Finalized ==> c' == c && response.Failed?)
  {
  }

  // Whole runs

  /** Imports under the longest-chain rule, none of them final. */
  predicate LongestChainOnly(rs: seq<Request>)
  {
    forall i :: 0 <= i < |rs| ==> rs[i].ImportBlock? && !rs[i].finalized && rs[i].choice == LongestChain
  }

  ghost predicate NoneHigher(c: Chain)
  {
    forall b :: b in c.blocks ==> b.number <= c.best.number
  }

  /** Over any run of longest-chain imports best is at least as high as every accepted block,
      and it only ever moves to a strictly higher one, so that ties never move it. */
  lemma {:induction false} HighestWins(c: Chain, rs: seq<Request>)
    requires LongestChainOnly(rs) && NoneHigher(c)
    ensures NoneHigher(Run(c, rs)) && c.blocks <= Run(c, rs).blocks
    ensures Run(c, rs).best == c.best || Run(c, rs).best.number > c.best.number
    ensures (forall b :: b in Run(c, rs).blocks ==> b.number <= c.best.number) ==> Run(c, rs).best == c.best
    decreases |rs|
  {
    if rs != [] {
      var c1 := Handle(c, rs[0]).0;
      ImportAcceptedIff(c, rs[0].block, false, LongestChain);
      if Handle(c, rs[0]).1.Imported? {
        ForkChoiceIsKept(c, rs[0].block, LongestChain);
      }
      HighestWins(c1, rs[1..]);
    }
  }

  function Run(c: Chain, rs: seq<Request>): Chain
    decreases |rs|
  {
    if rs == [] then c else Run(Handle(c, rs[0]).0, rs[1..])
  }

  predicate NeverSplits(c: Chain, rs: seq<Request>)
    decreases |rs|
  {
    rs == [] || (!SplitsHead(c, rs[0]) && NeverSplits(Handle(c, rs[0]).0, rs[1..]))
  }

  /** A request keeps the best block at or above the finalized one exactly when it does not
      split the head. */
  lemma HandleSoundIff(c: Chain, r: Request)
    requires Sound(c)
    ensures Sound(Handle(c, r).0) <==> !SplitsHead(c, r)
    ensures OnChain(c.finalized, Handle(c, r).0.finalized)
  {
    if r.ImportBlock? && Handle(c, r).1.Imported? {
      var b := r.block;
      assert OnChain(b.parent, b);
      if OnChain(c.finalized, b.parent) {
        OnChainTransitive(c.finalized, b.parent, b);
      }
    }
  }

  lemma SameBelow(a: Block, b: Block, c: Block, n: nat)
    requires OnChain(a, b) && OnChain(a, c) && n <= a.number
    ensures AncestorAt(b, n) == AncestorAt(c, n)
  {
    AncestorOfAncestor(b, a.number, n);
    AncestorOfAncestor(c, a.number, n);
  }

  /** Over any run the best block stays on the finalized chain, finality only advances along
      one chain, and no canonical hash at or below the finalized number ever changes. */
  lemma {:induction false} FinalizedPrefixIsForever(c: Chain, rs: seq<Request>)
    requires Sound(c) && NeverSplits(c, rs)
    ensures Sound(Run(c, rs))
    ensures OnChain(c.finalized, Run(c, rs).finalized)
    ensures forall n :: 0 <= n <= c.finalized.number ==>
              n in Canon(Run(c, rs).best) && Canon(Run(c, rs).best)[n] == Canon(c.best)[n]
    decreases |rs|
  {
    if rs != [] {
      var c1, last := Handle(c, rs[0]).0, Run(c, rs);
      HandleSoundIff(c, rs[0]);
      FinalizedPrefixIsForever(c1, rs[1..]);
      OnChainTransitive(c.finalized, c1.finalized, last.finalized);
      OnChainTransitive(c.finalized, last.finalized, last.best);
      forall n | 0 <= n <= c.finalized.number ensures AncestorAt(last.best, n) == AncestorAt(c.best, n) {
        SameBelow(c.finalized, last.best, c.best, n);
      }
    }
  }

  /** A split head in practice: two forks of height one, and a final block on the losing one. */
  lemma SplitHeadBreaksFinality() returns (c: Chain, r: Request)
    ensures Sound(c) && SplitsHead(c, r)
    ensures var c' := Handle(c, r).0; c'.best.number < c'.finalized.number && !OnChain(c'.finalized, c'.best)
  {
    var a: Block := HashOf(1, GENESIS, Content(1, None));
    var b: Block := HashOf(1, GENESIS, Content(2, None));
    var b2: Block := HashOf(2, b, Content(3, None));
    c := Chain({GENESIS, a, b}, a, GENESIS);
    r := ImportBlock(b2, true, LongestChain);
  }

  // The client

  lemma {:induction false} UpSequential(db: set<Block>, last: Block, b: Block)
    requires ValidTree(db) && b in db && OnChain(last, b)
    ensures Sequential(db, last, Up(b, last.number)) && LastOr(last, Up(b, last.number)) == b
    decreases b.number
  {
    if last != b {
      OnChainComparable(last, b.parent, b);
      UpSequential(db, last, b.parent);
      SequentialSnoc(db, last, Up(b.parent, last.number), b);
    }
  }

  class Client {
    const backend: Backend

    ghost function View(): Chain
      reads backend
    {
      Chain(backend.headers, backend.best, backend.finalized)
    }

    constructor (backend: Backend)
      ensures this.backend == backend
    {
      this.backend := backend;
    }

    /** The blocks to mark finalized, and the head to mark when `block` is off the best chain. */
    method ApplyFinality(block: Hash) returns (r: Result<(seq<Hash>, Option<Hash>), Error>)
      requires backend.Valid()
      ensures r.Ok? <==> block in backend.headers && OnChain(backend.finalized, block)
      ensures r.Err? ==> r.error == if block in backend.headers then NotInFinalizedChain else Error.UnknownBlock(block)
      ensures r.Ok? ==>
                && r.value.0 == Up(block, backend.finalized.number)
                && r.value.1 == if OnChain(block, backend.best) then None else Some(block)
    {
      var last := backend.finalized;
      if block == last {
        return Ok(([], None));
      }
      if block in backend.headers {
        TreeRoutes.TreeIsConnected(backend.headers, last, block);
        TreeRoutes.TreeIsConnected(backend.headers, backend.best, block);
      }
      var fromFinalized := TreeRoutes.ComputeTreeRoute(backend.headers, last, block);
      if fromFinalized.Err? {
        return Err(Error.UnknownBlock(block));
      }
      RouteMembers(last, block, last);
      if fromFinalized.value.Retracted() != [] {
        ghost var x := Leaving(last, block)[0];
        RouteMembers(last, block, x);
        if OnChain(last, block) {
          OnChainTransitive(x, last, block);
        }
        return Err(NotInFinalizedChain);
      }
      var fromBest := TreeRoutes.ComputeTreeRoute(backend.headers, backend.best, block);
      CommonIsEnd(backend.best, block);
      CommonIsEnd(block, last);
      CommonSymmetric(block, last);
      var mark: Option<Hash> := None;
      if fromBest.value.CommonBlock() != block {
        mark := Some(block);
      }
      r := Ok((fromFinalized.value.Enacted(), mark));
    }

    /** Finalizes a block and everything below it in one operation. */
    method Finalize(target: Hash) returns (response: Response)
      requires backend.Valid()
      modifies backend, backend.leaves
      ensures backend.Valid()
      ensures (View(), response) == Handle(old(View()), FinalizeBlock(target))
    {
      var applied := ApplyFinality(target);
      if applied.Err? {
        return Failed(applied.error);
      }
      var op := Operation(applied.value.0, None, applied.value.1);
      FinalizeAccepted(backend.headers, backend.best, backend.finalized, target, op);
      var r := backend.TryCommitOperation(op);
      response := Finalized;
    }

    /** Checks the block against the chain and collects what its import will do. */
    method PrepareImport(b: Block, fin: bool, choice: ForkChoice) returns (r: Result<Operation, Response>)
      requires backend.Valid()
      ensures r.Err? ==> Handle(View(), ImportBlock(b, fin, choice)) == (View(), r.error) && !r.error.Imported?
      ensures r.Ok? ==> IsImportOf(View(), ImportBlock(b, fin, choice), r.value)
    {
      if b.number == 0 || b.parent !in backend.headers {
        return Err(UnknownParent);
      }
      if b in backend.headers {
        return Err(AlreadyInChain);
      }
      if b.number <= backend.finalized.number {
        return Err(Failed(NotInFinalizedChain));
      }
      var finalizing: seq<Hash>, mark: Option<Hash> := [], None;
      if fin {
        var applied := ApplyFinality(b.parent);
        if applied.Err? {
          return Err(Failed(applied.error));
        }
        finalizing, mark := applied.value.0, applied.value.1;
      }
      var isNewBest := fin || (match choice case LongestChain => b.number > backend.best.number case Custom(v) => v);
      var state := if fin then Final else if isNewBest then Best else Normal;
      r := Ok(Operation(finalizing, Some(Pending(b, state)), mark));
    }

    /** Imports a block, deciding whether it becomes best; a final block first finalizes its
        ancestors in the same operation. */
    method Import(b: Block, fin: bool, choice: ForkChoice) returns (response: Response)
      requires backend.Valid()
      modifies backend, backend.leaves
      ensures (View(), response) == Handle(old(View()), ImportBlock(b, fin, choice))
      ensures backend.Valid() <==> !SplitsHead(old(View()), ImportBlock(b, fin, choice))
      ensures response.Imported? && !fin && choice == LongestChain ==>
                && (response.isNewBest <==> b.number > old(backend.best).number)
                && backend.best == (if b.number > old(backend.best).number then b else old(backend.best))
      ensures response.Imported? && fin ==> backend.finalized == b && response.isNewBest
    {
      ghost var request := ImportBlock(b, fin, choice);
      ghost var before := View();
      var prepared := PrepareImport(b, fin, choice);
      if prepared.Err? {
        return prepared.error;
      }
      var op := prepared.value;
      ImportAccepted(before, request, op);
      ImportOutcome(before, request, op);
      var r := backend.TryCommitOperation(op);
      if r.Err? {
        return Failed(NotInFinalizedChain);
      }
      response := Response.Imported(!op.pending.value.state.Normal?);
    }

    /** Serves any series of requests that never splits the head. */
    method Serve(rs: seq<Request>)
      requires backend.Valid() && NeverSplits(View(), rs)
      modifies backend, backend.leaves
      ensures backend.Valid()
      ensures View() == Run(old(View()), rs)
    {
      for i := 0 to |rs|
        invariant backend.Valid()
        invariant NeverSplits(View(), rs[i..])
        invariant Run(old(View()), rs) == Run(View(), rs[i..])
      {
        assert rs[i..][0] == rs[i] && rs[i..][1..] == rs[i + 1..];
        match rs[i]
        case ImportBlock(b, fin, choice) =>
          var response := Import(b, fin, choice);
        case FinalizeBlock(target) =>
          var response := Finalize(target);
      }
    }
  }

  lemma FinalizeAccepted(db: set<Block>, best: Block, finalized: Block, target: Block, op: Operation)
    requires ValidTree(db) && best in db && target in db && OnChain(finalized, best) && OnChain(finalized, target)
    requires op.finalized == Up(target, finalized.number) && op.pending.None?
    requires op.setHead == if OnChain(target, best) then None else Some(target)
    ensures Accepts(db, best, finalized, op) && FinalizedAfter(finalized, op) == target
    ensures Apply(Canon(best), IndexOps(best, op)) == if OnChain(target, best) then Canon(best) else Canon(target)
  {
    UpSequential(db, finalized, target);
    RouteMembers(best, target, finalized);
    assert PendingOps(best, op) == [];
    if !OnChain(target, best) {
      assert IndexOps(best, op) == HeadOps(best, target, target);
      HeadOpsReindex(best, target, target);
    }
  }

  /** The operation the client builds for an import. */
  ghost predicate IsImportOf(c: Chain, r: Request, op: Operation)
    requires r.ImportBlock?
  {
    && r.block.number > c.finalized.number && r.block.parent in c.blocks && r.block !in c.blocks
    && op.pending == Some(Pending(r.block, if r.finalized then Final else if IsNewBest(c, r) then Best else Normal))
    && if r.finalized then
         && OnChain(c.finalized, r.block.parent)
         && op.finalized == Up(r.block.parent, c.finalized.number)
         && op.setHead == if OnChain(r.block.parent, c.best) then None else Some(r.block.parent)
       else op.finalized == [] && op.setHead.None?
  }

  lemma ImportAccepted(c: Chain, r: Request, op: Operation)
    requires Sound(c) && r.ImportBlock? && IsImportOf(c, r, op)
    ensures WellFormed(c.blocks, c.finalized, op)
    ensures Accepts(c.blocks, c.best, c.finalized, op) <==> (IsNewBest(c, r) ==> OnChain(c.finalized, r.block.parent))
    ensures FinalizedAfter(c.finalized, op) == if r.finalized then r.block else c.finalized
  {
    var p: Block := r.block.parent;
    RouteMembers(c.best, p, c.finalized);
    if r.finalized {
      UpSequential(c.blocks, c.finalized, p);
      forall h: Block | h in op.finalized ensures h.number < r.block.number {
        UpContains(p, c.finalized.number, h);
      }
    }
  }

  lemma ImportOutcome(c: Chain, r: Request, op: Operation)
    requires Sound(c) && r.ImportBlock? && IsImportOf(c, r, op)
    ensures Accepts(c.blocks, c.best, c.finalized, op) ==>
              && Linked(BestAfter(c.best, op)) && Linked(FinalizedAfter(c.finalized, op))
              && Handle(c, r) == (Chain(HeadersAfter(c.blocks, op), BestAfter(c.best, op), FinalizedAfter(c.finalized, op)),
                                  Response.Imported(!op.pending.value.state.Normal?))
              && (!SplitsHead(c, r) ==> Apply(Canon(c.best), IndexOps(c.best, op)) == Canon(BestAfter(c.best, op)))
    ensures !Accepts(c.blocks, c.best, c.finalized, op) ==> Handle(c, r) == (c, Failed(NotInFinalizedChain))
    ensures !Accepts(c.blocks, c.best, c.finalized, op) ==> op.finalized == [] && op.setHead.None?
    ensures Sound(Handle(c, r).0) <==> !SplitsHead(c, r)
  {
    ImportAccepted(c, r, op);
    HandleSoundIff(c, r);
    if Accepts(c.blocks, c.best, c.finalized, op) && !SplitsHead(c, r) {
      ImportedIndex(c, r, op);
    }
  }

  lemma ImportedIndex(c: Chain, r: Request, op: Operation)
    requires r.ImportBlock? && IsImportOf(c, r, op) && op.setHead.None?
    ensures Apply(Canon(c.best), IndexOps(c.best, op)) == Canon(if IsNewBest(c, r) then r.block else c.best)
  {
    if IsNewBest(c, r) {
      assert IndexOps(c.best, op) == HeadOps(c.best, r.block.parent, r.block);
      HeadOpsReindex(c.best, r.block.parent, r.block);
    } else {
      assert IndexOps(c.best, op) == [];
    }
  }

  lemma CommonIsEnd(a: Block, b: Block)
    ensures Common(a, b) == b <==> OnChain(b, a)
  {
    if OnChain(b, a) {
      CommonIsHighest(a, b, b);
    }
  }
}
