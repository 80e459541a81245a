/** The number-to-hash index and the set of leaves as functions of the tree. */
module ChainIndex {
  import opened ForkTree

  /** A database transaction on the number index, applied in order when written. */
  datatype NumberOp = Put(number: nat, hash: Block) | Delete(number: nat)

  function Apply(m: map<nat, Block>, ops: seq<NumberOp>): map<nat, Block>
    decreases |ops|
  {
    if ops == [] then m
    else Apply(match ops[0] case Put(n, h) => m[n := h] case Delete(n) => m - {n}, ops[1..])
  }

  lemma {:induction false} ApplyConcat(m: map<nat, Block>, a: seq<NumberOp>, b: seq<NumberOp>)
    ensures Apply(m, a + b) == Apply(Apply(m, a), b)
    decreases |a|
  {
    if a == [] {
      assert a + b == b;
    } else {
      assert (a + b)[1..] == a[1..] + b;
      ApplyConcat(match a[0] case Put(n, h) => m[n := h] case Delete(n) => m - {n}, a[1..], b);
    }
  }

  /** The index that lists exactly the chain of `b`. */
  function Canon(b: Block): map<nat, Block>
  {
    map n | 0 <= n <= b.number :: AncestorAt(b, n)
  }

  function Deletes(s: seq<Block>): seq<NumberOp>
  {
    if s == [] then [] else [Delete(s[0].number)] + Deletes(s[1..])
  }

  function Puts(s: seq<Block>): seq<NumberOp>
  {
    if s == [] then [] else [Put(s[0].number, s[0])] + Puts(s[1..])
  }

  lemma {:induction false} DeletesSnoc(s: seq<Block>, b: Block)
    ensures Deletes(s + [b]) == Deletes(s) + [Delete(b.number)]
  {
    if s == [] {
      assert s + [b] == [b];
    } else {
      assert (s + [b])[1..] == s[1..] + [b];
      DeletesSnoc(s[1..], b);
    }
  }

  lemma {:induction false} PutsSnoc(s: seq<Block>, b: Block)
    ensures Puts(s + [b]) == Puts(s) + [Put(b.number, b)]
  {
    if s == [] {
      assert s + [b] == [b];
    } else {
      assert (s + [b])[1..] == s[1..] + [b];
      PutsSnoc(s[1..], b);
    }
  }

  /** What setting the head writes: the old chain's numbers go, the new chain's come, and
      the new best block is put last. */
  function HeadOps(best: Block, routeTo: Block, to: Block): seq<NumberOp>
  {
    var c := Common(best, routeTo);
    Deletes(Down(best, c.number)) + Puts(Up(routeTo, c.number)) + [Put(to.number, to)]
  }

  /** The index without the numbers above `n` up to `top`. */
  function Cut(m: map<nat, Block>, n: nat, top: nat): map<nat, Block>
  {
    map k | k in m && !(n < k <= top) :: m[k]
  }

  lemma {:induction false} DeletesEffect(m: map<nat, Block>, b: Block, n: nat)
    ensures Apply(m, Deletes(Down(b, n))) == Cut(m, n, b.number)
    decreases b.number
  {
    if n < b.number {
      assert Deletes(Down(b, n)) == [Delete(b.number)] + Deletes(Down(b.parent, n));
      DeletesEffect(m - {b.number}, b.parent, n);
    }
  }

  /** The part of `b`'s index above height `n`. */
  function Segment(b: Block, n: nat): map<nat, Block>
  {
    map k: nat | n < k <= b.number :: AncestorAt(b, k)
  }

  lemma SegmentStep(b: Block, n: nat)
    requires n < b.number
    ensures Segment(b, n) == Segment(b.parent, n)[b.number := b]
  {
  }

  lemma {:induction false} PutsEffect(m: map<nat, Block>, b: Block, n: nat)
    ensures Apply(m, Puts(Up(b, n))) == m + Segment(b, n)
    decreases b.number
  {
    if n < b.number {
      PutsEffect(m, b.parent, n);
      PutsSnoc(Up(b.parent, n), b);
      ApplyConcat(m, Puts(Up(b.parent, n)), [Put(b.number, b)]);
      SegmentStep(b, n);
    }
  }

  lemma HeadOpsEffect(m: map<nat, Block>, best: Block, routeTo: Block, to: Block)
    ensures var n := Common(best, routeTo).number;
            Apply(m, HeadOps(best, routeTo, to)) == (Cut(m, n, best.number) + Segment(routeTo, n))[to.number := to]
  {
    var n := Common(best, routeTo).number;
    var deletes, puts := Deletes(Down(best, n)), Puts(Up(routeTo, n));
    ApplyConcat(m, deletes + puts, [Put(to.number, to)]);
    ApplyConcat(m, deletes, puts);
    DeletesEffect(m, best, n);
    PutsEffect(Apply(m, deletes), routeTo, n);
  }

  lemma CommonPrefix(a: Block, b: Block, n: nat)
    requires n <= Common(a, b).number
    ensures AncestorAt(a, n) == AncestorAt(b, n)
  {
    AncestorOfAncestor(a, Common(a, b).number, n);
    AncestorOfAncestor(b, Common(a, b).number, n);
  }

  /** Two chains have the same block at a height exactly up to where they meet. */
  lemma AgreeIff(a: Block, b: Block, n: nat)
    requires n <= a.number && n <= b.number
    ensures AncestorAt(a, n) == AncestorAt(b, n) <==> n <= Common(a, b).number
  {
    if n <= Common(a, b).number {
      CommonPrefix(a, b, n);
    } else if AncestorAt(a, n) == AncestorAt(b, n) {
      CommonIsHighest(a, b, AncestorAt(a, n));
    }
  }

  /** Blocks of one chain meet in the lower of the two. */
  lemma OneChainMeets(a: Block, b: Block)
    ensures OnChain(a, b) ==> Common(a, b) == a
    ensures OnChain(b, a) ==> Common(a, b) == b
  {
    if OnChain(a, b) {
      CommonIsHighest(a, b, a);
    }
    if OnChain(b, a) {
      CommonIsHighest(a, b, b);
    }
  }

  /** Reorganizing to an existing block, or to a new child of one, whatever its height. */
  lemma HeadOpsReindex(best: Block, routeTo: Block, to: Block)
    requires to == routeTo || (to.number > 0 && to.parent == routeTo)
    ensures Apply(Canon(best), HeadOps(best, routeTo, to)) == Canon(to)
  {
    HeadOpsEffect(Canon(best), best, routeTo, to);
    forall n | 0 <= n <= Common(best, routeTo).number ensures AncestorAt(best, n) == AncestorAt(routeTo, n) {
      CommonPrefix(best, routeTo, n);
    }
  }

  /** Importing a child of `parent` as best and then setting the head to `parent`, both
      routed from the old head: the child's entry survives unless the old chain was as high. */
  lemma DoubleHeadIndex(best: Block, parent: Block, child: Block)
    requires child.number > 0 && child.parent == parent
    ensures Apply(Canon(best), HeadOps(best, parent, child) + HeadOps(best, parent, parent)) ==
            if child.number <= best.number then Canon(parent) else Canon(parent)[child.number := child]
  {
    ApplyConcat(Canon(best), HeadOps(best, parent, child), HeadOps(best, parent, parent));
    HeadOpsReindex(best, parent, child);
    HeadOpsEffect(Canon(child), best, parent, parent);
    forall n | 0 <= n <= Common(best, parent).number ensures AncestorAt(best, n) == AncestorAt(parent, n) {
      CommonPrefix(best, parent, n);
    }
  }

  // Leaves

  ghost predicate Childless(db: set<Block>, b: Block)
  {
    forall c :: c in db && c.number > 0 ==> c.parent != b
  }

  /** The blocks without children at or above the finalized number. */
  ghost function LeafBlocks(db: set<Block>, finalized: nat): set<Block>
  {
    set b | b in db && Childless(db, b) && b.number >= finalized
  }

  ghost function LeavesOf(db: set<Block>, finalized: nat): map<Hash, nat>
  {
    Numbered(LeafBlocks(db, finalized))
  }

  function Numbered(s: set<Block>): map<Hash, nat>
  {
    map b | b in s :: b.number
  }

  lemma NumberedUpdate(s: set<Block>, p: Block, b: Block)
    ensures Numbered(s - {p} + {b}) == (if p in Numbered(s) then Numbered(s) - {p} else Numbered(s))[b := b.number]
  {
  }

  lemma LeafBlocksAfterImport(db: set<Block>, finalized: nat, b: Block)
    requires ValidTree(db) && b !in db && b.number > 0 && b.parent in db && b.number >= finalized
    ensures LeafBlocks(db + {b}, finalized) == LeafBlocks(db, finalized) - {b.parent} + {b}
  {
    assert Childless(db + {b}, b);
    forall x: Block | x in db ensures Childless(db + {b}, x) <==> Childless(db, x) && x != b.parent {
      ChildlessAfterImport(db, b, x);
    }
  }

  lemma LeavesAfterImport(db: set<Block>, finalized: nat, b: Block)
    requires ValidTree(db) && b !in db && b.number > 0 && b.parent in db && b.number >= finalized
    ensures LeavesOf(db + {b}, finalized) ==
            (if b.parent in LeavesOf(db, finalized) then LeavesOf(db, finalized) - {b.parent} else LeavesOf(db, finalized))[b := b.number]
  {
    LeafBlocksAfterImport(db, finalized, b);
    NumberedUpdate(LeafBlocks(db, finalized), b.parent, b);
  }

  lemma ChildlessAfterImport(db: set<Block>, b: Block, x: Block)
    requires b.number > 0
    ensures Childless(db + {b}, x) <==> Childless(db, x) && x != b.parent
  {
    if Childless(db + {b}, x) {
      assert forall c :: c in db ==> c in db + {b};
      assert b in db + {b};
    }
  }
}
