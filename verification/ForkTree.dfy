/** The tree of blocks shared by every component.

    Hashing is modelled as collision free: a hash is identified with the header it was
    computed from, so two hashes are equal exactly when the headers are, and no header can
    be its own ancestor.  `Unset` is the all-zero hash an empty database starts from and
    the parent of the genesis block.  All blocks of one node descend from one genesis block. */
module ForkTree {
  import opened Wrappers

  /** The parts of a header other than its number and parent. */
  datatype Content = Content(stateRoot: nat, changesTrieRoot: Option<nat>)

  datatype Hash = Unset | HashOf(number: nat, parent: Hash, content: Content)

  const GENESIS := HashOf(0, Unset, Content(0, None))

  /** A header whose whole ancestry down to the genesis block is numbered consecutively. */
  predicate Linked(h: Hash)
  {
    && h.HashOf?
    && if h.number == 0 then h == GENESIS
       else Linked(h.parent) && h.parent.number == h.number - 1
  }

  type Block = h: Hash | Linked(h) witness GENESIS

  /** The block numbered `n` on the chain ending in `b`. */
  function AncestorAt(b: Block, n: nat): (a: Block)
    requires n <= b.number
    ensures a.number == n
    decreases b.number
  {
    if b.number == n then b else AncestorAt(b.parent, n)
  }

  /** `a` is `b` itself or one of the blocks below it. */
  predicate OnChain(a: Block, b: Block)
  {
    a.number <= b.number && AncestorAt(b, a.number) == a
  }

  lemma {:induction false} AncestorOfAncestor(b: Block, m: nat, n: nat)
    requires n <= m <= b.number
    ensures AncestorAt(AncestorAt(b, m), n) == AncestorAt(b, n)
    decreases b.number
  {
    if m < b.number {
      AncestorOfAncestor(b.parent, m, n);
    }
  }

  lemma OnChainTransitive(a: Block, b: Block, c: Block)
    requires OnChain(a, b) && OnChain(b, c)
    ensures OnChain(a, c)
  {
    AncestorOfAncestor(c, b.number, a.number);
  }

  /** Two blocks of one chain are comparable. */
  lemma OnChainComparable(a: Block, b: Block, c: Block)
    requires OnChain(a, c) && OnChain(b, c) && a.number <= b.number
    ensures OnChain(a, b)
  {
    AncestorOfAncestor(c, b.number, a.number);
  }

  // Routes

  /** The blocks of `b`'s chain above height `n`, highest first. */
  function Down(b: Block, n: nat): seq<Block>
    decreases b.number
  {
    if b.number <= n then [] else [b] + Down(b.parent, n)
  }

  /** The blocks of `b`'s chain above height `n`, lowest first. */
  function Up(b: Block, n: nat): seq<Block>
    decreases b.number
  {
    if b.number <= n then [] else Up(b.parent, n) + [b]
  }

  lemma {:induction false} UpAt(b: Block, n: nat)
    ensures |Up(b, n)| == if b.number <= n then 0 else b.number - n
    ensures forall i :: 0 <= i < |Up(b, n)| ==> Up(b, n)[i] == AncestorAt(b, n + 1 + i)
    decreases b.number
  {
    if n < b.number {
      UpAt(b.parent, n);
    }
  }

  lemma {:induction false} DownAt(b: Block, n: nat)
    ensures |Down(b, n)| == if b.number <= n then 0 else b.number - n
    ensures forall i :: 0 <= i < |Down(b, n)| ==> Down(b, n)[i] == AncestorAt(b, b.number - i)
    decreases b.number
  {
    if n < b.number {
      DownAt(b.parent, n);
    }
  }

  /** Exactly the blocks of `b`'s chain above height `n`. */
  lemma UpContains(b: Block, n: nat, x: Block)
    ensures x in Up(b, n) <==> OnChain(x, b) && n < x.number
  {
    UpAt(b, n);
    if OnChain(x, b) && n < x.number {
      assert Up(b, n)[x.number - n - 1] == x;
    }
  }

  lemma DownContains(b: Block, n: nat, x: Block)
    ensures x in Down(b, n) <==> OnChain(x, b) && n < x.number
  {
    DownAt(b, n);
    if OnChain(x, b) && n < x.number {
      assert Down(b, n)[b.number - x.number] == x;
    }
  }

  /** The highest block on both chains. */
  function Common(a: Block, b: Block): (c: Block)
    ensures c.number <= a.number && c.number <= b.number
    ensures OnChain(c, a) && OnChain(c, b)
    decreases a.number + b.number
  {
    if a == b then a
    else if a.number > b.number then Common(a.parent, b)
    else if b.number > a.number then Common(a, b.parent)
    else Common(a.parent, b.parent)
  }

  lemma {:induction false} CommonIsHighest(a: Block, b: Block, x: Block)
    requires OnChain(x, a) && OnChain(x, b)
    ensures OnChain(x, Common(a, b))
    decreases a.number + b.number
  {
    if a != b {
      if a.number > b.number {
        CommonIsHighest(a.parent, b, x);
      } else if b.number > a.number {
        CommonIsHighest(a, b.parent, x);
      } else {
        CommonIsHighest(a.parent, b.parent, x);
      }
    }
  }

  /** Moving down one chain without passing the other block's height keeps the common block. */
  lemma CommonBelow(a: Block, b: Block, x: Block)
    requires OnChain(x, a) && b.number <= x.number
    ensures Common(x, b) == Common(a, b)
  {
    var c := Common(a, b);
    OnChainComparable(c, x, a);
    CommonIsHighest(x, b, c);
    OnChainTransitive(Common(x, b), x, a);
    CommonIsHighest(a, b, Common(x, b));
  }

  lemma CommonSymmetric(a: Block, b: Block)
    ensures Common(a, b) == Common(b, a)
  {
    CommonIsHighest(a, b, Common(b, a));
    CommonIsHighest(b, a, Common(a, b));
  }

  /** The blocks a move from `a` to `b` leaves and enters. */
  function Leaving(a: Block, b: Block): seq<Hash> { Down(a, Common(a, b).number) }
  function Entering(a: Block, b: Block): seq<Hash> { Up(b, Common(a, b).number) }

  lemma RouteMembers(a: Block, b: Block, x: Block)
    ensures x in Leaving(a, b) <==> OnChain(x, a) && !OnChain(x, b)
    ensures x in Entering(a, b) <==> OnChain(x, b) && !OnChain(x, a)
  {
    var c := Common(a, b);
    DownContains(a, c.number, x);
    UpContains(b, c.number, x);
    if OnChain(x, a) && OnChain(x, b) {
      CommonIsHighest(a, b, x);
    }
    if x.number <= c.number && OnChain(x, a) {
      OnChainComparable(x, c, a);
      OnChainTransitive(x, c, b);
    }
    if x.number <= c.number && OnChain(x, b) {
      OnChainComparable(x, c, b);
      OnChainTransitive(x, c, a);
    }
  }

  // The set of blocks a database holds

  ghost predicate ValidTree(db: set<Block>)
  {
    forall b :: b in db && b.number > 0 ==> b.parent in db
  }

  lemma {:induction false} AncestorInTree(db: set<Block>, b: Block, n: nat)
    requires ValidTree(db) && b in db && n <= b.number
    ensures AncestorAt(b, n) in db
    decreases b.number
  {
    if n < b.number {
      AncestorInTree(db, b.parent, n);
    }
  }
}
