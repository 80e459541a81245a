/** Routes between two blocks of the tree, the lowest common ancestor computed through
    cached shortcut links, and the ancestry test built on it. */
module TreeRoutes {
  import opened Wrappers
  import opened ForkTree

  datatype Error = UnknownBlock(hash: Hash)

  datatype TreeRoute = TreeRoute(route: seq<Block>, pivot: nat) {
    predicate Valid() {
      pivot < |route|
    }

    function Retracted(): seq<Block>
      requires Valid()
    {
      route[..pivot]
    }

    function CommonBlock(): Block
      requires Valid()
    {
      route[pivot]
    }

    function Enacted(): seq<Block>
      requires Valid()
    {
      route[pivot + 1..]
    }
  }

  function Reversed<T>(s: seq<T>): (r: seq<T>)
    ensures |r| == |s|
    ensures forall i :: 0 <= i < |s| ==> r[i] == s[|s| - 1 - i]
  {
    if s == [] then [] else Reversed(s[1..]) + [s[0]]
  }

  lemma UpIsReversedDown(b: Block, n: nat)
    ensures Up(b, n) == Reversed(Down(b, n))
  {
    UpAt(b, n);
    DownAt(b, n);
  }

  lemma {:induction false} DownSplit(b: Block, m: nat, n: nat)
    requires n <= m <= b.number
    ensures Down(b, n) == Down(b, m) + Down(AncestorAt(b, m), n)
    decreases b.number
  {
    if m < b.number {
      DownSplit(b.parent, m, n);
    }
  }

  /** The database holds `b`'s chain from height `n` up. */
  ghost predicate Stocked(db: set<Block>, b: Block, n: nat)
  {
    forall k :: n <= k <= b.number ==> AncestorAt(b, k) in db
  }

  /** Every block between the two ends is held, down to where their chains meet. */
  ghost predicate Connected(db: set<Block>, a: Block, b: Block)
  {
    Stocked(db, a, Common(a, b).number) && Stocked(db, b, Common(a, b).number)
  }

  lemma TreeIsConnected(db: set<Block>, a: Block, b: Block)
    requires ValidTree(db) && a in db && b in db
    ensures Connected(db, a, b)
  {
    forall x: Block, k: nat | x in db && k <= x.number ensures AncestorAt(x, k) in db {
      AncestorInTree(db, x, k);
    }
  }

  lemma StockedSplit(db: set<Block>, b: Block, m: nat, n: nat)
    requires n <= m <= b.number
    ensures Stocked(db, b, n) <==> Stocked(db, b, m) && Stocked(db, AncestorAt(b, m), n)
  {
    forall k: nat | n <= k <= m ensures AncestorAt(AncestorAt(b, m), k) == AncestorAt(b, k) {
      AncestorOfAncestor(b, m, k);
    }
  }

  /** Follows parents from `start` down to `height`, collecting the blocks passed. */
  method WalkBack(db: set<Block>, start: Block, height: nat) returns (r: Result<(seq<Block>, Block), Error>)
    requires start in db && height <= start.number
    ensures r.Ok? <==> Stocked(db, start, height)
    ensures r.Ok? ==> r.value == (Down(start, height), AncestorAt(start, height))
    ensures r.Err? ==> r.error.hash !in db
  {
    var branch: seq<Block>, reached: Block := [], start;
    while reached.number > height
      invariant height <= reached.number && reached == AncestorAt(start, reached.number)
      invariant Stocked(db, start, reached.number)
      invariant Down(start, height) == branch + Down(reached, height)
      decreases reached.number
    {
      AncestorOfAncestor(start, reached.number, reached.number - 1);
      if reached.parent !in db {
        return Err(UnknownBlock(reached.parent));
      }
      branch := branch + [reached];
      reached := reached.parent;
    }
    assert branch == Down(start, height);
    r := Ok((branch, reached));
  }

  lemma ForkParents(a: Block, b: Block)
    requires a != b && a.number == b.number
    ensures a.number > 0 && Common(a.parent, b.parent) == Common(a, b)
    ensures Common(a, b).number < a.number
  {
  }

  lemma DownStep(b: Block, branch: seq<Block>, rest: Block, n: nat)
    requires n < rest.number && Down(b, n) == branch + Down(rest, n)
    ensures Down(b, n) == (branch + [rest]) + Down(rest.parent, n)
  {
  }

  /** Walks two blocks of equal height back until they meet. */
  method WalkTogether(db: set<Block>, a: Block, b: Block)
    returns (r: Result<(seq<Block>, seq<Block>, Block), Error>)
    requires a in db && b in db && a.number == b.number
    ensures r.Ok? <==> Connected(db, a, b)
    ensures r.Ok? ==> var n := Common(a, b).number; r.value == (Down(a, n), Down(b, n), Common(a, b))
    ensures r.Err? ==> r.error.hash !in db
  {
    var aBranch: seq<Block>, bBranch: seq<Block>, c: Block, d: Block := [], [], a, b;
    ghost var n := Common(a, b).number;
    while d != c
      invariant c.number == d.number && Common(c, d) == Common(a, b) && n <= c.number
      invariant OnChain(c, a) && OnChain(d, b)
      invariant Stocked(db, a, c.number) && Stocked(db, b, d.number)
      invariant Down(a, n) == aBranch + Down(c, n)
      invariant Down(b, n) == bBranch + Down(d, n)
      decreases c.number
    {
      ForkParents(c, d);
      AncestorOfAncestor(a, c.number, c.number - 1);
      AncestorOfAncestor(b, d.number, d.number - 1);
      if d.parent !in db {
        return Err(UnknownBlock(d.parent));
      }
      if c.parent !in db {
        return Err(UnknownBlock(c.parent));
      }
      DownStep(a, aBranch, c, n);
      DownStep(b, bBranch, d, n);
      aBranch, bBranch := aBranch + [c], bBranch + [d];
      c, d := c.parent, d.parent;
    }
    assert aBranch == Down(a, n) && bBranch == Down(b, n);
    r := Ok((aBranch, bBranch, c));
  }

  function JoinAt(retracted: seq<Block>, c: Block, enacted: seq<Block>): (r: TreeRoute)
    ensures r.Valid() && r.Retracted() == retracted && r.CommonBlock() == c && r.Enacted() == enacted
  {
    TreeRoute(retracted + [c] + enacted, |retracted|)
  }

  /** Levels the two ends, then walks both back until they meet. */
  method ComputeTreeRoute(db: set<Block>, fromHash: Hash, toHash: Hash) returns (r: Result<TreeRoute, Error>)
    ensures r.Ok? <==> fromHash in db && toHash in db && Connected(db, fromHash, toHash)
    ensures r.Err? ==> r.error.hash !in db
    ensures r.Ok? ==>
              && r.value.Valid()
              && r.value.CommonBlock() == Common(fromHash, toHash)
              && r.value.Retracted() == Leaving(fromHash, toHash)
              && r.value.Enacted() == Entering(fromHash, toHash)
  {
    if fromHash !in db {
      return Err(UnknownBlock(fromHash));
    }
    if toHash !in db {
      return Err(UnknownBlock(toHash));
    }
    r := RouteBetween(db, fromHash, toHash);
  }

  method RouteBetween(db: set<Block>, from: Block, target: Block) returns (r: Result<TreeRoute, Error>)
    requires from in db && target in db
    ensures r.Ok? <==> Connected(db, from, target)
    ensures r.Err? ==> r.error.hash !in db
    ensures r.Ok? ==>
              && r.value.Valid()
              && r.value.CommonBlock() == Common(from, target)
              && r.value.Retracted() == Leaving(from, target)
              && r.value.Enacted() == Entering(from, target)
  {
    var height := if target.number > from.number then from.number else target.number;
    ghost var n := Common(from, target).number;
    LevelledCommon(from, target, height);
    StockedSplit(db, from, height, n);
    StockedSplit(db, target, height, n);
    var toBranch := WalkBack(db, target, height);
    if toBranch.Err? { return Err(toBranch.error); }
    var fromBranch := WalkBack(db, from, height);
    if fromBranch.Err? { return Err(fromBranch.error); }
    var both := WalkTogether(db, fromBranch.value.1, toBranch.value.1);
    if both.Err? { return Err(both.error); }
    var (fromRest, toRest, c) := both.value;
    DownSplit(from, height, n);
    DownSplit(target, height, n);
    UpIsReversedDown(target, n);
    r := Ok(JoinAt(fromBranch.value.0 + fromRest, c, Reversed(toBranch.value.0 + toRest)));
  }

  lemma LevelledCommon(a: Block, b: Block, height: nat)
    requires height == if b.number > a.number then a.number else b.number
    ensures Common(AncestorAt(a, height), AncestorAt(b, height)) == Common(a, b)
  {
    if b.number > a.number {
      CommonSymmetric(a, b);
      CommonBelow(b, a, AncestorAt(b, height));
      CommonSymmetric(AncestorAt(b, height), a);
    } else {
      CommonBelow(a, b, AncestorAt(a, height));
    }
  }

  /** The cached facts about a header; `ancestor` is a shortcut down its chain. */
  datatype Metadata = Metadata(hash: Block, ancestor: Hash)

  /** A shortcut is sound when it leads to a lower block of the same chain. */
  ghost predicate SoundLink(db: set<Block>, hash: Hash, ancestor: Hash)
  {
    && hash in db
    && (ancestor == hash.parent ||
        (ancestor in db && ancestor.number < hash.number && OnChain(ancestor, hash)))
  }

  /** The header metadata cache in front of the header column. */
  class HeaderMetadata {
    const db: set<Block>
    var links: map<Hash, Hash>

    ghost predicate Valid()
      reads this
    {
      && ValidTree(db)
      && forall h :: h in links ==> SoundLink(db, h, links[h])
    }

    constructor (db: set<Block>)
      requires ValidTree(db)
      ensures Valid() && this.db == db && links == map[]
    {
      this.db := db;
      links := map[];
    }

    /** The bounded cache may forget anything when an entry is inserted. */
    method Insert(hash: Block, ancestor: Hash)
      requires Valid() && SoundLink(db, hash, ancestor)
      modifies this
      ensures Valid()
      ensures forall h :: h in links ==> (h == hash && links[h] == ancestor) || (h in old(links) && links[h] == old(links[h]))
    {
      var keep: set<Hash> := *;
      var grown := links[hash := ancestor];
      links := map h | h in grown && h in keep :: grown[h];
    }

    method Get(hash: Hash) returns (r: Result<Metadata, Error>)
      requires Valid()
      modifies this
      ensures Valid()
      ensures r.Ok? <==> hash in db
      ensures r.Ok? ==> r.value.hash == hash && SoundLink(db, hash, r.value.ancestor)
    {
      if hash in links {
        return Ok(Metadata(hash, links[hash]));
      }
      if hash !in db {
        return Err(UnknownBlock(hash));
      }
      Insert(hash, hash.parent);
      r := Ok(Metadata(hash, hash.parent));
    }

    /** Jumps through shortcuts, then walks parents, then records new shortcuts. */
    method LowestCommonAncestor(idOne: Hash, idTwo: Hash) returns (r: Result<Block, Error>)
      requires Valid()
      modifies this
      ensures Valid()
      ensures r.Ok? <==> idOne in db && idTwo in db
      ensures r.Ok? ==> r.value == Common(idOne, idTwo)
    {
      var got := Get(idOne);
      if got.Err? { return Err(got.error); }
      var one := got.value;
      got := Get(idTwo);
      if got.Err? { return Err(got.error); }
      var two := got.value;
      ghost var c := Common(idOne, idTwo);

      while one.hash.number > two.hash.number
        invariant Valid() && SoundLink(db, one.hash, one.ancestor) && SoundLink(db, two.hash, two.ancestor)
        invariant OnChain(one.hash, idOne) && two.hash == idTwo
        invariant Common(one.hash, two.hash) == c
        decreases one.hash.number
      {
        got := Get(one.ancestor);
        if got.value.hash.number < two.hash.number { break; }
        CommonBelow(one.hash, two.hash, got.value.hash);
        OnChainTransitive(got.value.hash, one.hash, idOne);
        one := got.value;
      }

      while one.hash.number < two.hash.number
        invariant Valid() && SoundLink(db, one.hash, one.ancestor) && SoundLink(db, two.hash, two.ancestor)
        invariant OnChain(one.hash, idOne) && OnChain(two.hash, idTwo)
        invariant Common(one.hash, two.hash) == c
        decreases two.hash.number
      {
        got := Get(two.ancestor);
        if got.value.hash.number < one.hash.number { break; }
        CommonSymmetric(one.hash, two.hash);
        CommonBelow(two.hash, one.hash, got.value.hash);
        CommonSymmetric(one.hash, got.value.hash);
        OnChainTransitive(got.value.hash, two.hash, idTwo);
        two := got.value;
      }

      while one.hash != two.hash
        invariant Valid() && one.hash in db && two.hash in db
        invariant OnChain(one.hash, idOne) && OnChain(two.hash, idTwo)
        invariant Common(one.hash, two.hash) == c
        decreases one.hash.number + two.hash.number
      {
        if one.hash.number > two.hash.number {
          OnChainTransitive(one.hash.parent, one.hash, idOne);
          got := Get(one.hash.parent);
          one := got.value;
        } else {
          SameHeightFork(one.hash, two.hash);
          OnChainTransitive(two.hash.parent, two.hash, idTwo);
          got := Get(two.hash.parent);
          two := got.value;
        }
      }

      if idOne.number > one.hash.number {
        Insert(idOne, one.hash);
      }
      if idTwo.number > one.hash.number {
        Insert(idTwo, one.hash);
      }
      r := Ok(one.hash);
    }

    /** The ancestry test handed to the authority set; `current` is a block not yet stored,
        with its parent. */
    method IsDescendentOf(current: Option<(Hash, Hash)>, base: Hash, target: Hash) returns (r: Result<bool, Error>)
      requires Valid()
      requires current.Some? ==> current.value.0 !in db && current.value.0.HashOf? && current.value.1 == current.value.0.parent
      modifies this
      ensures Valid()
      ensures r.Ok? && base in db && target in db ==> (r.value <==> base != target && OnChain(base, target))
      ensures r.Ok? && current.Some? && target == current.value.0 && base in db && target.parent in db ==>
                (r.value <==> OnChain(base, target.parent))
      ensures base in db && (target in db || (current.Some? && target == current.value.0 && target.parent in db)) ==> r.Ok?
    {
      if base == target { return Ok(false); }
      var hash := target;
      if current.Some? {
        var (currentHash, currentParent) := current.value;
        if base == currentHash { return Ok(false); }
        if hash == currentHash {
          if base == currentParent { return Ok(true); }
          hash := currentParent;
        }
      }
      var ancestor := LowestCommonAncestor(hash, base);
      if ancestor.Err? { return Err(ancestor.error); }
      if OnChain(base, hash) {
        CommonIsHighest(hash, base, base);
      }
      r := Ok(ancestor.value == base);
    }
  }

  lemma SameHeightFork(a: Block, b: Block)
    requires a != b && a.number <= b.number
    ensures b.number > 0 && Common(a, b.parent) == Common(a, b)
  {
    if a.number == b.number {
      CommonSymmetric(a, b.parent);
      CommonSymmetric(a.parent, b.parent);
    }
  }
}
