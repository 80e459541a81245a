/** GRANDPA justifications: collecting the headers that link every precommit target to the
    commit target, and checking such a collection. */
module Justifications {
  import opened Wrappers
  import opened ForkTree

  /** A commit: the block it commits to and the targets of its signed precommits. */
  datatype Commit = Commit(target: Hash, number: nat, precommits: seq<Hash>)

  datatype Error = BadJustification

  // Following parents through a set of headers

  /** `h` reaches `base` by following parents of headers in the set. */
  predicate Descends(headers: set<Hash>, base: Hash, h: Hash)
  {
    h == base || (h in headers && h.HashOf? && Descends(headers, base, h.parent))
  }

  /** The headers passed on the way from `h` down to `base`. */
  function Path(headers: set<Hash>, base: Hash, h: Hash): seq<Hash>
    requires Descends(headers, base, h)
  {
    if h == base then [] else [h] + Path(headers, base, h.parent)
  }

  lemma {:induction false} PathMember(headers: set<Hash>, base: Hash, h: Hash, x: Hash)
    requires Descends(headers, base, h) && x in Path(headers, base, h)
    ensures x in headers
    decreases h
  {
    if x != h {
      PathMember(headers, base, h.parent, x);
    }
  }

  lemma PathStep(headers: set<Hash>, base: Hash, block: Hash, passed: seq<Hash>, current: Hash)
    requires current != base && Descends(headers, base, block) && Descends(headers, base, current)
    requires Path(headers, base, block) == passed + Path(headers, base, current)
    ensures Path(headers, base, block) == (passed + [current]) + Path(headers, base, current.parent)
  {
  }

  function Elements(s: seq<Hash>): set<Hash>
  {
    set h | h in s
  }

  /** Every precommit target reaches the commit target, and every header is used by one. */
  ghost predicate Justifies(commit: Commit, headers: set<Hash>)
  {
    && (forall i :: 0 <= i < |commit.precommits| ==> Descends(headers, commit.target, commit.precommits[i]))
    && (forall h :: h in headers ==> Used(commit, headers, h))
  }

  ghost predicate Used(commit: Commit, headers: set<Hash>, h: Hash)
  {
    exists i :: 0 <= i < |commit.precommits| && Descends(headers, commit.target, commit.precommits[i]) &&
                h in Path(headers, commit.target, commit.precommits[i])
  }

  // Checking

  lemma Shift(block: Hash, route: seq<Hash>, passed: seq<Hash>, current: Hash, next: Hash)
    requires [block] + route == passed + [current]
    ensures [block] + (route + [next]) == (passed + [current]) + [next]
  {
    assert [block] + (route + [next]) == ([block] + route) + [next];
  }

  lemma PopBase(block: Hash, route: seq<Hash>, passed: seq<Hash>, base: Hash)
    requires [block] + route == passed + [base] && block != base
    ensures route != [] && [block] + route[..|route| - 1] == passed
  {
    assert |passed| == |route|;
    assert ([block] + route)[0] == block && (passed + [base])[|passed|] == base;
    assert [block] + route[..|route| - 1] == ([block] + route)[..|route|];
    assert (passed + [base])[..|route|] == passed;
  }

  /** The route from the parent of `block` down to just above `base`. */
  method Ancestry(headers: set<Hash>, base: Hash, block: Hash) returns (r: Result<seq<Hash>, Error>)
    requires forall h :: h in headers ==> h.HashOf?
    requires block != base
    ensures r.Ok? <==> Descends(headers, base, block)
    ensures r.Ok? ==> [block] + r.value == Path(headers, base, block)
  {
    var route: seq<Hash> := [];
    var current := block;
    ghost var passed: seq<Hash> := [];
    while current != base
      invariant Descends(headers, base, block) == Descends(headers, base, current)
      invariant Descends(headers, base, current) ==> Path(headers, base, block) == passed + Path(headers, base, current)
      invariant [block] + route == passed + [current]
      decreases current
    {
      if current !in headers {
        return Err(BadJustification);
      }
      Shift(block, route, passed, current, current.parent);
      if Descends(headers, base, current) {
        PathStep(headers, base, block, passed, current);
      }
      passed := passed + [current];
      current := current.parent;
      route := route + [current];
    }
    PopBase(block, route, passed, base);
    r := Ok(route[..|route| - 1]);
  }

  /** The ancestry and no-unused-header checks. */
  method Verify(commit: Commit, ancestries: seq<Hash>) returns (ok: bool)
    requires forall h :: h in ancestries ==> h.HashOf?
    ensures ok <==> Justifies(commit, Elements(ancestries))
  {
    var headers := Elements(ancestries);
    var visited: set<Hash> := {};
    for i := 0 to |commit.precommits|
      invariant forall j :: 0 <= j < i ==> Descends(headers, commit.target, commit.precommits[j])
      invariant visited == VisitedBy(commit, headers, i)
    {
      var p := commit.precommits[i];
      if p != commit.target {
        var route := Ancestry(headers, commit.target, p);
        if route.Err? {
          return false;
        }
        visited := visited + {p} + Elements(route.value);
        assert {p} + Elements(route.value) == Elements([p] + route.value);
      }
    }
    ok := visited == headers;
    VisitedIsUsed(commit, headers);
  }

  /** The headers passed on the way down from the first `n` precommit targets. */
  ghost function VisitedBy(commit: Commit, headers: set<Hash>, n: nat): set<Hash>
    requires n <= |commit.precommits|
    requires forall j :: 0 <= j < n ==> Descends(headers, commit.target, commit.precommits[j])
  {
    if n == 0 then {}
    else VisitedBy(commit, headers, n - 1) + Elements(Path(headers, commit.target, commit.precommits[n - 1]))
  }

  lemma {:induction false} VisitedMember(commit: Commit, headers: set<Hash>, n: nat, h: Hash)
    requires n <= |commit.precommits|
    requires forall j :: 0 <= j < n ==> Descends(headers, commit.target, commit.precommits[j])
    ensures h in VisitedBy(commit, headers, n) <==>
            exists i :: 0 <= i < n && h in Path(headers, commit.target, commit.precommits[i])
  {
    if n > 0 {
      VisitedMember(commit, headers, n - 1, h);
    }
  }

  lemma VisitedIsUsed(commit: Commit, headers: set<Hash>)
    requires forall j :: 0 <= j < |commit.precommits| ==> Descends(headers, commit.target, commit.precommits[j])
    ensures VisitedBy(commit, headers, |commit.precommits|) == headers <==> Justifies(commit, headers)
  {
    forall h ensures h in VisitedBy(commit, headers, |commit.precommits|) <==> Used(commit, headers, h) {
      VisitedMember(commit, headers, |commit.precommits|, h);
    }
    forall h | Used(commit, headers, h) ensures h in headers {
      var i :| 0 <= i < |commit.precommits| && h in Path(headers, commit.target, commit.precommits[i]);
      PathMember(headers, commit.target, commit.precommits[i], h);
    }
  }

  // Building

  /** The precommit target is the commit target, or a known descendant of it while the number
      the commit claims is no higher than the target's own. */
  predicate LinksTo(db: set<Block>, target: Hash, number: nat, p: Hash)
  {
    p == target || (p in db && Linked(target) && OnChain(target, p) && number <= target.number)
  }

  predicate AllDistinct(s: seq<Hash>)
  {
    forall i, j :: 0 <= i < j < |s| ==> s[i] != s[j]
  }

  /** The headers between a precommit target and the commit target. */
  function Between(target: Hash, p: Hash): set<Hash>
  {
    if Linked(target) && Linked(p) then Elements(Down(p, target.number)) else {}
  }

  lemma BetweenStep(p: Block, current: Block)
    requires OnChain(current, p) && current.number > 0
    ensures Between(current.parent, p) == Between(current, p) + {current}
  {
    forall x: Block ensures x in Down(p, current.number - 1) <==> x in Down(p, current.number) || x == current {
      DownContains(p, current.number - 1, x);
      DownContains(p, current.number, x);
    }
    DownAreBlocks(p, current.number - 1);
    DownAreBlocks(p, current.number);
  }

  lemma DownAreBlocks(p: Block, n: nat)
    ensures forall h: Hash :: h in Down(p, n) ==> Linked(h)
  {
  }

  lemma KeepNew(kept: seq<Hash>, h: Hash)
    requires AllDistinct(kept) && h !in Elements(kept)
    ensures AllDistinct(kept + [h]) && Elements(kept + [h]) == Elements(kept) + {h}
  {
    assert forall i :: 0 <= i < |kept| ==> kept[i] in Elements(kept);
  }

  /** `kept` lists the known headers and the added ones, each once. */
  ghost predicate Gathered(known: set<Hash>, added: set<Hash>, hashes: set<Hash>, kept: seq<Hash>)
  {
    hashes == known + added && hashes == Elements(kept) && AllDistinct(kept)
  }

  lemma GatherStep(known: set<Hash>, added: set<Hash>, hashes: set<Hash>, kept: seq<Hash>, h: Hash)
    requires Gathered(known, added, hashes, kept)
    ensures Gathered(known, added + {h}, hashes + {h}, if h in hashes then kept else kept + [h])
  {
    if h !in hashes {
      KeepNew(kept, h);
    }
  }

  /** Walks a known block down to the commit target, keeping headers not yet kept. */
  method CollectKnown(db: set<Block>, target: Hash, number: nat, p: Block, known: set<Hash>, kept: seq<Hash>)
    returns (ok: bool, hashes: set<Hash>, ancestries: seq<Hash>)
    requires ValidTree(db) && p in db && known == Elements(kept) && AllDistinct(kept)
    ensures ok <==> LinksTo(db, target, number, p)
    ensures ok ==> Gathered(known, Between(target, p), hashes, ancestries)
  {
    hashes, ancestries := known, kept;
    var current: Block := p;
    while current != target
      invariant current in db && OnChain(current, p)
      invariant Linked(target) && OnChain(target, p) ==> target.number <= current.number
      invariant current == p || number <= current.number
      invariant Gathered(known, Between(current, p), hashes, ancestries)
      decreases current.number
    {
      if current.number <= number {
        return false, hashes, ancestries;
      }
      OnChainTransitive(current.parent, current, p);
      BetweenStep(p, current);
      GatherStep(known, Between(current, p), hashes, ancestries, current);
      if current !in hashes {
        ancestries := ancestries + [current];
      }
      hashes := hashes + {current};
      current := current.parent;
    }
    ok := true;
  }

  lemma BetweenIsKnown(db: set<Block>, target: Hash, p: Block)
    requires ValidTree(db) && p in db
    ensures forall h :: h in Between(target, p) ==> h in db
  {
    if Linked(target) {
      forall h: Block | h in Between(target, p) ensures h in db {
        DownContains(p, target.number, h);
        AncestorInTree(db, p, h.number);
      }
      DownAreBlocks(p, target.number);
    }
  }

  /** One precommit target: the commit target itself adds nothing, an unknown block fails. */
  method CollectOne(db: set<Block>, target: Hash, number: nat, p: Hash, known: set<Hash>, kept: seq<Hash>)
    returns (ok: bool, hashes: set<Hash>, ancestries: seq<Hash>)
    requires ValidTree(db) && known == Elements(kept) && AllDistinct(kept)
    ensures ok <==> LinksTo(db, target, number, p)
    ensures ok ==> Gathered(known, Between(target, p), hashes, ancestries)
  {
    if p == target {
      assert known + Between(target, p) == known;
      return true, known, kept;
    }
    if p !in db {
      return false, known, kept;
    }
    ok, hashes, ancestries := CollectKnown(db, target, number, p, known, kept);
  }

  /** Everything between the precommit targets and the commit target. */
  ghost function BetweenAll(target: Hash, ps: seq<Hash>): set<Hash>
  {
    if ps == [] then {} else BetweenAll(target, ps[..|ps| - 1]) + Between(target, ps[|ps| - 1])
  }

  lemma BetweenAllStep(target: Hash, ps: seq<Hash>, i: nat)
    requires i < |ps|
    ensures BetweenAll(target, ps[..i + 1]) == BetweenAll(target, ps[..i]) + Between(target, ps[i])
  {
    assert ps[..i + 1][..i] == ps[..i];
  }

  method CollectAll(db: set<Block>, target: Hash, number: nat, ps: seq<Hash>) returns (r: Result<seq<Hash>, Error>)
    requires ValidTree(db)
    ensures r.Ok? <==> forall i :: 0 <= i < |ps| ==> LinksTo(db, target, number, ps[i])
    ensures r.Ok? ==> Elements(r.value) == BetweenAll(target, ps) && AllDistinct(r.value)
  {
    var hashes: set<Hash> := {};
    var ancestries: seq<Hash> := [];
    for i := 0 to |ps|
      invariant forall j :: 0 <= j < i ==> LinksTo(db, target, number, ps[j])
      invariant hashes == BetweenAll(target, ps[..i]) && hashes == Elements(ancestries) && AllDistinct(ancestries)
    {
      BetweenAllStep(target, ps, i);
      var ok;
      ok, hashes, ancestries := CollectOne(db, target, number, ps[i], hashes, ancestries);
      if !ok {
        return Err(BadJustification);
      }
    }
    assert ps[..|ps|] == ps;
    r := Ok(ancestries);
  }

  /** Walks every precommit target down to the commit target through the local database. */
  method FromCommit(db: set<Block>, commit: Commit) returns (r: Result<seq<Hash>, Error>)
    requires ValidTree(db)
    ensures r.Ok? <==> forall i :: 0 <= i < |commit.precommits| ==> LinksTo(db, commit.target, commit.number, commit.precommits[i])
    ensures r.Ok? ==> Elements(r.value) == BetweenAll(commit.target, commit.precommits) && AllDistinct(r.value)
    ensures r.Ok? ==> forall h :: h in r.value ==> h in db
    ensures r.Ok? ==> Justifies(commit, Elements(r.value))
  {
    r := CollectAll(db, commit.target, commit.number, commit.precommits);
    if r.Ok? {
      BuiltJustifies(db, commit);
      forall h | h in r.value ensures h in db {
        assert h in Elements(r.value);
        BetweenMember(commit.target, commit.precommits, h);
        var i :| 0 <= i < |commit.precommits| && h in Between(commit.target, commit.precommits[i]);
        if commit.precommits[i] != commit.target {
          BetweenIsKnown(db, commit.target, commit.precommits[i]);
        }
      }
    }
  }

  lemma {:induction false} BetweenMember(target: Hash, ps: seq<Hash>, h: Hash)
    ensures h in BetweenAll(target, ps) <==> exists i :: 0 <= i < |ps| && h in Between(target, ps[i])
  {
    if ps != [] {
      BetweenMember(target, ps[..|ps| - 1], h);
    }
  }

  /** Through a set holding the whole stretch, the path is exactly the stretch. */
  lemma {:induction false} PathIsDown(headers: set<Hash>, target: Block, p: Block)
    requires OnChain(target, p) && Between(target, p) <= headers
    ensures Descends(headers, target, p) && Path(headers, target, p) == Down(p, target.number)
    decreases p.number
  {
    if p != target {
      assert p in Down(p, target.number);
      OnChainComparable(target, p.parent, p);
      forall h | h in Between(target, p.parent) ensures h in headers {
        assert h in Down(p, target.number);
      }
      PathIsDown(headers, target, p.parent);
    }
  }

  /** What is built from a commit passes the checks: the round trip. */
  lemma BuiltJustifies(db: set<Block>, commit: Commit)
    requires forall i :: 0 <= i < |commit.precommits| ==> LinksTo(db, commit.target, commit.number, commit.precommits[i])
    ensures Justifies(commit, BetweenAll(commit.target, commit.precommits))
  {
    var headers := BetweenAll(commit.target, commit.precommits);
    forall i | 0 <= i < |commit.precommits|
      ensures Descends(headers, commit.target, commit.precommits[i]) &&
              Elements(Path(headers, commit.target, commit.precommits[i])) == Between(commit.target, commit.precommits[i])
    {
      forall h | h in Between(commit.target, commit.precommits[i]) ensures h in headers {
        BetweenMember(commit.target, commit.precommits, h);
      }
      PathIsBetween(db, headers, commit.target, commit.number, commit.precommits[i]);
    }
    forall h | h in headers ensures Used(commit, headers, h) {
      BetweenMember(commit.target, commit.precommits, h);
      var i :| 0 <= i < |commit.precommits| && h in Between(commit.target, commit.precommits[i]);
      assert h in Elements(Path(headers, commit.target, commit.precommits[i]));
    }
  }

  lemma PathIsBetween(db: set<Block>, headers: set<Hash>, target: Hash, number: nat, p: Hash)
    requires LinksTo(db, target, number, p) && Between(target, p) <= headers
    ensures Descends(headers, target, p) && Elements(Path(headers, target, p)) == Between(target, p)
  {
    if p != target {
      PathIsDown(headers, target, p);
    }
  }

  /** Conversely, headers that link two well-formed blocks prove real ancestry. */
  lemma {:induction false} DescendsIsAncestry(headers: set<Hash>, target: Block, p: Block)
    requires Descends(headers, target, p)
    ensures OnChain(target, p)
    decreases p.number
  {
    if p != target && p.number > 0 {
      DescendsIsAncestry(headers, target, p.parent);
      OnChainTransitive(target, p.parent, p);
    }
  }

  lemma BetweenBlocks(target: Block, p: Block, h: Hash)
    ensures h in Between(target, p) <==> Linked(h) && OnChain(h, p) && target.number < h.number
  {
    DownAreBlocks(p, target.number);
    if Linked(h) {
      DownContains(p, target.number, h);
    }
  }

  lemma {:induction false} DescentIsStocked(headers: set<Hash>, target: Block, p: Block)
    requires Descends(headers, target, p)
    ensures Between(target, p) <= headers
    decreases p.number
  {
    forall h | h in Between(target, p) ensures h in headers {
      BetweenBlocks(target, p, h);
      if p != target && p.number > 0 && h != p {
        DescentIsStocked(headers, target, p.parent);
        OnChainComparable(h, p.parent, p);
        BetweenBlocks(target, p.parent, h);
      }
    }
  }

  /** Among well-formed blocks the checks pass exactly when every precommit is for the commit
      target or a descendant of it, and the headers are exactly the blocks from the precommit
      targets down to just above the commit target. */
  lemma JustifiesIff(commit: Commit, headers: set<Hash>)
    requires Linked(commit.target) && forall i :: 0 <= i < |commit.precommits| ==> Linked(commit.precommits[i])
    ensures Justifies(commit, headers) <==>
            && (forall i :: 0 <= i < |commit.precommits| ==> OnChain(commit.target, commit.precommits[i]))
            && (forall h :: h in headers <==> Linked(h) && commit.target.number < h.number && Supports(commit, h))
  {
    var target: Block, ps := commit.target, commit.precommits;
    if Justifies(commit, headers) {
      forall i | 0 <= i < |ps| ensures OnChain(target, ps[i]) && Between(target, ps[i]) <= headers {
        DescendsIsAncestry(headers, target, ps[i]);
        DescentIsStocked(headers, target, ps[i]);
      }
      forall h ensures h in headers <==> Linked(h) && target.number < h.number && Supports(commit, h) {
        HeaderIff(commit, headers, h);
      }
    } else if (forall i :: 0 <= i < |ps| ==> OnChain(target, ps[i])) &&
              (forall h :: h in headers <==> Linked(h) && target.number < h.number && Supports(commit, h)) {
      ExactIsUsed(commit, headers);
    }
  }

  /** A precommit target descends from the block or is it. */
  ghost predicate Supports(commit: Commit, h: Hash)
    requires forall i :: 0 <= i < |commit.precommits| ==> Linked(commit.precommits[i])
  {
    Linked(h) && exists i :: 0 <= i < |commit.precommits| && OnChain(h, commit.precommits[i])
  }

  lemma HeaderIff(commit: Commit, headers: set<Hash>, h: Hash)
    requires Linked(commit.target) && forall i :: 0 <= i < |commit.precommits| ==> Linked(commit.precommits[i])
    requires Justifies(commit, headers)
    requires forall i :: 0 <= i < |commit.precommits| ==>
               OnChain(commit.target, commit.precommits[i]) && Between(commit.target, commit.precommits[i]) <= headers
    ensures h in headers <==> Linked(h) && commit.target.number < h.number && Supports(commit, h)
  {
    if h in headers {
      assert Used(commit, headers, h);
      var i :| 0 <= i < |commit.precommits| && Descends(headers, commit.target, commit.precommits[i]) &&
               h in Path(headers, commit.target, commit.precommits[i]);
      PassedIsAbove(headers, commit.target, commit.precommits[i], h);
    } else if Linked(h) && commit.target.number < h.number && Supports(commit, h) {
      var i :| 0 <= i < |commit.precommits| && OnChain(h, commit.precommits[i]);
      BetweenBlocks(commit.target, commit.precommits[i], h);
    }
  }

  /** The headers passed on the way down are the blocks above the target. */
  lemma PassedIsAbove(headers: set<Hash>, target: Block, p: Block, h: Hash)
    requires OnChain(target, p) && Between(target, p) <= headers
    ensures Descends(headers, target, p)
    ensures h in Path(headers, target, p) <==> Linked(h) && OnChain(h, p) && target.number < h.number
  {
    PathIsDown(headers, target, p);
    BetweenBlocks(target, p, h);
  }

  lemma ExactIsUsed(commit: Commit, headers: set<Hash>)
    requires Linked(commit.target) && forall i :: 0 <= i < |commit.precommits| ==> Linked(commit.precommits[i])
    requires forall i :: 0 <= i < |commit.precommits| ==> OnChain(commit.target, commit.precommits[i])
    requires forall h :: h in headers <==> Linked(h) && commit.target.number < h.number && Supports(commit, h)
    ensures Justifies(commit, headers)
  {
    forall i | 0 <= i < |commit.precommits|
      ensures Between(commit.target, commit.precommits[i]) <= headers && Descends(headers, commit.target, commit.precommits[i])
    {
      forall h | h in Between(commit.target, commit.precommits[i]) ensures h in headers {
        BetweenBlocks(commit.target, commit.precommits[i], h);
      }
      PassedIsAbove(headers, commit.target, commit.precommits[i], commit.target);
    }
    forall h | h in headers ensures Used(commit, headers, h) {
      var i :| 0 <= i < |commit.precommits| && OnChain(h, commit.precommits[i]);
      PassedIsAbove(headers, commit.target, commit.precommits[i], h);
    }
  }
}
