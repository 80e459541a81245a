/** Choosing the block a GRANDPA voter votes on: authority-change limits and voting rules. */
module VoteTargets {
  import opened Wrappers
  import opened ForkTree

  /** A rule sees the round base, the best target and the current target, and may name a
      block to vote on instead. */
  type Rule = (Block, Block, Block) -> Option<(Hash, nat)>

  /** The contract of rules: a restricted vote is an ancestor of the current target. */
  ghost predicate Obeys(rule: Rule)
  {
    forall base: Block, best: Block, current: Block :: rule(base, best, current).Some? ==>
      var (h, n) := rule(base, best, current).value;
      Linked(h) && OnChain(h, current) && n == h.number
  }

  // The two default rules

  function BeforeBestBlock(base: Block, best: Block, current: Block): Option<(Hash, nat)>
  {
    if current.number == 0 then None
    else if current.number == best.number then Some((current.parent, current.number - 1))
    else None
  }

  /** Three quarters of the way from base to best, rounded to the nearest block and up from
      the middle. */
  function ThreeQuarters(base: nat, best: nat): nat
    requires base <= best
  {
    base + ((best - base) * 3 + 2) / 4
  }

  /** `n` is that height: three quarters of the distance and a half lie in [n, n + 1). */
  ghost predicate IsThreeQuarters(base: nat, best: nat, n: nat)
  {
    4 * (n - base) <= 3 * (best - base) + 2 < 4 * (n - base) + 4
  }

  /** The best target is never below the base when a vote is cast; the other case is vacuous. */
  function ThreeQuartersOfTheUnfinalizedChain(base: Block, best: Block, current: Block): Option<(Hash, nat)>
  {
    if best.number < base.number then None
    else
      var target := ThreeQuarters(base.number, best.number);
      if target >= current.number then None else Some((AncestorAt(current, target), target))
  }

  lemma DefaultRulesObey()
    ensures Obeys(BeforeBestBlock) && Obeys(ThreeQuartersOfTheUnfinalizedChain)
  {
    forall base: Block, best: Block, current: Block | BeforeBestBlock(base, best, current).Some?
      ensures var h := BeforeBestBlock(base, best, current).value.0; Linked(h) && OnChain(h, current)
    {
      assert AncestorAt(current, current.number - 1) == current.parent;
    }
  }

  /** Follows parents down to the given height. */
  method WalkDownTo(db: set<Block>, start: Block, height: nat) returns (b: Block)
    requires ValidTree(db) && start in db && height <= start.number
    ensures b == AncestorAt(start, height) && b in db
  {
    b := start;
    while b.number != height
      invariant b in db && height <= b.number && b == AncestorAt(start, b.number)
      decreases b.number
    {
      AncestorOfAncestor(start, b.number, b.number - 1);
      b := b.parent;
    }
  }

  method RestrictToThreeQuarters(db: set<Block>, base: Block, best: Block, current: Block) returns (r: Option<(Hash, nat)>)
    requires ValidTree(db) && current in db && base.number <= best.number
    ensures r == ThreeQuartersOfTheUnfinalizedChain(base, best, current)
    ensures r.Some? <==> 4 * (current.number - base.number) > 3 * (best.number - base.number) + 2
    ensures r.Some? ==>
              var (h, n) := r.value;
              IsThreeQuarters(base.number, best.number, n) && n < current.number && OnChain(h, current) && h.number == n
  {
    var target := ThreeQuarters(base.number, best.number);
    if target >= current.number {
      return None;
    }
    var b := WalkDownTo(db, current, target);
    r := Some((b, target));
  }

  // Composition

  /** Applies the rules in order, each to the target the previous ones left; a vote on an
      unknown block is ignored. */
  function Restricted(db: set<Block>, rules: seq<Rule>, base: Block, best: Block, current: Block): Block
    decreases |rules|
  {
    if rules == [] then current
    else
      var r := rules[0](base, best, current);
      Restricted(db, rules[1..], base, best, if r.Some? && r.value.0 in db then r.value.0 else current)
  }

  function Composite(db: set<Block>, rules: seq<Rule>): Rule
  {
    (base: Block, best: Block, current: Block) =>
      var b := Restricted(db, rules, base, best, current);
      if b != current then Some((b, b.number)) else None
  }

  lemma {:induction false} RestrictedOnChain(db: set<Block>, rules: seq<Rule>, base: Block, best: Block, current: Block)
    requires forall i :: 0 <= i < |rules| ==> Obeys(rules[i])
    ensures OnChain(Restricted(db, rules, base, best, current), current)
    decreases |rules|
  {
    if rules != [] {
      assert Obeys(rules[0]);
      var r := rules[0](base, best, current);
      var next := if r.Some? && r.value.0 in db then r.value.0 else current;
      RestrictedOnChain(db, rules[1..], base, best, next);
      OnChainTransitive(Restricted(db, rules[1..], base, best, next), next, current);
    }
  }

  /** Rules apply one after the other, each to the target the previous ones left, and a single
      rule moves the target exactly to a known block it names. */
  lemma {:induction false} RestrictedInOrder(db: set<Block>, first: seq<Rule>, rule: Rule, base: Block, best: Block, current: Block)
    ensures var left := Restricted(db, first, base, best, current);
            var r := rule(base, best, left);
            Restricted(db, first + [rule], base, best, current) == if r.Some? && r.value.0 in db then r.value.0 else left
    decreases |first|
  {
    if first == [] {
      assert first + [rule] == [rule] && [rule][1..] == [];
    } else {
      assert (first + [rule])[1..] == first[1..] + [rule];
      var r := first[0](base, best, current);
      RestrictedInOrder(db, first[1..], rule, base, best, if r.Some? && r.value.0 in db then r.value.0 else current);
    }
  }

  /** Rules that obey the contract compose to one that does. */
  lemma CompositeObeys(db: set<Block>, rules: seq<Rule>)
    requires forall i :: 0 <= i < |rules| ==> Obeys(rules[i])
    ensures Obeys(Composite(db, rules))
  {
    forall base: Block, best: Block, current: Block | Composite(db, rules)(base, best, current).Some?
      ensures var (h, n) := Composite(db, rules)(base, best, current).value; Linked(h) && OnChain(h, current) && n == h.number
    {
      RestrictedOnChain(db, rules, base, best, current);
    }
  }

  // Selecting the vote

  /** The best block, or its ancestor at the limit when a pending change limits the vote. */
  function Target(best: Block, limit: Option<nat>): Block
  {
    if limit.Some? && limit.value < best.number then AncestorAt(best, limit.value) else best
  }

  function VoteOn(base: Block, best: Block, limit: Option<nat>, rule: Rule): (Hash, nat)
  {
    var target := Target(best, limit);
    var r := rule(base, best, target);
    if r.Some? && base.number <= r.value.1 < target.number then r.value else (target, target.number)
  }

  /** `finalityTarget` is the head chosen for the chain containing `block`; `sameSet` tells
      whether the voter's set is still the current one. */
  method BestChainContaining(db: set<Block>, block: Block, finalityTarget: Option<Block>, sameSet: bool, limit: Option<nat>, rule: Rule)
    returns (r: Option<(Hash, nat)>)
    requires ValidTree(db) && block in db
    requires finalityTarget.Some? ==> finalityTarget.value in db && OnChain(block, finalityTarget.value)
    ensures r.Some? <==> sameSet && finalityTarget.Some? && (limit.Some? ==> block.number <= limit.value)
    ensures r.Some? ==> r.value == VoteOn(block, finalityTarget.value, limit, rule)
  {
    if !sameSet || finalityTarget.None? {
      return None;
    }
    var best := finalityTarget.value;
    if limit.Some? && block.number > limit.value {
      return None;
    }
    var target := best;
    if limit.Some? && limit.value < best.number {
      target := WalkDownTo(db, best, limit.value);
    }
    var restricted := rule(block, best, target);
    if restricted.Some? && restricted.value.1 >= block.number && restricted.value.1 < target.number {
      return restricted;
    }
    r := Some((target, target.number));
  }

  /** Any vote lies on the chain from base to best and respects the limit. */
  lemma VoteIsSafe(base: Block, best: Block, limit: Option<nat>, rule: Rule)
    requires Obeys(rule) && OnChain(base, best) && (limit.Some? ==> base.number <= limit.value)
    ensures var (h, n) := VoteOn(base, best, limit, rule);
            && Linked(h) && n == h.number
            && OnChain(base, h) && OnChain(h, best)
            && (limit.Some? ==> n <= limit.value)
  {
    var target := Target(best, limit);
    var (h, n) := VoteOn(base, best, limit, rule);
    if h != target {
      OnChainTransitive(h, target, best);
    }
    OnChainComparable(base, h, best);
  }

  function Min(a: nat, b: nat): nat
  {
    if a <= b then a else b
  }

  lemma DefaultHeight(db: set<Block>, base: Block, best: Block, limit: Option<nat>)
    requires ValidTree(db) && best in db && OnChain(base, best) && (limit.Some? ==> base.number <= limit.value)
    ensures var n := VoteOn(base, best, limit, Composite(db, [BeforeBestBlock, ThreeQuartersOfTheUnfinalizedChain])).1;
            if base == best then n == best.number
            else n == Min(Min(if limit.Some? then limit.value else best.number, best.number - 1), ThreeQuarters(base.number, best.number))
  {
    var target := Target(best, limit);
    AncestorInTree(db, best, target.number);
    DefaultRestriction(db, base, best, target);
    ThreeQuartersBounds(base.number, best.number);
  }

  /** With the default rules the height is the least of the limit, one below best, and three
      quarters of the way to the nearest block, or best itself when there is nothing above the base. */
  lemma DefaultVoteHeight(db: set<Block>, base: Block, best: Block, limit: Option<nat>)
    requires ValidTree(db) && best in db && OnChain(base, best) && (limit.Some? ==> base.number <= limit.value)
    ensures var n := VoteOn(base, best, limit, Composite(db, [BeforeBestBlock, ThreeQuartersOfTheUnfinalizedChain])).1;
            if base == best then n == best.number
            else forall q: nat :: IsThreeQuarters(base.number, best.number, q) ==>
              n == Min(Min(if limit.Some? then limit.value else best.number, best.number - 1), q)
    ensures exists q: nat :: IsThreeQuarters(base.number, best.number, q)
  {
    DefaultHeight(db, base, best, limit);
    ThreeQuartersExact(base.number, best.number);
  }

  lemma ThreeQuartersExact(base: nat, best: nat)
    requires base <= best
    ensures IsThreeQuarters(base, best, ThreeQuarters(base, best))
    ensures forall n: nat :: IsThreeQuarters(base, best, n) ==> n == ThreeQuarters(base, best)
  {
  }

  lemma ThreeQuartersBounds(base: nat, best: nat)
    requires base <= best
    ensures base <= ThreeQuarters(base, best) <= best
    ensures base < best ==> base < ThreeQuarters(base, best)
  {
  }

  /** The height is three quarters of the way rounded up unless the distance is three more than
      a multiple of four, when it is rounded down. */
  lemma RoundedUpIff(base: nat, best: nat, n: nat)
    requires base <= best && IsThreeQuarters(base, best, n)
    ensures 3 * (best - base) <= 4 * (n - base) <==> (best - base) % 4 != 3
  {
    var d := best - base;
    assert d == 4 * (d / 4) + d % 4;
  }

  /** What the two default rules leave of a target. */
  lemma DefaultRestriction(db: set<Block>, base: Block, best: Block, target: Block)
    requires ValidTree(db) && target in db && base.number <= best.number
    ensures var n := if 0 < target.number == best.number then target.number - 1 else target.number;
            Restricted(db, [BeforeBestBlock, ThreeQuartersOfTheUnfinalizedChain], base, best, target).number
            == Min(n, ThreeQuarters(base.number, best.number))
  {
    var rules: seq<Rule> := [BeforeBestBlock, ThreeQuartersOfTheUnfinalizedChain];
    var r1 := BeforeBestBlock(base, best, target);
    var t1 := if r1.Some? then r1.value.0 else target;
    assert t1 in db;
    var r2 := ThreeQuartersOfTheUnfinalizedChain(base, best, t1);
    var t2 := if r2.Some? then r2.value.0 else t1;
    if r2.Some? {
      AncestorInTree(db, t1, r2.value.1);
    }
    assert rules[1..] == [ThreeQuartersOfTheUnfinalizedChain];
    assert rules[1..][1..] == [];
    assert Restricted(db, rules, base, best, target) == Restricted(db, rules[1..], base, best, t1) == t2;
  }
}
