/** Canonical hash tries: which blocks each covers, when one is built, and how queries are
    grouped by trie. */
module Cht {
  import opened Wrappers

  const SIZE: nat := 2048

  /** Trie `cht` covers blocks `StartNumber` to `EndNumber`; genesis is in none. */
  function StartNumber(size: nat, cht: nat): nat
  {
    cht * size + 1
  }

  function EndNumber(size: nat, cht: nat): nat
  {
    (cht + 1) * size
  }

  function BlockToCht(size: nat, number: nat): Option<nat>
    requires size > 0
  {
    if number == 0 then None else Some((number - 1) / size)
  }

  /** The trie to build when a block is finalized, if any. */
  function IsBuildRequired(size: nat, number: nat): Option<nat>
    requires size > 0
  {
    var c := BlockToCht(size, number);
    if c.None? || c.value < 2 || StartNumber(size, c.value) != number then None else Some(c.value - 2)
  }

  lemma AtLeastOneFactor(k: nat, size: nat)
    requires k > 0
    ensures k * size >= size
  {
  }

  lemma NoFactor(a: nat, b: nat, size: nat, x: nat, y: nat)
    requires x < size && y < size && a * size + x == b * size + y
    ensures a <= b
  {
    assert (a - b) * size == a * size - b * size;
    if a > b {
      AtLeastOneFactor(a - b, size);
    }
  }

  lemma DivisionUnique(size: nat, q: nat, r: nat, n: nat)
    requires size > 0 && r < size && n == q * size + r
    ensures n / size == q
  {
    var q', r' := n / size, n % size;
    assert n == q' * size + r';
    NoFactor(q, q', size, r, r');
    NoFactor(q', q, size, r', r);
  }

  /** The ranges partition the numbers from one in runs of `size`: each number lies in the range
      of its own trie and of no other. */
  lemma RangesPartition(size: nat, number: nat, cht: nat)
    requires size > 0 && number > 0
    ensures BlockToCht(size, number) == Some(cht) <==> StartNumber(size, cht) <= number <= EndNumber(size, cht)
    ensures EndNumber(size, cht) + 1 == StartNumber(size, cht + 1) == StartNumber(size, cht) + size
    ensures StartNumber(size, 0) == 1
  {
    var q := (number - 1) / size;
    assert number - 1 == q * size + (number - 1) % size;
    assert (q + 1) * size == q * size + size;
    assert (cht + 1) * size == cht * size + size;
    if StartNumber(size, cht) <= number <= EndNumber(size, cht) {
      DivisionUnique(size, cht, number - 1 - cht * size, number - 1);
    }
  }

  /** A trie is built exactly at the first block two tries later. */
  lemma BuildSchedule(size: nat, number: nat, cht: nat)
    requires size > 0
    ensures IsBuildRequired(size, number) == Some(cht) <==> number == StartNumber(size, cht + 2)
  {
    if number == StartNumber(size, cht + 2) {
      DivisionUnique(size, cht + 2, 0, number - 1);
    }
  }

  // Grouping

  type Group = (nat, seq<nat>)

  datatype GroupOutcome = Grouped | NoChtFor(number: nat) | Disordered

  function Flatten(groups: seq<Group>): seq<nat>
  {
    if groups == [] then [] else Flatten(groups[..|groups| - 1]) + groups[|groups| - 1].1
  }

  /** The grouping only depends on which trie each block belongs to. */
  type Key = nat -> Option<nat>

  predicate GroupOk(key: Key, g: Group)
  {
    g.1 != [] && forall i :: 0 <= i < |g.1| ==> key(g.1[i]) == Some(g.0)
  }

  ghost predicate Increasing(groups: seq<Group>)
  {
    forall i, j :: 0 <= i < j < |groups| ==> groups[i].0 < groups[j].0
  }

  /** Well-formed groups with increasing keys. */
  ghost predicate GroupsOk(key: Key, groups: seq<Group>)
  {
    Increasing(groups) && forall i :: 0 <= i < |groups| ==> GroupOk(key, groups[i])
  }

  /** Well-formed groups with increasing keys, all below `bound`. */
  ghost predicate Emitted(key: Key, groups: seq<Group>, bound: nat)
  {
    && (forall i :: 0 <= i < |groups| ==> GroupOk(key, groups[i]) && groups[i].0 < bound)
    && Increasing(groups)
  }

  lemma EmitKeeps(key: Key, groups: seq<Group>, g: Group, bound: nat)
    requires Emitted(key, groups, g.0) && GroupOk(key, g) && g.0 < bound
    ensures Emitted(key, groups + [g], bound)
    ensures Flatten(groups + [g]) == Flatten(groups) + g.1
  {
    FlattenSnoc(groups, g);
  }

  ghost predicate NeverDecreasing(key: Key, blocks: seq<nat>)
  {
    && (forall i :: 0 <= i < |blocks| ==> key(blocks[i]).Some?)
    && (forall i, j :: 0 <= i < j < |blocks| ==> key(blocks[i]).Some? && key(blocks[j]).Some? && key(blocks[i]).value <= key(blocks[j]).value)
  }

  lemma FlattenSnoc(groups: seq<Group>, g: Group)
    ensures Flatten(groups + [g]) == Flatten(groups) + g.1
  {
    assert (groups + [g])[..|groups|] == groups;
  }

  lemma NeverDecreasingSnoc(key: Key, blocks: seq<nat>, b: nat)
    requires NeverDecreasing(key, blocks) && key(b).Some?
    requires blocks != [] ==> key(blocks[|blocks| - 1]).value <= key(b).value
    ensures NeverDecreasing(key, blocks + [b])
  {
    var s := blocks + [b];
    forall i, j | 0 <= i < j < |s| ensures key(s[i]).value <= key(s[j]).value {
      if j == |blocks| {
        assert key(blocks[i]).value <= key(blocks[|blocks| - 1]).value;
      }
    }
  }

  /** The blocks `done` have been grouped, the last group still being open. */
  ghost predicate Progress(key: Key, done: seq<nat>, groups: seq<Group>, current: Option<nat>, pending: seq<nat>)
  {
    && NeverDecreasing(key, done)
    && Flatten(groups) + pending == done
    && if current.None? then done == [] && groups == [] && pending == []
       else
         && done != [] && key(done[|done| - 1]) == current
         && GroupOk(key, (current.value, pending)) && Emitted(key, groups, current.value)
  }

  /** Handles one block: closes the open group when the block belongs to a later one. */
  method Advance(key: Key, ghost done: seq<nat>, groups: seq<Group>, current: Option<nat>, pending: seq<nat>, block: nat)
    returns (outcome: GroupOutcome, groups': seq<Group>, current': Option<nat>, pending': seq<nat>)
    requires Progress(key, done, groups, current, pending)
    ensures outcome == Grouped ==> Progress(key, done + [block], groups', current', pending')
    ensures outcome != Grouped ==> groups' == groups && !NeverDecreasing(key, done + [block]) && GroupsOk(key, groups')
  {
    groups', current', pending' := groups, current, pending;
    var new_ := key(block);
    assert (done + [block])[|done|] == block;
    if new_.None? {
      return NoChtFor(block), groups', current', pending';
    }
    if current.Some? && current != new_ {
      if new_.value < current.value {
        assert (done + [block])[|done| - 1] == done[|done| - 1];
        return Disordered, groups', current', pending';
      }
      EmitKeeps(key, groups, (current.value, pending), new_.value);
      groups', pending' := groups + [(current.value, pending)], [];
    }
    NeverDecreasingSnoc(key, done, block);
    pending', current' := pending' + [block], new_;
    outcome := Grouped;
  }

  lemma NeverDecreasingPrefix(key: Key, blocks: seq<nat>, k: nat)
    requires k <= |blocks| && !NeverDecreasing(key, blocks[..k])
    ensures !NeverDecreasing(key, blocks)
  {
    var p := blocks[..k];
    if i :| 0 <= i < |p| && key(p[i]).None? {
      assert p[i] == blocks[i];
    } else {
      var i, j :| 0 <= i < j < |p| && key(p[i]).Some? && key(p[j]).Some? && key(p[i]).value > key(p[j]).value;
      assert p[i] == blocks[i] && p[j] == blocks[j];
    }
  }

  lemma LastGroup(key: Key, done: seq<nat>, groups: seq<Group>, current: nat, pending: seq<nat>)
    requires Progress(key, done, groups, Some(current), pending)
    ensures GroupsOk(key, groups + [(current, pending)])
    ensures Flatten(groups + [(current, pending)]) == done
  {
    EmitKeeps(key, groups, (current, pending), current + 1);
  }

  /** Emits maximal runs of blocks with one key; `groups` is what the callback received. */
  method ForEachGroup(key: Key, blocks: seq<nat>) returns (groups: seq<Group>, outcome: GroupOutcome)
    ensures outcome == Grouped <==> NeverDecreasing(key, blocks)
    ensures GroupsOk(key, groups)
    ensures outcome == Grouped ==> Flatten(groups) == blocks
  {
    groups, outcome := [], Grouped;
    var current: Option<nat>, pending: seq<nat> := None, [];
    for k := 0 to |blocks|
      invariant Progress(key, blocks[..k], groups, current, pending) && outcome == Grouped
    {
      ghost var done := blocks[..k];
      assert blocks[..k + 1] == done + [blocks[k]];
      outcome, groups, current, pending := Advance(key, done, groups, current, pending, blocks[k]);
      if outcome != Grouped {
        NeverDecreasingPrefix(key, blocks, k + 1);
        return;
      }
    }
    assert blocks[..|blocks|] == blocks;
    if current.Some? {
      LastGroup(key, blocks, groups, current.value, pending);
      groups := groups + [(current.value, pending)];
    }
  }

  /** Groups ordered blocks by trie; each group lies inside its trie's range. */
  method ForEachChtGroup(size: nat, blocks: seq<nat>) returns (groups: seq<Group>, outcome: GroupOutcome)
    requires size > 0
    ensures outcome == Grouped <==> NeverDecreasing(n => BlockToCht(size, n), blocks)
    ensures forall i, j :: 0 <= i < |groups| && 0 <= j < |groups[i].1| ==>
              StartNumber(size, groups[i].0) <= groups[i].1[j] <= EndNumber(size, groups[i].0)
    ensures forall i :: 0 <= i < |groups| ==> groups[i].1 != []
    ensures Increasing(groups)
    ensures outcome == Grouped ==> Flatten(groups) == blocks
  {
    var key := (n: nat) => BlockToCht(size, n);
    groups, outcome := ForEachGroup(key, blocks);
    forall i, j | 0 <= i < |groups| && 0 <= j < |groups[i].1|
      ensures StartNumber(size, groups[i].0) <= groups[i].1[j] <= EndNumber(size, groups[i].0)
    {
      assert GroupOk(key, groups[i]) && key(groups[i].1[j]) == Some(groups[i].0);
      RangesPartition(size, groups[i].1[j], groups[i].0);
    }
  }

  // Building

  /** Collects the pairs from the canonical index; fails on the first missing hash. */
  method BuildPairs<V>(size: nat, cht: nat, numbers: map<nat, V>) returns (r: Result<seq<(nat, V)>, nat>)
    requires size > 0
    ensures r.Ok? <==> forall n :: StartNumber(size, cht) <= n < StartNumber(size, cht) + size ==> n in numbers
    ensures r.Err? ==> StartNumber(size, cht) <= r.error < StartNumber(size, cht) + size && r.error !in numbers
    ensures r.Ok? ==>
              && |r.value| == size
              && forall i :: 0 <= i < size ==>
                   StartNumber(size, cht) + i in numbers &&
                   r.value[i] == (StartNumber(size, cht) + i, numbers[StartNumber(size, cht) + i])
  {
    var start := StartNumber(size, cht);
    var pairs: seq<(nat, V)> := [];
    var index := 0;
    while index < size
      invariant 0 <= index <= size && |pairs| == index
      invariant forall n :: start <= n < start + index ==> n in numbers
      invariant forall i :: 0 <= i < index ==> start + i in numbers && pairs[i] == (start + i, numbers[start + i])
    {
      if start + index !in numbers {
        return Err(start + index);
      }
      pairs := pairs + [(start + index, numbers[start + index])];
      index := index + 1;
    }
    r := Ok(pairs);
  }
}
