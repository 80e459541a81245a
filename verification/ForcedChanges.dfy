/** Pending forced authority-set changes: at most one per fork, applied by block depth. */
module ForcedChanges {
  import opened Wrappers
  import opened ForkTree

  type AuthorityList = seq<(nat, nat)>

  /** A forced change signalled at block `hash`; `medianLastFinalized` comes with the signal. */
  datatype PendingChange = PendingChange(nextAuthorities: AuthorityList, delay: nat, height: nat, hash: Block, medianLastFinalized: nat)

  datatype Error = UnfinalizedAncestor

  /** The parts of an authority set the forced changes concern. */
  datatype SetState = SetState(authorities: AuthorityList, setId: nat, forced: seq<PendingChange>)

  function EffectiveNumber(c: PendingChange): nat
  {
    c.height + c.delay
  }

  /** Ordered by effective number, then by height. */
  predicate Before(a: PendingChange, b: PendingChange)
  {
    EffectiveNumber(a) < EffectiveNumber(b) || (EffectiveNumber(a) == EffectiveNumber(b) && a.height <= b.height)
  }

  predicate StrictlyBefore(a: PendingChange, b: PendingChange)
  {
    Before(a, b) && !Before(b, a)
  }

  ghost predicate Sorted(s: seq<PendingChange>)
  {
    forall i, j :: 0 <= i < j < |s| ==>
      s[i].height + s[i].delay < s[j].height + s[j].delay || (s[i].height + s[i].delay == s[j].height + s[j].delay && s[i].height <= s[j].height)
  }

  /** No two pending changes lie on one branch. */
  ghost predicate OnePerFork(s: seq<PendingChange>)
  {
    forall i, j :: 0 <= i < |s| && 0 <= j < |s| && i != j ==> !OnChain(s[i].hash, s[j].hash)
  }

  /** The ancestry test: a proper descendant. */
  predicate IsDescendentOf(base: Block, hash: Block)
  {
    base != hash && OnChain(base, hash)
  }

  /** Binary search by key; among equal keys any place may be found. */
  method SearchPlace(s: seq<PendingChange>, c: PendingChange) returns (at: nat)
    requires Sorted(s)
    ensures at <= |s|
    ensures forall i :: 0 <= i < at ==> Before(s[i], c)
    ensures forall i :: at <= i < |s| ==> Before(c, s[i])
  {
    var lo, hi := 0, |s|;
    while lo < hi
      invariant 0 <= lo <= hi <= |s|
      invariant forall i :: 0 <= i < lo ==> Before(s[i], c)
      invariant forall i :: hi <= i < |s| ==> Before(c, s[i])
    {
      var mid := (lo + hi) / 2;
      if StrictlyBefore(s[mid], c) {
        lo := mid + 1;
      } else if StrictlyBefore(c, s[mid]) {
        hi := mid;
      } else {
        return mid;
      }
    }
    at := lo;
  }

  /** Whether a pending change was signalled at the new one's block or below it. */
  method BranchTaken(s: seq<PendingChange>, c: PendingChange) returns (taken: bool)
    ensures taken <==> exists i :: 0 <= i < |s| && OnChain(s[i].hash, c.hash)
  {
    for i := 0 to |s|
      invariant forall j :: 0 <= j < i ==> !OnChain(s[j].hash, c.hash)
    {
      if s[i].hash == c.hash || IsDescendentOf(s[i].hash, c.hash) {
        return true;
      }
    }
    return false;
  }

  lemma InsertKeepsSorted(s: seq<PendingChange>, at: nat, c: PendingChange)
    requires Sorted(s) && at <= |s|
    requires forall i :: 0 <= i < at ==> Before(s[i], c)
    requires forall i :: at <= i < |s| ==> Before(c, s[i])
    ensures Sorted(InsertAt(s, at, c))
  {
  }

  function InsertAt(s: seq<PendingChange>, at: nat, c: PendingChange): seq<PendingChange>
    requires at <= |s|
  {
    s[..at] + [c] + s[at..]
  }

  /** A change the current best block makes effective. */
  ghost predicate Due(c: PendingChange, best: Block)
  {
    c.height + c.delay == best.number && c.hash != best && OnChain(c.hash, best)
  }

  /** Adding a change keeps one change per fork exactly when it is signalled in order, that
      is, no pending change was signalled by a descendant of its block. */
  lemma InOrderIff(s: seq<PendingChange>, at: nat, c: PendingChange)
    requires OnePerFork(s) && at <= |s|
    requires forall i :: 0 <= i < |s| ==> !OnChain(s[i].hash, c.hash)
    ensures OnePerFork(InsertAt(s, at, c)) <==> forall i :: 0 <= i < |s| ==> !OnChain(c.hash, s[i].hash)
  {
    var r := InsertAt(s, at, c);
    assert r[at] == c;
    assert forall i :: 0 <= i < |r| && i != at ==> r[i] == s[if i < at then i else i - 1];
    if OnePerFork(r) {
      forall i | 0 <= i < |s| ensures !OnChain(c.hash, s[i].hash) {
        assert s[i] == r[if i < at then i else i + 1];
      }
    }
  }

  /** Signalled out of order, a change and a descendant's change are both accepted and both
      due at one block. */
  lemma OutOfOrderBothDue(set_: AuthorityList) returns (s: seq<PendingChange>, c: PendingChange, best: Block)
    ensures OnePerFork(s) && |s| == 1 && !OnChain(s[0].hash, c.hash)
    ensures Due(s[0], best) && Due(c, best)
  {
    var a: Block := HashOf(1, GENESIS, Content(1, None));
    var b: Block := HashOf(2, a, Content(1, None));
    best := HashOf(3, b, Content(1, None));
    s, c := [PendingChange(set_, 1, 2, b, 0)], PendingChange(set_, 2, 1, a, 0);
    assert AncestorAt(b, 1) == a;
    assert AncestorAt(best, 2) == b && AncestorAt(best, 1) == AncestorAt(b, 1);
  }

  /** At most one pending change is due at any best block. */
  lemma DueIsUnique(s: seq<PendingChange>, best: Block, i: nat, j: nat)
    requires OnePerFork(s) && i < |s| && j < |s| && Due(s[i], best) && Due(s[j], best)
    ensures i == j
  {
    if s[i].hash.number <= s[j].hash.number {
      OnChainComparable(s[i].hash, s[j].hash, best);
    } else {
      OnChainComparable(s[j].hash, s[i].hash, best);
    }
  }

  /** A change effective at the best number on the best block's own chain is due unless it
      was signalled by the best block itself, that is, with no delay. */
  lemma DueUnlessUndelayed(c: PendingChange, best: Block)
    requires c.height == c.hash.number && EffectiveNumber(c) == best.number && OnChain(c.hash, best)
    ensures Due(c, best) <==> c.delay > 0
  {
  }

  class AuthoritySet {
    var authorities: AuthorityList
    var setId: nat
    var forced: seq<PendingChange>

    ghost predicate Valid()
      reads this
    {
      Sorted(forced) && OnePerFork(forced)
    }

    constructor (authorities: AuthorityList)
      ensures Valid() && this.authorities == authorities && setId == 0 && forced == []
    {
      this.authorities, setId, forced := authorities, 0, [];
    }

    method AddForcedChange(pending: PendingChange) returns (r: Result<(), Error>)
      requires Valid()
      modifies this`forced
      ensures r.Ok? <==> forall i :: 0 <= i < |old(forced)| ==> !OnChain(old(forced)[i].hash, pending.hash)
      ensures r.Err? ==> forced == old(forced)
      ensures r.Ok? ==> multiset(forced) == multiset(old(forced)) + multiset{pending}
      ensures r.Ok? ==> Sorted(forced) && exists at :: 0 <= at <= |old(forced)| && forced == InsertAt(old(forced), at, pending)
      ensures Valid() <==> r.Err? || forall i :: 0 <= i < |old(forced)| ==> !OnChain(pending.hash, old(forced)[i].hash)
    {
      var taken := BranchTaken(forced, pending);
      if taken {
        return Err(UnfinalizedAncestor);
      }
      var at := SearchPlace(forced, pending);
      InsertKeepsSorted(forced, at, pending);
      InOrderIff(forced, at, pending);
      assert forced == forced[..at] + forced[at..];
      forced := InsertAt(forced, at, pending);
      r := Ok(());
    }

    /** The median last finalized number and the new set when a change is due; the new set
        starts without pending changes. */
    method ApplyForcedChanges(best: Block) returns (r: Option<(nat, SetState)>)
      requires Valid()
      ensures r.Some? <==> exists i :: 0 <= i < |forced| && Due(forced[i], best)
      ensures forall i :: 0 <= i < |forced| && Due(forced[i], best) ==>
                r == Some((forced[i].medianLastFinalized, SetState(forced[i].nextAuthorities, setId + 1, [])))
    {
      var i := 0;
      while i < |forced| && EffectiveNumber(forced[i]) <= best.number
        invariant 0 <= i <= |forced|
        invariant forall j :: 0 <= j < i ==> !Due(forced[j], best)
      {
        var c := forced[i];
        if EffectiveNumber(c) == best.number {
          if IsDescendentOf(c.hash, best) {
            forall j | 0 <= j < |forced| && Due(forced[j], best) ensures j == i {
              DueIsUnique(forced, best, i, j);
            }
            return Some((c.medianLastFinalized, SetState(c.nextAuthorities, setId + 1, [])));
          }
        }
        i := i + 1;
      }
      assert forall j :: i <= j < |forced| ==> EffectiveNumber(forced[j]) > best.number;
      r := None;
    }
  }
}
