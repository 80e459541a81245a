/** The bounded window of last completed voting rounds. */
module CompletedRounds {
  import opened Wrappers
  import opened ForkTree

  /** Round states and signed votes are opaque here. */
  datatype CompletedRound = CompletedRound(number: nat, state: nat, base: (Hash, nat), votes: seq<nat>)

  const NUM_LAST_COMPLETED_ROUNDS: nat := 2

  ghost predicate Descending(rounds: seq<CompletedRound>)
  {
    forall i, j :: 0 <= i < j < |rounds| ==> rounds[i].number > rounds[j].number
  }

  /** Binary search by descending round number: the index found, or where to insert. */
  method Search(rounds: seq<CompletedRound>, number: nat) returns (found: bool, at: nat)
    requires Descending(rounds)
    ensures at <= |rounds|
    ensures found ==> at < |rounds| && rounds[at].number == number
    ensures !found ==>
              && (forall i :: 0 <= i < at ==> rounds[i].number > number)
              && (forall i :: at <= i < |rounds| ==> rounds[i].number < number)
  {
    var lo, hi := 0, |rounds|;
    while lo < hi
      invariant 0 <= lo <= hi <= |rounds|
      invariant forall i :: 0 <= i < lo ==> rounds[i].number > number
      invariant forall i :: hi <= i < |rounds| ==> rounds[i].number < number
    {
      var mid := (lo + hi) / 2;
      if rounds[mid].number == number {
        return true, mid;
      } else if rounds[mid].number > number {
        lo := mid + 1;
      } else {
        hi := mid;
      }
    }
    return false, lo;
  }

  function Placed(rounds: seq<CompletedRound>, r: CompletedRound): seq<CompletedRound>
  {
    if rounds == [] || rounds[0].number < r.number then [r] + rounds
    else if rounds[0].number == r.number then [r] + rounds[1..]
    else [rounds[0]] + Placed(rounds[1..], r)
  }

  function Pushed(rounds: seq<CompletedRound>, r: CompletedRound): seq<CompletedRound>
  {
    var p := Placed(rounds, r);
    if |p| > NUM_LAST_COMPLETED_ROUNDS then p[..|p| - 1] else p
  }

  lemma {:induction false} PlacedOver(rounds: seq<CompletedRound>, r: CompletedRound, at: nat)
    requires at < |rounds| && rounds[at].number == r.number
    requires forall i :: 0 <= i < at ==> rounds[i].number > r.number
    ensures Placed(rounds, r) == rounds[at := r]
  {
    if at > 0 {
      PlacedOver(rounds[1..], r, at - 1);
    }
  }

  lemma {:induction false} PlacedBetween(rounds: seq<CompletedRound>, r: CompletedRound, at: nat)
    requires at <= |rounds|
    requires forall i :: 0 <= i < at ==> rounds[i].number > r.number
    requires at < |rounds| ==> rounds[at].number < r.number
    ensures Placed(rounds, r) == rounds[..at] + [r] + rounds[at..]
  {
    if at > 0 {
      PlacedBetween(rounds[1..], r, at - 1);
      assert rounds[..at] == [rounds[0]] + rounds[1..][..at - 1];
      assert rounds[at..] == rounds[1..][at - 1..];
    }
  }

  /** Replaces the data of a known round or inserts a new one, evicting the oldest. */
  method Push(rounds: seq<CompletedRound>, r: CompletedRound) returns (updated: seq<CompletedRound>)
    requires Descending(rounds)
    ensures updated == Pushed(rounds, r)
  {
    var found, at := Search(rounds, r.number);
    if found {
      PlacedOver(rounds, r, at);
      updated := rounds[at := r];
    } else {
      PlacedBetween(rounds, r, at);
      updated := rounds[..at] + [r] + rounds[at..];
    }
    if |updated| > NUM_LAST_COMPLETED_ROUNDS {
      updated := updated[..|updated| - 1];
    }
  }

  function PushAll(rounds: seq<CompletedRound>, pushes: seq<CompletedRound>): seq<CompletedRound>
  {
    if pushes == [] then rounds else Pushed(PushAll(rounds, pushes[..|pushes| - 1]), pushes[|pushes| - 1])
  }

  /** `r` is the last round with its number in the history. */
  ghost predicate IsLatest(seen: seq<CompletedRound>, r: CompletedRound)
  {
    exists i :: 0 <= i < |seen| && seen[i] == r && forall j :: i < j < |seen| ==> seen[j].number != r.number
  }

  /** `n` is the highest stored number, or no higher than the second of a full window. */
  predicate Covered(rounds: seq<CompletedRound>, n: nat)
    requires rounds != []
  {
    n == rounds[0].number || (|rounds| == NUM_LAST_COMPLETED_ROUNDS && n <= rounds[1].number)
  }

  /** The window holds the latest data of exactly the two highest round numbers seen. */
  ghost predicate IsWindow(rounds: seq<CompletedRound>, seen: seq<CompletedRound>)
  {
    && 0 < |rounds| <= NUM_LAST_COMPLETED_ROUNDS
    && Descending(rounds)
    && (forall i :: 0 <= i < |rounds| ==> IsLatest(seen, rounds[i]))
    && (forall i :: 0 <= i < |seen| ==> Covered(rounds, seen[i].number))
  }

  lemma LatestSnoc(seen: seq<CompletedRound>, r: CompletedRound, x: CompletedRound)
    ensures IsLatest(seen + [r], r)
    ensures IsLatest(seen, x) && x.number != r.number ==> IsLatest(seen + [r], x)
  {
    var s := seen + [r];
    assert s[|seen|] == r;
    if IsLatest(seen, x) && x.number != r.number {
      var i :| 0 <= i < |seen| && seen[i] == x && forall j :: i < j < |seen| ==> seen[j].number != x.number;
      assert s[i] == x;
    }
  }

  /** Pushing onto a window of one or two rounds, case by case. */
  lemma PushedCases(rounds: seq<CompletedRound>, r: CompletedRound)
    requires 0 < |rounds| <= NUM_LAST_COMPLETED_ROUNDS && Descending(rounds)
    ensures var p := Pushed(rounds, r);
            if r.number > rounds[0].number then p == [r, rounds[0]]
            else if r.number == rounds[0].number then p == [r] + rounds[1..]
            else if |rounds| == 1 || r.number >= rounds[1].number then p == [rounds[0], r]
            else p == rounds
  {
    assert Placed([], r) == [r];
    if |rounds| == 1 {
      assert rounds[1..] == [];
    } else {
      var second := rounds[1..];
      assert second == [rounds[1]] && second[1..] == [];
      assert Placed(second, r) ==
             if rounds[1].number < r.number then [r, rounds[1]]
             else if rounds[1].number == r.number then [r]
             else [rounds[1], r];
      assert rounds == [rounds[0], rounds[1]];
    }
  }

  lemma PushKeepsWindow(rounds: seq<CompletedRound>, seen: seq<CompletedRound>, r: CompletedRound)
    requires IsWindow(rounds, seen)
    ensures IsWindow(Pushed(rounds, r), seen + [r])
  {
    var p := Pushed(rounds, r);
    PushedCases(rounds, r);
    forall i | 0 <= i < |p| ensures IsLatest(seen + [r], p[i]) {
      LatestSnoc(seen, r, p[i]);
    }
    var s := seen + [r];
    forall i | 0 <= i < |s| ensures Covered(p, s[i].number) {
      assert i < |seen| ==> Covered(rounds, seen[i].number);
    }
  }

  /** After any series of pushes on top of the genesis round; the first entry is the last. */
  lemma {:induction false} WindowOfHistory(genesis: CompletedRound, pushes: seq<CompletedRound>)
    ensures IsWindow(PushAll([genesis], pushes), [genesis] + pushes)
  {
    if pushes == [] {
      assert [genesis] + pushes == [] + [genesis];
      LatestSnoc([], genesis, genesis);
    } else {
      var n := |pushes| - 1;
      WindowOfHistory(genesis, pushes[..n]);
      PushKeepsWindow(PushAll([genesis], pushes[..n]), [genesis] + pushes[..n], pushes[n]);
      assert ([genesis] + pushes[..n]) + [pushes[n]] == [genesis] + pushes;
    }
  }

  lemma WindowStartsAtHighest(rounds: seq<CompletedRound>, seen: seq<CompletedRound>, i: nat)
    requires IsWindow(rounds, seen) && i < |seen|
    ensures seen[i].number <= rounds[0].number
  {
    assert Covered(rounds, seen[i].number);
  }

  // Concluding a round

  function Skip(votes: seq<nat>, n: nat): seq<nat>
  {
    if n <= |votes| then votes[n..] else []
  }

  /** The stored votes of a round with those seen since. */
  function Extended(r: CompletedRound, state: nat, seen: seq<nat>): CompletedRound
  {
    r.(state := state, votes := r.votes + Skip(seen, |r.votes|))
  }

  function Concluded(rounds: seq<CompletedRound>, number: nat, state: nat, seen: seq<nat>): seq<CompletedRound>
  {
    if rounds == [] then []
    else if rounds[0].number == number then
      [Extended(rounds[0], state, seen)] + rounds[1..]
    else [rounds[0]] + Concluded(rounds[1..], number, state, seen)
  }

  /** The stored round with a number, extended: what is written when it concludes. */
  function ConcludedRecord(rounds: seq<CompletedRound>, number: nat, state: nat, seen: seq<nat>): Option<CompletedRound>
  {
    if rounds == [] then None
    else if rounds[0].number == number then Some(Extended(rounds[0], state, seen))
    else ConcludedRecord(rounds[1..], number, state, seen)
  }

  lemma {:induction false} ConcludedAt(rounds: seq<CompletedRound>, number: nat, state: nat, seen: seq<nat>, at: nat)
    requires at <= |rounds| && forall i :: 0 <= i < at ==> rounds[i].number != number
    ensures at == |rounds| ==>
              Concluded(rounds, number, state, seen) == rounds && ConcludedRecord(rounds, number, state, seen) == None
    ensures at < |rounds| && rounds[at].number == number ==>
              && Concluded(rounds, number, state, seen) == rounds[at := Extended(rounds[at], state, seen)]
              && ConcludedRecord(rounds, number, state, seen) == Some(Extended(rounds[at], state, seen))
  {
    if at > 0 {
      ConcludedAt(rounds[1..], number, state, seen, at - 1);
    }
  }

  method Conclude(rounds: seq<CompletedRound>, number: nat, state: nat, seen: seq<nat>)
    returns (updated: seq<CompletedRound>, record: Option<CompletedRound>)
    ensures updated == Concluded(rounds, number, state, seen) && record == ConcludedRecord(rounds, number, state, seen)
  {
    for i := 0 to |rounds|
      invariant forall j :: 0 <= j < i ==> rounds[j].number != number
    {
      if rounds[i].number == number {
        ConcludedAt(rounds, number, state, seen, i);
        var r := Extended(rounds[i], state, seen);
        return rounds[i := r], Some(r);
      }
    }
    ConcludedAt(rounds, number, state, seen, |rounds|);
    updated, record := rounds, None;
  }

  /** `votes` is the stored list with what was seen after as many votes as are stored. */
  ghost predicate Continues(votes: seq<nat>, stored: seq<nat>, seen: seq<nat>)
  {
    && |votes| == (if |stored| <= |seen| then |seen| else |stored|)
    && (forall i :: 0 <= i < |stored| ==> votes[i] == stored[i])
    && (forall i :: |stored| <= i < |votes| ==> votes[i] == seen[i])
  }

  /** When the stored votes are a prefix of the seen ones, the round ends with exactly those. */
  lemma ExtendedVotes(r: CompletedRound, state: nat, seen: seq<nat>)
    ensures Continues(Extended(r, state, seen).votes, r.votes, seen)
    ensures r.votes <= seen ==> Extended(r, state, seen).votes == seen
  {
  }

  /** Concluding changes one round only: it keeps its stored votes and gains those seen since,
      so when the stored votes are a prefix of the seen ones it ends with exactly these. The
      record written is the changed round, and none is written when the window has no such round. */
  lemma {:induction false} ConcludedRounds(rounds: seq<CompletedRound>, number: nat, state: nat, seen: seq<nat>)
    requires Descending(rounds)
    ensures var c := Concluded(rounds, number, state, seen);
            && |c| == |rounds| && Descending(c)
            && (forall i :: 0 <= i < |rounds| && rounds[i].number != number ==> c[i] == rounds[i])
            && (forall i :: 0 <= i < |rounds| && rounds[i].number == number ==>
                  c[i].number == number && c[i].state == state && c[i].base == rounds[i].base)
            && (forall i :: 0 <= i < |rounds| && rounds[i].number == number && rounds[i].votes <= seen ==> c[i].votes == seen)
    ensures var c, record := Concluded(rounds, number, state, seen), ConcludedRecord(rounds, number, state, seen);
            && (record.Some? <==> exists i :: 0 <= i < |rounds| && rounds[i].number == number)
            && (forall i :: 0 <= i < |rounds| && rounds[i].number == number ==>
                  record == Some(c[i]) && Continues(c[i].votes, rounds[i].votes, seen))
  {
    if at: nat :| at < |rounds| && rounds[at].number == number {
      ConcludedAt(rounds, number, state, seen, at);
      ExtendedVotes(rounds[at], state, seen);
    } else {
      ConcludedAt(rounds, number, state, seen, |rounds|);
    }
  }
}
