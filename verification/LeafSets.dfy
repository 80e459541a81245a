/** The in-memory set of chain heads, its pending database changes, and undo. */
module LeafSets {
  import opened Wrappers
  import opened ForkTree

  /** Leaves by block number; the source orders the map by descending number. */
  type Heights = map<nat, seq<Hash>>

  ghost predicate NoDuplicates(s: seq<Hash>)
  {
    forall i, j :: 0 <= i < j < |s| ==> s[i] != s[j]
  }

  /** `heights` stores exactly the leaves of `leaves`, each once, with no empty bucket. */
  ghost predicate Holds(heights: Heights, leaves: map<Hash, nat>)
  {
    && (forall n :: n in heights ==> heights[n] != [] && NoDuplicates(heights[n]))
    && (forall n, h :: n in heights && h in heights[n] ==> h in leaves && leaves[h] == n)
    && (forall h :: h in leaves ==> leaves[h] in heights && h in heights[leaves[h]])
  }

  datatype ImportDisplaced = ImportDisplaced(newHash: Hash, displaced: Hash, number: nat)

  // Database contents

  function Puts(disk: map<Hash, nat>, added: seq<(Hash, nat)>): map<Hash, nat>
    decreases |added|
  {
    if added == [] then disk else Puts(disk[added[0].0 := added[0].1], added[1..])
  }

  /** The stored leaves once pending additions and then pending removals are written. */
  function Flushed(disk: map<Hash, nat>, added: seq<(Hash, nat)>, removed: seq<Hash>): map<Hash, nat>
  {
    Puts(disk, added) - (set h | h in removed)
  }

  lemma {:induction false} PutsSnoc(disk: map<Hash, nat>, added: seq<(Hash, nat)>, e: (Hash, nat))
    ensures Puts(disk, added + [e]) == Puts(disk, added)[e.0 := e.1]
    decreases |added|
  {
    if added == [] {
      assert added + [e] == [e];
    } else {
      assert (added + [e])[1..] == added[1..] + [e];
      PutsSnoc(disk[added[0].0 := added[0].1], added[1..], e);
    }
  }

  /** Adding a leaf reaches the database exactly when its hash is not pending removal, since
      removals are written after additions. */
  lemma AdditionPersistsIff(disk: map<Hash, nat>, added: seq<(Hash, nat)>, removed: seq<Hash>, h: Hash, n: nat)
    ensures Flushed(disk, added + [(h, n)], removed) == Flushed(disk, added, removed)[h := n] <==> h !in removed
  {
    PutsSnoc(disk, added, (h, n));
    if h in removed {
      assert h !in Flushed(disk, added + [(h, n)], removed);
    }
  }

  lemma RemovalPersists(disk: map<Hash, nat>, added: seq<(Hash, nat)>, removed: seq<Hash>, more: seq<Hash>)
    ensures Flushed(disk, added, removed + more) == Flushed(disk, added, removed) - (set h | h in more)
  {
  }

  // Finalization and its undo

  /** The leaves a finalized height leaves in place, and those it displaces. */
  function AtOrAbove(heights: Heights, number: nat): Heights
  {
    map n | n in heights && n >= number :: heights[n]
  }

  function Below(heights: Heights, number: nat): Heights
  {
    map n | n in heights && n < number :: heights[n]
  }

  function FinalizeAll(heights: Heights, numbers: seq<nat>): Heights
    decreases |numbers|
  {
    if numbers == [] then heights else FinalizeAll(AtOrAbove(heights, numbers[0]), numbers[1..])
  }

  /** What a series of finalizations displaces, merged. */
  function DisplacedByAll(heights: Heights, numbers: seq<nat>): Heights
    decreases |numbers|
  {
    if numbers == [] then map[]
    else Below(heights, numbers[0]) + DisplacedByAll(AtOrAbove(heights, numbers[0]), numbers[1..])
  }

  /** Appending the merged displaced leaves restores the map, for any series of heights. */
  lemma {:induction false} UndoRestores(heights: Heights, numbers: seq<nat>)
    ensures FinalizeAll(heights, numbers) + DisplacedByAll(heights, numbers) == heights
    ensures FinalizeAll(heights, numbers).Keys !! DisplacedByAll(heights, numbers).Keys
    decreases |numbers|
  {
    if numbers != [] {
      UndoRestores(AtOrAbove(heights, numbers[0]), numbers[1..]);
    }
  }

  // Listing

  /** The leaves numbered below `n`, highest number first. */
  function ListBelow(heights: Heights, n: nat): seq<Hash>
  {
    if n == 0 then []
    else (if n - 1 in heights then heights[n - 1] else []) + ListBelow(heights, n - 1)
  }

  lemma {:induction false} ListBelowMembers(heights: Heights, leaves: map<Hash, nat>, n: nat, h: Hash)
    requires Holds(heights, leaves)
    ensures h in ListBelow(heights, n) <==> h in leaves && leaves[h] < n
  {
    if n > 0 {
      ListBelowMembers(heights, leaves, n - 1, h);
    }
  }

  /** Joining the leaves of one height and lower ones. */
  lemma JoinedLists(leaves: map<Hash, nat>, a: seq<Hash>, b: seq<Hash>, n: nat)
    requires NoDuplicates(a) && NoDuplicates(b)
    requires forall h :: h in a ==> h in leaves && leaves[h] == n
    requires forall h :: h in b ==> h in leaves && leaves[h] < n
    requires forall i, j :: 0 <= i < j < |b| ==> leaves[b[i]] >= leaves[b[j]]
    ensures NoDuplicates(a + b)
    ensures forall i, j :: 0 <= i < j < |a + b| ==> leaves[(a + b)[i]] >= leaves[(a + b)[j]]
  {
    forall i, j | 0 <= i < j < |a + b|
      ensures (a + b)[i] != (a + b)[j] && leaves[(a + b)[i]] >= leaves[(a + b)[j]]
    {
      if i < |a| <= j {
        assert a[i] in a && b[j - |a|] in b;
      } else if i < |a| {
        assert a[i] in a && a[j] in a;
      }
    }
  }

  lemma {:induction false} ListBelowContents(heights: Heights, leaves: map<Hash, nat>, n: nat)
    requires Holds(heights, leaves)
    ensures forall h :: h in ListBelow(heights, n) <==> h in leaves && leaves[h] < n
    ensures NoDuplicates(ListBelow(heights, n))
    ensures forall i, j :: 0 <= i < j < |ListBelow(heights, n)| ==>
              leaves[ListBelow(heights, n)[i]] >= leaves[ListBelow(heights, n)[j]]
  {
    forall h ensures h in ListBelow(heights, n) <==> h in leaves && leaves[h] < n {
      ListBelowMembers(heights, leaves, n, h);
    }
    if n > 0 {
      ListBelowContents(heights, leaves, n - 1);
      JoinedLists(leaves, if n - 1 in heights then heights[n - 1] else [], ListBelow(heights, n - 1), n - 1);
    }
  }

  method Bound(keys: set<nat>) returns (b: nat)
    ensures forall k :: k in keys ==> k < b
  {
    b := 0;
    var todo := keys;
    while todo != {}
      invariant todo <= keys && forall k :: k in keys && k !in todo ==> k < b
      decreases todo
    {
      var k :| k in todo;
      if k >= b {
        b := k + 1;
      }
      todo := todo - {k};
    }
  }

  /** Walks the map by descending number. */
  method Walk(heights: Heights) returns (r: seq<Hash>, ghost b: nat)
    ensures r == ListBelow(heights, b) && forall n :: n in heights ==> n < b
  {
    var n: nat := Bound(heights.Keys);
    b := n;
    r := [];
    while n > 0
      invariant n <= b && r + ListBelow(heights, n) == ListBelow(heights, b)
    {
      n := n - 1;
      if n in heights {
        r := r + heights[n];
      }
    }
  }

  /** Lists all leaves of the map by descending number. */
  method Flatten(heights: Heights, ghost leaves: map<Hash, nat>) returns (r: seq<Hash>)
    requires Holds(heights, leaves)
    ensures forall h :: h in r <==> h in leaves
    ensures NoDuplicates(r)
    ensures forall i, j :: 0 <= i < j < |r| ==> leaves[r[i]] >= leaves[r[j]]
  {
    ghost var b;
    r, b := Walk(heights);
    ListBelowContents(heights, leaves, b);
  }

  method Retain(s: seq<Hash>, hash: Hash) returns (r: seq<Hash>, found: bool)
    requires NoDuplicates(s)
    ensures NoDuplicates(r) && forall h :: h in r <==> h in s && h != hash
    ensures found <==> hash in s
  {
    r, found := [], false;
    for i := 0 to |s|
      invariant NoDuplicates(r) && forall h :: h in r <==> h in s[..i] && h != hash
      invariant found <==> hash in s[..i]
    {
      assert s[..i + 1] == s[..i] + [s[i]];
      if s[i] == hash {
        found := true;
      } else {
        assert s[i] !in s[..i];
        r := r + [s[i]];
      }
    }
    assert s[..|s|] == s;
  }

  function Inserted(heights: Heights, number: nat, hash: Hash): Heights
  {
    heights[number := (if number in heights then heights[number] else []) + [hash]]
  }

  lemma InsertedHolds(heights: Heights, leaves: map<Hash, nat>, number: nat, hash: Hash)
    requires Holds(heights, leaves) && hash !in leaves
    ensures Holds(Inserted(heights, number, hash), leaves[hash := number])
  {
    if number in heights {
      assert hash !in heights[number];
    }
  }

  lemma InsertedTwice(heights: Heights, leaves: map<Hash, nat>, number: nat, hash: Hash)
    requires Holds(heights, leaves) && hash in leaves
    ensures !Holds(Inserted(heights, number, hash), leaves[hash := number])
  {
    var m, after := leaves[hash], Inserted(heights, number, hash);
    if m == number {
      var i :| 0 <= i < |heights[m]| && heights[m][i] == hash;
      assert after[m][i] == after[m][|heights[m]|] == hash;
      assert !NoDuplicates(after[m]);
    } else {
      assert m in after && hash in after[m];
      assert leaves[hash := number][hash] != m;
    }
  }

  lemma RemovedHolds(heights: Heights, leaves: map<Hash, nat>, number: nat, hash: Hash, bucket: seq<Hash>)
    requires Holds(heights, leaves) && number in heights && hash in heights[number]
    requires NoDuplicates(bucket) && forall h :: h in bucket <==> h in heights[number] && h != hash
    ensures Holds(if bucket == [] then heights - {number} else heights[number := bucket], leaves - {hash})
  {
    var after := if bucket == [] then heights - {number} else heights[number := bucket];
    forall h | h in leaves - {hash} ensures leaves[h] in after && h in after[leaves[h]] {
      if leaves[h] == number {
        assert h in bucket;
      }
    }
    forall n, h | n in after && h in after[n] ensures h in leaves - {hash} && leaves[h] == n {
      if n == number {
        assert h in bucket;
      } else {
        assert n in heights && h in heights[n] && leaves[hash] == number;
      }
    }
  }

  /** Rebuilds the map from stored hash-number pairs met in any order. */
  method Rebuild(disk: map<Hash, nat>) returns (heights: Heights)
    ensures Holds(heights, disk)
  {
    heights := map[];
    var todo := disk.Keys;
    while todo != {}
      invariant todo <= disk.Keys && Holds(heights, Outside(disk, todo))
      decreases todo
    {
      var h :| h in todo;
      InsertedHolds(heights, Outside(disk, todo), disk[h], h);
      OutsideGrows(disk, todo, h);
      heights := Inserted(heights, disk[h], h);
      todo := todo - {h};
    }
    assert Outside(disk, {}) == disk;
  }

  function Outside(m: map<Hash, nat>, hidden: set<Hash>): map<Hash, nat>
  {
    m - hidden
  }

  lemma OutsideGrows(m: map<Hash, nat>, hidden: set<Hash>, h: Hash)
    requires h in m && h in hidden
    ensures Outside(m, hidden)[h := m[h]] == Outside(m, hidden - {h})
  {
  }

  function LeavesBelow(leaves: map<Hash, nat>, number: nat): map<Hash, nat>
  {
    map h | h in leaves && leaves[h] < number :: leaves[h]
  }

  function LeavesFrom(leaves: map<Hash, nat>, number: nat): map<Hash, nat>
  {
    map h | h in leaves && leaves[h] >= number :: leaves[h]
  }

  lemma SplitHolds(heights: Heights, leaves: map<Hash, nat>, number: nat)
    requires Holds(heights, leaves)
    ensures Holds(AtOrAbove(heights, number), LeavesFrom(leaves, number))
    ensures Holds(Below(heights, number), LeavesBelow(leaves, number))
  {
  }

  /** Splits the map at a finalized number and lists what is displaced. */
  method SplitOff(heights: Heights, number: nat, ghost leaves: map<Hash, nat>)
    returns (kept: Heights, displaced: Heights, hashes: seq<Hash>)
    requires Holds(heights, leaves) && number > 0
    ensures kept == AtOrAbove(heights, number) && displaced == Below(heights, number)
    ensures Holds(kept, LeavesFrom(leaves, number))
    ensures forall h :: h in hashes <==> h in leaves && leaves[h] < number
  {
    SplitHolds(heights, leaves, number);
    var boundary := number - 1;
    displaced := map n | n in heights && n <= boundary :: heights[n];
    kept := map n | n in heights && n > boundary :: heights[n];
    hashes := Flatten(displaced, LeavesBelow(leaves, number));
  }

  method WritePuts(disk: map<Hash, nat>, added: seq<(Hash, nat)>) returns (written: map<Hash, nat>)
    ensures written == Puts(disk, added)
  {
    written := disk;
    for i := 0 to |added|
      invariant written == Puts(disk, added[..i])
    {
      assert added[..i + 1] == added[..i] + [added[i]];
      PutsSnoc(disk, added[..i], added[i]);
      written := written[added[i].0 := added[i].1];
    }
    assert added[..|added|] == added;
  }

  method WriteDeletes(disk: map<Hash, nat>, removed: seq<Hash>) returns (written: map<Hash, nat>)
    ensures written == disk - (set h | h in removed)
  {
    written := disk;
    for i := 0 to |removed|
      invariant written == disk - (set h | h in removed[..i])
    {
      assert removed[..i + 1] == removed[..i] + [removed[i]];
      written := written - {removed[i]};
    }
    assert removed[..|removed|] == removed;
  }

  class LeafSet {
    var storage: Heights
    var pendingAdded: seq<(Hash, nat)>
    var pendingRemoved: seq<Hash>
    ghost var leaves: map<Hash, nat>

    ghost predicate Valid()
      reads this
    {
      Holds(storage, leaves)
    }

    /** Writing the pending changes to `disk` would store exactly the leaves held. */
    ghost predicate Persists(disk: map<Hash, nat>)
      reads this
    {
      Flushed(disk, pendingAdded, pendingRemoved) == leaves
    }

    constructor ()
      ensures Valid() && leaves == map[] && pendingAdded == [] && pendingRemoved == []
    {
      storage, pendingAdded, pendingRemoved, leaves := map[], [], [], map[];
    }

    constructor ReadFromDb(disk: map<Hash, nat>)
      ensures Valid() && leaves == disk && pendingAdded == [] && pendingRemoved == []
      ensures Persists(disk)
    {
      var heights := Rebuild(disk);
      storage, pendingAdded, pendingRemoved, leaves := heights, [], [], disk;
    }

    /** A hash held already would be listed twice. */
    method InsertLeaf(number: nat, hash: Hash)
      requires Valid()
      modifies this`storage, this`leaves
      ensures leaves == old(leaves)[hash := number] && storage == Inserted(old(storage), number, hash)
      ensures Valid() <==> hash !in old(leaves)
    {
      if hash !in leaves {
        InsertedHolds(storage, leaves, number, hash);
      } else {
        InsertedTwice(storage, leaves, number, hash);
      }
      storage := Inserted(storage, number, hash);
      leaves := leaves[hash := number];
    }

    method RemoveLeaf(number: nat, hash: Hash) returns (removed: bool)
      requires Valid()
      modifies this`storage, this`leaves
      ensures Valid()
      ensures removed <==> hash in old(leaves) && old(leaves)[hash] == number
      ensures leaves == if removed then old(leaves) - {hash} else old(leaves)
    {
      if number !in storage {
        return false;
      }
      var bucket, found := Retain(storage[number], hash);
      removed := found;
      if removed {
        RemovedHolds(storage, leaves, number, hash, bucket);
        if bucket == [] {
          storage := storage - {number};
        } else {
          storage := storage[number := bucket];
        }
        leaves := leaves - {hash};
      }
    }

    /** Adds a block and removes its parent if it was a leaf. */
    method Import(hash: Hash, number: nat, parent: Hash, ghost disk: map<Hash, nat>)
      returns (displaced: Option<ImportDisplaced>)
      requires Valid()
      modifies this
      ensures Valid() <==> hash !in old(leaves) || (displaced.Some? && hash == parent)
      ensures displaced.Some? <==> number > 0 && parent in old(leaves) && old(leaves)[parent] == number - 1
      ensures displaced.Some? ==> displaced.value == ImportDisplaced(hash, parent, number - 1)
      ensures leaves == (if displaced.Some? then old(leaves) - {parent} else old(leaves))[hash := number]
      ensures pendingAdded == old(pendingAdded) + [(hash, number)]
      ensures pendingRemoved == old(pendingRemoved) + if displaced.Some? then [parent] else []
      ensures old(Persists(disk)) ==> (Persists(disk) <==> hash !in pendingRemoved)
    {
      displaced := DisplaceParent(hash, number, parent, disk);
      AdditionPersistsIff(disk, pendingAdded, pendingRemoved, hash, number);
      InsertLeaf(number, hash);
      pendingAdded := pendingAdded + [(hash, number)];
    }

    /** Removes the parent if it was a leaf. */
    method DisplaceParent(hash: Hash, number: nat, parent: Hash, ghost disk: map<Hash, nat>)
      returns (displaced: Option<ImportDisplaced>)
      requires Valid()
      modifies this`storage, this`leaves, this`pendingRemoved
      ensures Valid()
      ensures displaced.Some? <==> number > 0 && parent in old(leaves) && old(leaves)[parent] == number - 1
      ensures displaced.Some? ==> displaced.value == ImportDisplaced(hash, parent, number - 1)
      ensures leaves == if displaced.Some? then old(leaves) - {parent} else old(leaves)
      ensures pendingRemoved == old(pendingRemoved) + if displaced.Some? then [parent] else []
      ensures old(Persists(disk)) ==> Persists(disk)
    {
      displaced := None;
      if number != 0 {
        var was := RemoveLeaf(number - 1, parent);
        if was {
          RemovalPersists(disk, pendingAdded, pendingRemoved, [parent]);
          pendingRemoved := pendingRemoved + [parent];
          displaced := Some(ImportDisplaced(hash, parent, number - 1));
        }
      }
    }

    /** Displaces every leaf below the finalized number. */
    method FinalizeHeight(number: nat, ghost disk: map<Hash, nat>) returns (displaced: Heights)
      requires Valid()
      modifies this
      ensures Valid()
      ensures leaves == LeavesFrom(old(leaves), number)
      ensures storage == AtOrAbove(old(storage), number) && displaced == Below(old(storage), number)
      ensures pendingAdded == old(pendingAdded)
      ensures forall h :: h in pendingRemoved <==> h in old(pendingRemoved) || (h in old(leaves) && old(leaves)[h] < number)
      ensures old(Persists(disk)) ==> Persists(disk)
    {
      if number == 0 {
        assert AtOrAbove(storage, 0) == storage && LeavesFrom(leaves, 0) == leaves;
        return map[];
      }
      var kept, gone, hashes := SplitOff(storage, number, leaves);
      RemovalPersists(disk, pendingAdded, pendingRemoved, hashes);
      assert leaves - (set h | h in hashes) == LeavesFrom(leaves, number);
      storage, leaves := kept, LeavesFrom(leaves, number);
      pendingRemoved := pendingRemoved + hashes;
      displaced := gone;
    }

    /** Undoes finalizations of the heights `numbers`, given everything they displaced: the set
        is what it was before them, and nothing stays pending, so that it is what the database
        holds exactly when the database was written before them. */
    method UndoFinalization(displaced: Heights, ghost heights: Heights, ghost before: map<Hash, nat>,
                            ghost numbers: seq<nat>, ghost disk: map<Hash, nat>)
      requires Holds(heights, before)
      requires storage == FinalizeAll(heights, numbers) && displaced == DisplacedByAll(heights, numbers)
      modifies this
      ensures Valid() && storage == heights && leaves == before
      ensures pendingAdded == [] && pendingRemoved == []
      ensures Persists(disk) <==> disk == before
    {
      UndoRestores(heights, numbers);
      storage := storage + displaced;
      leaves := before;
      pendingAdded, pendingRemoved := [], [];
      assert disk - (set h | h in pendingRemoved) == disk;
    }

    method Hashes() returns (r: seq<Hash>)
      requires Valid()
      ensures forall h :: h in r <==> h in leaves
      ensures NoDuplicates(r)
      ensures forall i, j :: 0 <= i < j < |r| ==> leaves[r[i]] >= leaves[r[j]]
    {
      r := Flatten(storage, leaves);
    }

    /** Writes the pending changes, additions first, and returns the new database contents. */
    method PrepareTransaction(disk: map<Hash, nat>) returns (written: map<Hash, nat>)
      requires Valid()
      modifies this`pendingAdded, this`pendingRemoved
      ensures written == Flushed(disk, old(pendingAdded), old(pendingRemoved))
      ensures old(Persists(disk)) ==> written == leaves && Persists(written)
      ensures pendingAdded == [] && pendingRemoved == []
    {
      written := WritePuts(disk, pendingAdded);
      written := WriteDeletes(written, pendingRemoved);
      pendingAdded, pendingRemoved := [], [];
    }
  }

  /** A leaf that finalization displaces and an import adds again before the next write: it is
      in memory, and on disk before, but lost from the disk by the write. */
  method ReAddedLeafIsLost(h: Hash, n: nat, parent: Hash) returns (set_: LeafSet, written: map<Hash, nat>)
    ensures fresh(set_) && set_.Valid() && set_.leaves == map[h := n] && written == map[]
  {
    var disk := map[h := n];
    set_ := new LeafSet.ReadFromDb(disk);
    var displaced := set_.FinalizeHeight(n + 1, disk);
    assert set_.leaves == map[] && h in set_.pendingRemoved;
    var imported := set_.Import(h, n, parent, disk);
    ghost var added, removed := set_.pendingAdded, set_.pendingRemoved;
    written := set_.PrepareTransaction(disk);
    assert added == [(h, n)] && h in removed;
    assert added[1..] == [];
    assert Puts(disk, added) == map[h := n];
  }
}
