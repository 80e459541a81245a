/** The light client's header database.  Once a canonical hash trie has been built for a
    range of finalized headers, the headers themselves are pruned; the trie root stands in
    for them.  A root is identified with the list of pairs it commits to.  Tries are built and
    headers pruned through the number index, that is, along the best chain, whatever the
    finalized chain is. */
module LightStorage {
  import opened Wrappers
  import opened ForkTree
  import opened ChainIndex
  import opened Cht
  import ChainDb
  import TreeRoutes

  datatype Error = UnknownBlock(hash: Hash) | NonSequentialFinalization | MissingChtEntry(number: nat) | NoCht

  datatype LeafState = Normal | Best | Final

  /** How many tries exist once block `f` is finalized: one is built at the first block of
      the second range after its own. */
  function Built(f: nat): nat
  {
    if f == 0 || (f - 1) / SIZE == 0 then 0 else (f - 1) / SIZE - 1
  }

  /** The highest pruned number. */
  function PrunedTo(f: nat): nat
  {
    Built(f) * SIZE
  }

  /** The numbers from which a built trie's range starts. */
  predicate TrieStart(f: nat, n: nat)
  {
    1 <= n <= PrunedTo(f) && (n - 1) % SIZE == 0
  }

  lemma PrunedBelow(f: nat)
    ensures Built(f) > 0 ==> PrunedTo(f) + SIZE < f
    ensures PrunedTo(f) <= f
  {
  }

  /** The tries that exist are exactly those built two ranges later, at or before `f`. */
  lemma TrieExistsIff(f: nat, c: nat)
    ensures TrieStart(f, StartNumber(SIZE, c)) <==> (c + 2) * 2048 + 1 <= f
  {
  }

  lemma TrieStartRange(f: nat, n: nat)
    requires TrieStart(f, n)
    ensures n + SIZE - 1 <= PrunedTo(f) && n + 2 * SIZE <= f
  {
    PrunedBelow(f);
  }

  /** Finalizing one more block builds the next trie or none. */
  lemma BuiltStep(n: nat)
    requires n > 0
    ensures match IsBuildRequired(SIZE, n)
            case None => Built(n) == Built(n - 1)
            case Some(c) => Built(n - 1) == c && Built(n) == c + 1 && StartNumber(SIZE, c) == PrunedTo(n - 1) + 1
                            && n == StartNumber(SIZE, c) + 2 * SIZE
  {
  }

  /** The pairs the trie starting at `start` commits to on `b`'s chain. */
  ghost function Range(b: Block, start: nat): seq<(nat, Block)>
    requires start + SIZE <= b.number + 1
  {
    seq(SIZE, (i: nat) requires i < SIZE => ((start + i) as nat, AncestorAt(b, start + i)))
  }

  /** Every trie built by the time `b` is finalized. */
  ghost function Tries(b: Block): map<nat, seq<(nat, Block)>>
  {
    map n | 1 <= n <= PrunedTo(b.number) && TrieStart(b.number, n) :: TrieStartRange(b.number, n); Range(b, n)
  }

  predicate Rooted(b: Block)
  {
    b.content.changesTrieRoot.Some?
  }

  /** `pairs` lists the changes trie roots of a range of `b`'s chain. */
  ghost predicate ListsRoots(pairs: seq<(nat, nat)>, b: Block, start: nat)
    requires start + SIZE <= b.number + 1
  {
    && |pairs| == SIZE
    && forall i :: 0 <= i < SIZE ==>
         pairs[i].0 == start + i && AncestorAt(b, start + i).content.changesTrieRoot == Some(pairs[i].1)
  }

  /** A changes trie root was stored for exactly the ranges whose trigger block has a root. */
  ghost predicate ChangesExact(changes: map<nat, seq<(nat, nat)>>, b: Block)
  {
    && (forall n: nat :: n in changes ==> TrieStart(b.number, n))
    && (forall n: nat :: TrieStart(b.number, n) ==> RootsAt(changes, b, n))
  }

  ghost predicate RootsAt(changes: map<nat, seq<(nat, nat)>>, b: Block, n: nat)
  {
    && n + 2 * SIZE <= b.number
    && (n in changes <==> Rooted(AncestorAt(b, n + 2 * SIZE)))
    && (n in changes ==> ListsRoots(changes[n], b, n))
  }

  /** `b` has been replaced by a trie. */
  predicate IsPruned(b: Block, finalized: Block)
  {
    1 <= b.number <= PrunedTo(finalized.number) && OnChain(b, finalized)
  }

  ghost function Kept(all: set<Block>, finalized: Block): set<Block>
  {
    set b | b in all && !IsPruned(b, finalized)
  }

  /** `best`'s chain without the numbers from one to `pruned`. */
  function IndexWithout(best: Block, pruned: nat): map<nat, Block>
  {
    map n | 0 <= n <= best.number && !(1 <= n <= pruned) :: AncestorAt(best, n)
  }

  function Index(best: Block, f: nat): map<nat, Block>
  {
    IndexWithout(best, PrunedTo(f))
  }

  // Changing the head

  /** Cutting the index at the common block leaves the index of the common block. */
  lemma CutIndex(best: Block, pruned: nat, routeTo: Block)
    requires pruned <= Common(best, routeTo).number
    ensures var c := Common(best, routeTo);
            Cut(IndexWithout(best, pruned), c.number, best.number) == IndexWithout(c, pruned)
  {
    forall n | 0 <= n <= Common(best, routeTo).number
      ensures AncestorAt(best, n) == AncestorAt(Common(best, routeTo), n)
    {
      AncestorOfAncestor(best, Common(best, routeTo).number, n);
    }
  }

  lemma ExtendIndex(c: Block, pruned: nat, routeTo: Block)
    requires pruned <= c.number && OnChain(c, routeTo)
    ensures IndexWithout(c, pruned) + Segment(routeTo, c.number) == IndexWithout(routeTo, pruned)
  {
    forall n | 0 <= n <= c.number ensures AncestorAt(routeTo, n) == AncestorAt(c, n) {
      AncestorOfAncestor(routeTo, c.number, n);
    }
  }

  lemma HeadKeepsIndex(best: Block, pruned: nat, routeTo: Block, to: Block)
    requires pruned <= Common(best, routeTo).number && (pruned == 0 || pruned < to.number)
    requires to == routeTo || (to.number > 0 && to.parent == routeTo)
    ensures Apply(IndexWithout(best, pruned), HeadOps(best, routeTo, to)) == IndexWithout(to, pruned)
  {
    HeadOpsEffect(IndexWithout(best, pruned), best, routeTo, to);
    CutIndex(best, pruned, routeTo);
    ExtendIndex(Common(best, routeTo), pruned, routeTo);
    TopOfIndex(pruned, routeTo, to);
  }

  lemma TopOfIndex(pruned: nat, routeTo: Block, to: Block)
    requires pruned == 0 || pruned < to.number
    requires to == routeTo || (to.number > 0 && to.parent == routeTo)
    ensures IndexWithout(routeTo, pruned)[to.number := to] == IndexWithout(to, pruned)
  {
    forall n | 0 <= n <= routeTo.number ensures AncestorAt(to, n) == AncestorAt(routeTo, n) {
    }
  }

  /** Whichever known block becomes best, the index lists its chain without the pruned numbers
      exactly when that chain shares them, or when the block is the genesis block. */
  lemma SetHeadIndexIff(best: Block, finalized: Block, to: Block)
    requires PrunedTo(finalized.number) <= Common(best, finalized).number && !IsPruned(to, finalized)
    ensures Apply(Index(best, finalized.number), HeadOps(best, to, to)) == Index(to, finalized.number) <==>
            to == GENESIS || Shares(to, finalized)
  {
    var p, c := PrunedTo(finalized.number), Common(best, to).number;
    SharesThrough(best, finalized, to);
    HeadOpsEffect(Index(best, finalized.number), best, to, to);
    if p <= c {
      PrunedBelow(finalized.number);
      if 0 < p && to.number <= p {
        AgreeIff(best, finalized, p);
        AgreeIff(best, to, p);
      }
      HeadKeepsIndex(best, p, to, to);
    } else {
      UnsharedHead(best, finalized, to);
    }
  }

  /** The pruned numbers are shared with the finalized chain. */
  predicate Shares(b: Block, finalized: Block)
  {
    PrunedTo(finalized.number) <= Common(b, finalized).number
  }

  lemma SharesThrough(best: Block, finalized: Block, b: Block)
    requires Shares(best, finalized)
    ensures Shares(b, finalized) <==> PrunedTo(finalized.number) <= Common(best, b).number
  {
    var p := PrunedTo(finalized.number);
    PrunedBelow(finalized.number);
    if p <= b.number {
      AgreeIff(best, finalized, p);
      AgreeIff(b, finalized, p);
      AgreeIff(best, b, p);
    }
  }

  lemma UnsharedHead(best: Block, finalized: Block, to: Block)
    requires Shares(best, finalized) && Common(best, to).number < PrunedTo(finalized.number) && !IsPruned(to, finalized)
    ensures var m := Apply(Index(best, finalized.number), HeadOps(best, to, to));
            m == Index(to, finalized.number) <==> to == GENESIS
  {
    var f, c := finalized.number, Common(best, to).number;
    var m := Apply(Index(best, f), HeadOps(best, to, to));
    HeadOpsEffect(Index(best, f), best, to, to);
    if c < to.number {
      assert c + 1 in m && c + 1 !in Index(to, f);
    } else {
      AgreeIff(best, to, c);
      AgreeIff(best, finalized, c);
      assert OnChain(to, finalized);
      assert m == map[0 := GENESIS] == Index(to, f);
    }
  }

  /** A new child as best keeps the index exact exactly when its parent shares the pruned
      numbers. */
  lemma ImportIndexIff(best: Block, finalized: Block, header: Block)
    requires Shares(best, finalized) && header.number > 0
    ensures Apply(Index(best, finalized.number), HeadOps(best, header.parent, header)) == Index(header, finalized.number) <==>
            Shares(header.parent, finalized)
  {
    var p, c := PrunedTo(finalized.number), Common(best, header.parent).number;
    SharesThrough(best, finalized, header.parent);
    HeadOpsEffect(Index(best, finalized.number), best, header.parent, header);
    if p <= c {
      HeadKeepsIndex(best, p, header.parent, header);
    } else {
      var m := Apply(Index(best, finalized.number), HeadOps(best, header.parent, header));
      assert c + 1 in m && c + 1 !in Index(header, finalized.number);
    }
  }

  // Finalizing

  lemma RangeOfParent(b: Block, start: nat)
    requires start + SIZE <= b.number
    ensures Range(b, start) == Range(b.parent, start)
  {
    forall i: nat | i < SIZE ensures Range(b, start)[i] == Range(b.parent, start)[i] {
      assert AncestorAt(b, start + i) == AncestorAt(b.parent, start + i);
    }
  }

  lemma FinalizeKeepsTries(finalized: Block, header: Block)
    requires header.number > 0 && header.parent == finalized
    ensures match IsBuildRequired(SIZE, header.number)
            case None => Tries(header) == Tries(finalized)
            case Some(c) =>
              && StartNumber(SIZE, c) + SIZE <= finalized.number
              && Tries(header) == Tries(finalized)[StartNumber(SIZE, c) := Range(finalized, StartNumber(SIZE, c))]
  {
    BuiltStep(header.number);
    PrunedBelow(header.number);
    forall n: nat | n + SIZE <= finalized.number ensures Range(header, n) == Range(finalized, n) {
      RangeOfParent(header, n);
    }
    forall n: nat | TrieStart(header.number, n) ensures n + 2 * SIZE <= header.number {
      TrieStartRange(header.number, n);
    }
    forall n: nat | TrieStart(finalized.number, n) ensures n + 2 * SIZE <= finalized.number {
      TrieStartRange(finalized.number, n);
    }
  }

  lemma ListsRootsOfParent(pairs: seq<(nat, nat)>, b: Block, start: nat)
    requires start + SIZE <= b.number
    ensures ListsRoots(pairs, b, start) <==> ListsRoots(pairs, b.parent, start)
  {
    forall k: nat | start <= k < start + SIZE ensures AncestorAt(b, k) == AncestorAt(b.parent, k) {
    }
  }

  ghost predicate AllRooted(b: Block, start: nat)
    requires start + SIZE <= b.number + 1
  {
    forall n: nat :: start <= n < start + SIZE ==> Rooted(AncestorAt(b, n))
  }

  /** What finalizing a block writes besides the marker. */
  datatype Replacement =
    Replacement(start: nat, root: seq<(nat, Block)>, changesRoot: Option<seq<(nat, nat)>>, gone: set<Block>)

  /** The blocks of one range of `b`'s chain. */
  ghost function BlocksIn(b: Block, start: nat): set<Block>
    requires start + SIZE <= b.number + 1
  {
    set n | start <= n < start + SIZE :: AncestorAt(b, n)
  }

  ghost function RootPairs(b: Block, start: nat): seq<(nat, nat)>
    requires start + SIZE <= b.number + 1 && AllRooted(b, start)
  {
    seq(SIZE, (i: nat) requires i < SIZE => ((start + i) as nat, AncestorAt(b, start + i).content.changesTrieRoot.value))
  }

  /** `b`'s chain covers the range of the trie due, with changes trie roots if `header` asks for
      them. */
  ghost predicate Ready(b: Block, header: Block)
  {
    match IsBuildRequired(SIZE, header.number)
    case None => true
    case Some(c) => EndNumber(SIZE, c) <= b.number && (Rooted(header) ==> AllRooted(b, StartNumber(SIZE, c)))
  }

  /** The trie due when `header` is finalized, built along `b`'s chain. */
  ghost function Replacing(b: Block, header: Block): Option<Replacement>
    requires Ready(b, header)
  {
    match IsBuildRequired(SIZE, header.number)
    case None => None
    case Some(c) =>
      var start := StartNumber(SIZE, c);
      Some(Replacement(start, Range(b, start), if Rooted(header) then Some(RootPairs(b, start)) else None, BlocksIn(b, start)))
  }

  /** The trie due ends no higher than the block where `b`'s chain leaves `header`'s. */
  predicate Below(b: Block, header: Block)
  {
    match IsBuildRequired(SIZE, header.number)
    case None => true
    case Some(c) => EndNumber(SIZE, c) <= Common(b, header).number
  }

  function Gone(rep: Option<Replacement>): set<Block>
  {
    if rep.None? then {} else rep.value.gone
  }

  function Numbers(s: set<Block>): set<nat>
  {
    set b | b in s :: b.number
  }

  function AddTrie(chts: map<nat, seq<(nat, Block)>>, rep: Option<Replacement>): map<nat, seq<(nat, Block)>>
  {
    if rep.None? then chts else chts[rep.value.start := rep.value.root]
  }

  function AddRoots(changes: map<nat, seq<(nat, nat)>>, rep: Option<Replacement>): map<nat, seq<(nat, nat)>>
  {
    if rep.None? || rep.value.changesRoot.None? then changes else changes[rep.value.start := rep.value.changesRoot.value]
  }

  /** On the best chain itself finality is always safe, and refused only for a missing changes
      trie root. */
  lemma OwnChainIsBelow(best: Block, header: Block)
    requires OnChain(header, best)
    ensures Below(best, header)
    ensures match IsBuildRequired(SIZE, header.number)
            case None => Ready(best, header)
            case Some(c) =>
              && EndNumber(SIZE, c) <= best.number
              && (Ready(best, header) <==> (Rooted(header) ==> AllRooted(best, StartNumber(SIZE, c))))
  {
    OneChainMeets(best, header);
    if header.number > 0 {
      BuiltStep(header.number);
    }
  }

  lemma SameRange(a: Block, b: Block, start: nat)
    requires start + SIZE <= Common(a, b).number + 1
    ensures Range(a, start) == Range(b, start) && BlocksIn(a, start) == BlocksIn(b, start)
    ensures AllRooted(a, start) <==> AllRooted(b, start)
    ensures AllRooted(a, start) ==> RootPairs(a, start) == RootPairs(b, start)
  {
    forall n: nat | start <= n < start + SIZE ensures AncestorAt(a, n) == AncestorAt(b, n) {
      CommonPrefix(a, b, n);
    }
    assert Range(a, start) == Range(b, start);
  }

  /** A trie built along a chain that covers its range equals the finalized chain's trie exactly
      when it ends below the fork. */
  lemma RangeAgreesIff(b: Block, header: Block, start: nat)
    requires start + SIZE <= b.number + 1 && start + SIZE <= header.number + 1
    ensures Range(b, start) == Range(header, start) <==> start + SIZE - 1 <= Common(b, header).number
  {
    var end := start + SIZE - 1;
    AgreeIff(b, header, end);
    if end <= Common(b, header).number {
      SameRange(b, header, start);
    } else {
      assert Range(b, start)[SIZE - 1] == (end, AncestorAt(b, end));
      assert Range(header, start)[SIZE - 1] == (end, AncestorAt(header, end));
    }
  }

  lemma PrunedAfterFinality(finalized: Block, header: Block, b: Block)
    requires header.number > 0 && header.parent == finalized && Ready(finalized, header)
    ensures IsPruned(b, header) <==> IsPruned(b, finalized) || b in Gone(Replacing(finalized, header))
  {
    BuiltStep(header.number);
    PrunedBelow(header.number);
    if b.number <= finalized.number {
      assert OnChain(b, header) == OnChain(b, finalized);
    }
  }

  lemma KeptAfterFinality(all: set<Block>, finalized: Block, header: Block)
    requires header.number > 0 && header.parent == finalized && Ready(finalized, header)
    ensures Kept(all, header) == Kept(all, finalized) - Gone(Replacing(finalized, header))
  {
    forall b: Block | b in all
      ensures IsPruned(b, header) <==> IsPruned(b, finalized) || b in Gone(Replacing(finalized, header))
    {
      PrunedAfterFinality(finalized, header, b);
    }
  }

  lemma IndexAfterFinality(best: Block, finalized: Block, header: Block)
    requires header.number > 0 && header.parent == finalized && Ready(finalized, header)
    ensures Index(best, header.number) == Index(best, finalized.number) - Numbers(Gone(Replacing(finalized, header)))
  {
    BuiltStep(header.number);
    var gone := Gone(Replacing(finalized, header));
    forall n: nat ensures n in Numbers(gone) <==> PrunedTo(finalized.number) < n <= PrunedTo(header.number) {
      if PrunedTo(finalized.number) < n <= PrunedTo(header.number) {
        assert AncestorAt(finalized, n) in gone;
      }
    }
  }

  lemma TriesAfterFinality(finalized: Block, header: Block)
    requires header.number > 0 && header.parent == finalized && Ready(finalized, header)
    ensures AddTrie(Tries(finalized), Replacing(finalized, header)) == Tries(header)
  {
    FinalizeKeepsTries(finalized, header);
  }

  lemma RootsOfParent(changes: map<nat, seq<(nat, nat)>>, b: Block, n: nat)
    requires b.number > 0 && n + 2 * SIZE < b.number
    ensures RootsAt(changes, b, n) <==> RootsAt(changes, b.parent, n)
  {
    assert AncestorAt(b, n + 2 * SIZE) == AncestorAt(b.parent, n + 2 * SIZE);
    if n in changes {
      ListsRootsOfParent(changes[n], b, n);
    }
  }

  lemma RootPairsList(b: Block, start: nat)
    requires start + SIZE <= b.number + 1 && AllRooted(b, start)
    ensures ListsRoots(RootPairs(b, start), b, start)
  {
    forall i | 0 <= i < SIZE
      ensures RootPairs(b, start)[i].0 == start + i
      ensures AncestorAt(b, start + i).content.changesTrieRoot == Some(RootPairs(b, start)[i].1)
    {
      var n: nat := start + i;
      assert Rooted(AncestorAt(b, n));
    }
  }

  /** The entry of the trie just built. */
  lemma NewRoots(changes: map<nat, seq<(nat, nat)>>, finalized: Block, header: Block, n: nat)
    requires header.number > 0 && header.parent == finalized && Ready(finalized, header)
    requires IsBuildRequired(SIZE, header.number).Some? && n == Replacing(finalized, header).value.start && n !in changes
    ensures RootsAt(AddRoots(changes, Replacing(finalized, header)), header, n)
  {
    BuiltStep(header.number);
    var changes' := AddRoots(changes, Replacing(finalized, header));
    assert AncestorAt(header, n + 2 * SIZE) == header;
    if Rooted(header) {
      RootPairsList(finalized, n);
      assert changes'[n] == RootPairs(finalized, n);
      ListsRootsOfParent(changes'[n], header, n);
    } else {
      assert changes' == changes;
    }
  }

  lemma ChangesAfterFinality(changes: map<nat, seq<(nat, nat)>>, finalized: Block, header: Block)
    requires header.number > 0 && header.parent == finalized && Ready(finalized, header) && ChangesExact(changes, finalized)
    ensures ChangesExact(AddRoots(changes, Replacing(finalized, header)), header)
  {
    BuiltStep(header.number);
    var changes' := AddRoots(changes, Replacing(finalized, header));
    forall n: nat | TrieStart(header.number, n) ensures RootsAt(changes', header, n) {
      if TrieStart(finalized.number, n) {
        TrieStartRange(finalized.number, n);
        RootsOfParent(changes, header, n);
        assert RootsAt(changes, header, n);
        assert n in changes' <==> n in changes;
      } else {
        NewRoots(changes, finalized, header, n);
      }
    }
  }

  /** Below the fork the best chain and the finalized chain give the same trie. */
  lemma ReplacingAgrees(along: Block, finalized: Block, header: Block)
    requires header.number > 0 && header.parent == finalized && Ready(along, header) && Below(along, header)
    ensures Ready(finalized, header) && Replacing(along, header) == Replacing(finalized, header)
  {
    BuiltStep(header.number);
    var due := IsBuildRequired(SIZE, header.number);
    if due.Some? {
      AgreeIff(along, header, EndNumber(SIZE, due.value));
      AgreeIff(along, finalized, EndNumber(SIZE, due.value));
      SameRange(along, finalized, StartNumber(SIZE, due.value));
    }
  }

  // Building along the index

  /** The number index followed through to the header column. */
  function Found(headers: set<Block>, numbers: map<nat, Block>): map<nat, Block>
  {
    map n | n in numbers && numbers[n] in headers :: numbers[n]
  }

  function RootsOf(found: map<nat, Block>): map<nat, nat>
  {
    map n | n in found && Rooted(found[n]) :: found[n].content.changesTrieRoot.value
  }

  method CollectGone(found: map<nat, Block>, start: nat, end: nat) returns (gone: set<Block>)
    ensures gone == set n | start <= n <= end && n in found :: found[n]
  {
    gone := {};
    var n := start;
    while n <= end
      invariant start <= n
      invariant gone == set k | start <= k < n && k <= end && k in found :: found[k]
    {
      if n in found {
        gone := gone + {found[n]};
      }
      n := n + 1;
    }
  }

  /** Over one range, `found` holds `b`'s chain as far as it goes. */
  ghost predicate Along(found: map<nat, Block>, b: Block, start: nat)
  {
    forall n: nat :: start <= n < start + SIZE ==> (n in found <==> n <= b.number) && (n in found ==> found[n] == AncestorAt(b, n))
  }

  method BuildHeaderRoot(found: map<nat, Block>, cht: nat, ghost b: Block) returns (r: Result<seq<(nat, Block)>, Error>)
    requires Along(found, b, StartNumber(SIZE, cht))
    ensures r.Ok? <==> EndNumber(SIZE, cht) <= b.number
    ensures r.Ok? ==> r.value == Range(b, StartNumber(SIZE, cht))
    ensures r.Err? ==> r.error.MissingChtEntry?
  {
    var pairs := BuildPairs(SIZE, cht, found);
    if pairs.Err? {
      return Err(MissingChtEntry(pairs.error));
    }
    assert EndNumber(SIZE, cht) in found;
    r := Ok(pairs.value);
  }

  lemma RootsFound(found: map<nat, Block>, b: Block, start: nat)
    requires start + SIZE <= b.number + 1 && Along(found, b, start)
    ensures forall n: nat :: start <= n < start + SIZE ==>
              && (n in RootsOf(found) <==> Rooted(AncestorAt(b, n)))
              && (n in RootsOf(found) ==> AncestorAt(b, n).content.changesTrieRoot == Some(RootsOf(found)[n]))
  {
  }

  method BuildChangesRoot(found: map<nat, Block>, cht: nat, ghost b: Block) returns (r: Result<seq<(nat, nat)>, Error>)
    requires EndNumber(SIZE, cht) <= b.number && Along(found, b, StartNumber(SIZE, cht))
    ensures r.Ok? <==> AllRooted(b, StartNumber(SIZE, cht))
    ensures r.Ok? ==> r.value == RootPairs(b, StartNumber(SIZE, cht))
    ensures r.Err? ==> r.error.MissingChtEntry?
  {
    var start := StartNumber(SIZE, cht);
    var roots := RootsOf(found);
    RootsFound(found, b, start);
    var pairs := BuildPairs(SIZE, cht, roots);
    if pairs.Err? {
      assert !Rooted(AncestorAt(b, pairs.error));
      return Err(MissingChtEntry(pairs.error));
    }
    r := Ok(pairs.value);
  }

  /** The trie due and the headers it replaces, read through the index. */
  method BuildReplacement(found: map<nat, Block>, cht: nat, header: Block, ghost b: Block)
    returns (r: Result<Option<Replacement>, Error>)
    requires IsBuildRequired(SIZE, header.number) == Some(cht) && Along(found, b, StartNumber(SIZE, cht))
    ensures r.Ok? <==> Ready(b, header)
    ensures r.Ok? ==> r.value == Replacing(b, header)
    ensures r.Err? ==> r.error.MissingChtEntry?
  {
    var start := StartNumber(SIZE, cht);
    var root := BuildHeaderRoot(found, cht, b);
    if root.Err? {
      return Err(root.error);
    }
    var changesRoot: Option<seq<(nat, nat)>> := None;
    if Rooted(header) {
      var roots := BuildChangesRoot(found, cht, b);
      if roots.Err? {
        return Err(roots.error);
      }
      changesRoot := Some(roots.value);
    }
    var gone := CollectGone(found, start, EndNumber(SIZE, cht));
    assert gone == BlocksIn(b, start);
    r := Ok(Some(Replacement(start, root.value, changesRoot, gone)));
  }

  // The whole state

  /** Everything stored; `all` is every block ever imported, and `metadata` the headers whose
      metadata is cached, which pruning does not clear. */
  datatype State = State(all: set<Block>, headers: set<Block>, numbers: map<nat, Block>, best: Block, finalized: Block,
                         chts: map<nat, seq<(nat, Block)>>, changes: map<nat, seq<(nat, nat)>>, metadata: set<Block>)
  {
    /** The columns hold what they are for: the headers not replaced by a trie, the best chain
        by number without the replaced ones, and the finalized chain's tries. */
    ghost predicate Exact()
    {
      && headers == Kept(all, finalized)
      && numbers == Index(best, finalized.number)
      && chts == Tries(finalized)
      && ChangesExact(changes, finalized)
    }

    /** What the columns stay exact under: the best chain need not contain the finalized block,
        only share the pruned numbers with its chain. */
    ghost predicate Good()
    {
      Exact() && ValidTree(all) && best in all && finalized in all && Shares(best, finalized)
    }

    function Imported(header: Block, isBest: bool): State
      requires header.number > 0
    {
      this.(all := all + {header}, headers := headers + {header},
            numbers := if isBest then Apply(numbers, HeadOps(best, header.parent, header)) else numbers,
            best := if isBest then header else best)
    }

    function Headed(to: Block): State
    {
      this.(best := to, numbers := Apply(numbers, HeadOps(best, to, to)))
    }

    function Finalized(header: Block, rep: Option<Replacement>): State
    {
      this.(headers := headers - Gone(rep), numbers := numbers - Numbers(Gone(rep)),
            chts := AddTrie(chts, rep), changes := AddRoots(changes, rep), finalized := header)
    }

    /** An import as best keeps the columns exact exactly when the parent's chain shares the
        pruned numbers; any other import, exactly when the header has not been pruned. */
    lemma ImportedExactIff(header: Block, isBest: bool)
      requires Good() && header.number > 0
      ensures Imported(header, isBest).Exact() <==> if isBest then Shares(header.parent, finalized) else !IsPruned(header, finalized)
    {
      assert headers + {header} == Kept(all + {header}, finalized) <==> !IsPruned(header, finalized);
      ImportIndexIff(best, finalized, header);
      if isBest && Shares(header.parent, finalized) {
        UnprunedChild(finalized, header);
      }
    }

    lemma ImportedGoodIff(header: Block, isBest: bool)
      requires Good() && header.number > 0
      ensures Imported(header, isBest).Good() <==> Imported(header, isBest).Exact() && header.parent in all
    {
      var all' := all + {header};
      assert header in all' && header.parent != header;
      assert ValidTree(all') <==> header.parent in all by {
        if header.parent in all {
          assert forall b :: b in all' && b.number > 0 ==> b.parent in all;
        }
      }
      ImportedExactIff(header, isBest);
      if isBest && Shares(header.parent, finalized) {
        UnprunedChild(finalized, header);
      }
    }

    /** A head change to any stored block: exact if and only if the new head's chain shares the
        pruned numbers, or the head falls back to the genesis block. */
    lemma HeadedExactIff(to: Block)
      requires Good() && to in headers
      ensures Headed(to).Exact() <==> to == GENESIS || Shares(to, finalized)
      ensures Headed(to).Good() <==> Shares(to, finalized)
    {
      SetHeadIndexIff(best, finalized, to);
    }

    /** Finalizing a child of the last finalized block, with the trie due built along `along`:
        exact if and only if the trie ends below the fork of the two chains. */
    lemma FinalizedExactIff(along: Block, header: Block)
      requires Good() && header.number > 0 && header.parent == finalized && Ready(along, header)
      ensures Finalized(header, Replacing(along, header)).Exact() <==> Below(along, header)
    {
      var s := Finalized(header, Replacing(along, header));
      if Below(along, header) {
        ReplacingAgrees(along, finalized, header);
        KeptAfterFinality(all, finalized, header);
        IndexAfterFinality(best, finalized, header);
        TriesAfterFinality(finalized, header);
        ChangesAfterFinality(changes, finalized, header);
      } else {
        WrongTrie(along, header);
      }
    }

    /** A trie that reaches above the fork commits to another chain's blocks. */
    lemma WrongTrie(along: Block, header: Block)
      requires Good() && header.number > 0 && header.parent == finalized && Ready(along, header) && !Below(along, header)
      ensures var start := Replacing(along, header).value.start;
              var s := Finalized(header, Replacing(along, header));
              && start in s.chts && start in Tries(header) && s.chts[start] != Tries(header)[start]
              && s.chts[start] == Range(along, start)
    {
      BuiltStep(header.number);
      var start := StartNumber(SIZE, IsBuildRequired(SIZE, header.number).value);
      FinalizeKeepsTries(finalized, header);
      RangeOfParent(header, start);
      RangeAgreesIff(along, header, start);
    }

    /** Where the best chain shares the trie's range, or the header becomes best itself, the
        invariant is kept as well. */
    lemma FinalizedGoodIff(along: Block, header: Block)
      requires Good() && header in all && header.number > 0 && header.parent == finalized && Ready(along, header)
      requires along == best || header == best
      ensures Finalized(header, Replacing(along, header)).Good() <==> Below(along, header)
    {
      FinalizedExactIff(along, header);
      if header == best {
        SharesItself(header);
      } else if Below(best, header) {
        SharesAfterFinality(best, finalized, header);
      }
    }
  }

  lemma SharesItself(b: Block)
    ensures Shares(b, b)
  {
    PrunedBelow(b.number);
  }

  lemma SharesAfterFinality(best: Block, finalized: Block, header: Block)
    requires header.number > 0 && header.parent == finalized && Shares(best, finalized) && Below(best, header)
    ensures Shares(best, header)
  {
    BuiltStep(header.number);
    OnChainTransitive(Common(best, finalized), finalized, header);
    CommonIsHighest(best, header, Common(best, finalized));
  }

  lemma UnprunedChild(finalized: Block, header: Block)
    requires header.number > 0 && Shares(header.parent, finalized)
    ensures !IsPruned(header, finalized) && Shares(header, finalized)
  {
    OnChainTransitive(Common(header.parent, finalized), header.parent, header);
    CommonIsHighest(header, finalized, Common(header.parent, finalized));
  }

  // Whole runs

  /** The requests of a run; `kept` is what the bounded metadata cache does not forget. */
  datatype Op =
    | Import(header: Block, state: LeafState, kept: set<Block>)
    | SetHead(to: Block, kept: set<Block>)
    | Finalize(header: Block)

  ghost predicate Routed(known: set<Block>, a: Block, b: Hash)
  {
    a in known && b in known && TreeRoutes.Connected(known, a, b)
  }

  /** When a request is carried out: a new head must be reachable from the old one through known
      headers, finality moves one block at a time, and the trie due must be buildable. */
  ghost predicate Accepted(s: State, op: Op)
  {
    match op
    case Import(h, state, _) =>
      && h.number > 0
      && (!state.Normal? ==> Routed(s.headers + s.metadata, s.best, h.parent))
      && (state.Final? ==> h.parent == s.finalized && Ready(s.best, h))
    case SetHead(to, _) => to in s.headers && Routed(s.headers + s.metadata, s.best, to)
    case Finalize(h) => h in s.headers && h.number > 0 && h.parent == s.finalized && Ready(s.best, h)
  }

  /** What an accepted request does; the trie is built from the index as it was before. */
  ghost function CarriedOut(s: State, op: Op): State
    requires Accepted(s, op)
  {
    match op
    case Import(h, state, _) =>
      if state.Final? then s.Imported(h, true).Finalized(h, Replacing(s.best, h)) else s.Imported(h, state.Best?)
    case SetHead(to, _) => s.Headed(to)
    case Finalize(h) => s.Finalized(h, Replacing(s.best, h))
  }

  /** Lookups of stored headers and imports, even refused ones, leave metadata in the cache. */
  function Remembered(s: State, op: Op): set<Block>
  {
    match op
    case Import(h, _, kept) => (s.metadata + s.headers + {h}) * kept
    case SetHead(_, kept) => (s.metadata + s.headers) * kept
    case Finalize(_) => s.metadata
  }

  /** A refused request changes nothing stored. */
  ghost function Next(s: State, op: Op): State
  {
    (if Accepted(s, op) then CarriedOut(s, op) else s).(metadata := Remembered(s, op))
  }

  ghost predicate Safe(s: State, op: Op)
  {
    match op
    case Import(h, Normal, _) => h.number > 0 && h.parent in s.all && !IsPruned(h, s.finalized)
    case Import(h, Best, _) => h.number > 0 && h.parent in s.all && Shares(h.parent, s.finalized)
    case Import(h, Final, _) => Below(s.best, h)
    case SetHead(to, _) => Shares(to, s.finalized)
    case Finalize(h) => Below(s.best, h)
  }

  /** A request keeps everything exact if and only if it is refused or safe. */
  lemma StepGoodIff(s: State, op: Op)
    requires s.Good()
    ensures Next(s, op).Good() <==> (Accepted(s, op) ==> Safe(s, op))
  {
    if Accepted(s, op) {
      CarriedOutGoodIff(s, op);
      MetadataIsSeparate(CarriedOut(s, op), Remembered(s, op));
    } else {
      MetadataIsSeparate(s, Remembered(s, op));
    }
  }

  lemma MetadataIsSeparate(s: State, metadata: set<Block>)
    ensures s.(metadata := metadata).Good() <==> s.Good()
    ensures s.(metadata := metadata).Exact() <==> s.Exact()
  {
  }

  lemma CarriedOutGoodIff(s: State, op: Op)
    requires s.Good() && Accepted(s, op)
    ensures CarriedOut(s, op).Good() <==> Safe(s, op)
  {
    match op
    case Import(h, state, _) =>
      s.ImportedGoodIff(h, !state.Normal?);
      s.ImportedExactIff(h, !state.Normal?);
      if state.Final? {
        OneChainMeets(s.finalized, s.finalized);
        PrunedBelow(s.finalized.number);
        s.Imported(h, true).FinalizedGoodIff(s.best, h);
      }
    case SetHead(to, _) => s.HeadedExactIff(to);
    case Finalize(h) => s.FinalizedGoodIff(s.best, h);
  }

  function Fresh(): State
  {
    State({GENESIS}, {GENESIS}, map[0 := GENESIS], GENESIS, GENESIS, map[], map[], {})
  }

  /** The state after a run from a database that holds the genesis header. */
  ghost function Run(ops: seq<Op>): State
  {
    if ops == [] then Fresh() else Next(Run(ops[..|ops| - 1]), ops[|ops| - 1])
  }

  /** Every request that is carried out is safe. */
  ghost predicate SafeRun(ops: seq<Op>)
  {
    ops == [] ||
    (SafeRun(ops[..|ops| - 1]) &&
     (Accepted(Run(ops[..|ops| - 1]), ops[|ops| - 1]) ==> Safe(Run(ops[..|ops| - 1]), ops[|ops| - 1])))
  }

  lemma {:induction false} RunKeepsGood(ops: seq<Op>)
    requires SafeRun(ops)
    ensures Run(ops).Good()
  {
    if ops != [] {
      RunKeepsGood(ops[..|ops| - 1]);
      StepGoodIff(Run(ops[..|ops| - 1]), ops[|ops| - 1]);
    }
  }

  /** Where the range of a block's trie starts. */
  function ChtStart(chtSize: nat, block: nat): nat
    requires chtSize > 0 && block > 0
  {
    StartNumber(chtSize, (block - 1) / chtSize)
  }

  method ReadChtRoot<T>(roots: map<nat, T>, chtSize: nat, block: nat) returns (r: Result<T, Error>)
    requires chtSize > 0
    ensures r.Ok? <==> block > 0 && ChtStart(chtSize, block) in roots
    ensures r.Ok? ==> r.value == roots[ChtStart(chtSize, block)]
  {
    var cht := BlockToCht(chtSize, block);
    if cht.None? {
      return Err(NoCht);
    }
    var start := StartNumber(chtSize, cht.value);
    r := if start in roots then Ok(roots[start]) else Err(NoCht);
  }

  /** A number is pruned exactly when the trie of its range has been built. */
  lemma PrunedIffTrie(f: nat, n: nat)
    requires n > 0
    ensures TrieStart(f, StartNumber(SIZE, (n - 1) / SIZE)) <==> n <= PrunedTo(f)
    ensures StartNumber(SIZE, (n - 1) / SIZE) + (n - 1) % SIZE == n
  {
  }

  /** The trie of a pruned number's range commits to that number's block. */
  lemma TrieHolds(b: Block, n: nat)
    requires 1 <= n <= PrunedTo(b.number)
    ensures n <= b.number
    ensures var start := StartNumber(SIZE, (n - 1) / SIZE);
            start in Tries(b) && |Tries(b)[start]| == SIZE && Tries(b)[start][(n - 1) % SIZE] == (n, AncestorAt(b, n))
  {
    PrunedIffTrie(b.number, n);
    PrunedBelow(b.number);
    var start := StartNumber(SIZE, (n - 1) / SIZE);
    TrieStartRange(b.number, start);
    assert Range(b, start)[(n - 1) % SIZE] == (n, AncestorAt(b, n));
  }

  /** After any safe run no finalized header is lost: it is stored, and found by number exactly
      where the best chain agrees, or it is gone and the trie of its range commits to it. */
  lemma NothingLost(ops: seq<Op>, n: nat)
    requires SafeRun(ops) && n <= Run(ops).finalized.number
    ensures var s := Run(ops);
            var b := AncestorAt(s.finalized, n);
            if 1 <= n <= PrunedTo(s.finalized.number) then
              var start := StartNumber(SIZE, (n - 1) / SIZE);
              b !in s.headers && n !in s.numbers && start in s.chts && |s.chts[start]| == SIZE && s.chts[start][(n - 1) % SIZE] == (n, b)
            else
              b in s.headers && (n in s.numbers && s.numbers[n] == b <==> n <= Common(s.best, s.finalized).number)
  {
    var s := Run(ops);
    RunKeepsGood(ops);
    AncestorInTree(s.all, s.finalized, n);
    if 1 <= n <= PrunedTo(s.finalized.number) {
      TrieHolds(s.finalized, n);
    } else if n <= s.best.number {
      AgreeIff(s.best, s.finalized, n);
    }
  }

  /** A trie, once built, is never changed by later finality. */
  lemma {:induction false} TriesAreForever(earlier: Block, later: Block, n: nat)
    requires OnChain(earlier, later) && n in Tries(earlier)
    ensures n in Tries(later) && Tries(later)[n] == Tries(earlier)[n]
    decreases later.number
  {
    if earlier != later {
      TriesAreForever(earlier, later.parent, n);
      FinalizeKeepsTries(later.parent, later);
      BuiltStep(later.number);
    }
  }

  /** Through stored headers alone a route exists exactly when the chains meet above the pruned
      numbers, so that a head change without cached metadata is always safe. */
  lemma StoredRouteIff(s: State, to: Block)
    requires s.Good() && s.best in s.headers && to in s.headers
    ensures Routed(s.headers, s.best, to) <==> PrunedTo(s.finalized.number) == 0 || PrunedTo(s.finalized.number) < Common(s.best, to).number
    ensures Routed(s.headers, s.best, to) ==> Shares(to, s.finalized)
  {
    var p, c := PrunedTo(s.finalized.number), Common(s.best, to).number;
    SharesThrough(s.best, s.finalized, to);
    if p == 0 || p < c {
      StockedAbove(s, s.best, c);
      StockedAbove(s, to, c);
    } else {
      PrunedOnRoute(s, to);
    }
  }

  lemma StockedAbove(s: State, b: Block, n: nat)
    requires s.Good() && b in s.all && (PrunedTo(s.finalized.number) == 0 || PrunedTo(s.finalized.number) < n)
    ensures TreeRoutes.Stocked(s.headers, b, n)
  {
    forall k | n <= k <= b.number ensures AncestorAt(b, k) in s.headers {
      AncestorInTree(s.all, b, k);
    }
  }

  lemma PrunedOnRoute(s: State, to: Block)
    requires s.Good() && Common(s.best, to).number <= PrunedTo(s.finalized.number) && 0 < PrunedTo(s.finalized.number)
    ensures !TreeRoutes.Stocked(s.headers, s.best, Common(s.best, to).number)
  {
    var c := Common(s.best, to).number;
    var k := if c == 0 then 1 else c;
    PrunedBelow(s.finalized.number);
    AgreeIff(s.best, s.finalized, k);
    assert IsPruned(AncestorAt(s.best, k), s.finalized);
  }

  /** What a carried out request changes of the chain: which blocks there are, which is best and
      which is final. */
  lemma RequestEffect(s: State, op: Op)
    requires Accepted(s, op)
    ensures var s' := Next(s, op);
            match op
            case Import(h, state, _) =>
              && s'.all == s.all + {h} && h in s'.headers
              && s'.best == (if state.Normal? then s.best else h)
              && s'.finalized == (if state.Final? then h else s.finalized)
            case SetHead(to, _) => s'.all == s.all && s'.best == to && s'.finalized == s.finalized
            case Finalize(h) => s'.all == s.all && s'.best == s.best && s'.finalized == h
  {
    if op.Import? && op.state.Final? && IsBuildRequired(SIZE, op.header.number).Some? {
      BuiltStep(op.header.number);
    }
  }

  lemma RoutedMore(known: set<Block>, more: set<Block>, a: Block, b: Block)
    requires Routed(known, a, b)
    ensures Routed(known + more, a, b)
  {
  }

  /** Requests that are always carried out: any import beside the head, a child of the stored
      best block as head, a stored head whose chain meets the best one above the pruned numbers,
      and finality of the next block of the best chain where no changes trie root is asked for. */
  lemma AlwaysAccepted(s: State, b: Block, kept: set<Block>)
    requires s.Good()
    ensures b.number > 0 ==> Accepted(s, Import(b, Normal, kept))
    ensures b.number > 0 && b.parent == s.best && s.best in s.headers ==> Accepted(s, Import(b, Best, kept))
    ensures s.best in s.headers && b in s.headers && PrunedTo(s.finalized.number) < Common(s.best, b).number ==> Accepted(s, SetHead(b, kept))
    ensures b.number > 0 && OnChain(b, s.best) && b.parent == s.finalized && !Rooted(b) ==> Accepted(s, Finalize(b))
  {
    if b.number > 0 && b.parent == s.best && s.best in s.headers {
      OneChainMeets(s.best, s.best);
      assert Routed(s.headers, s.best, s.best);
      RoutedMore(s.headers, s.metadata, s.best, s.best);
    }
    if s.best in s.headers && b in s.headers && PrunedTo(s.finalized.number) < Common(s.best, b).number {
      StoredRouteIff(s, b);
      RoutedMore(s.headers, s.metadata, s.best, b);
    }
    if b.number > 0 && OnChain(b, s.best) && b.parent == s.finalized {
      OwnChainIsBelow(s.best, b);
      AncestorInTree(s.all, s.best, b.number);
      PrunedBelow(s.finalized.number);
    }
  }

  // What an unsafe finalization loses

  /** The finalized chain's block `n` is neither found by number nor committed to by any trie. */
  ghost predicate Lost(s: State, n: nat)
    requires n <= s.finalized.number
  {
    n !in s.numbers && forall start :: start in s.chts ==> (n, AncestorAt(s.finalized, n)) !in s.chts[start]
  }

  /** Every finalization whose trie reaches above the fork loses the last block of the range. */
  lemma UnsafeFinalityLoses(s: State, header: Block)
    requires s.Good() && header.number > 0 && header.parent == s.finalized && Ready(s.best, header) && !Below(s.best, header)
    ensures var end := EndNumber(SIZE, IsBuildRequired(SIZE, header.number).value);
            end <= header.number && Lost(s.Finalized(header, Replacing(s.best, header)), end)
  {
    BuiltStep(header.number);
    var rep := Replacing(s.best, header).value;
    var end := EndNumber(SIZE, IsBuildRequired(SIZE, header.number).value);
    assert AncestorAt(s.best, end) in rep.gone;
    AgreeIff(s.best, header, end);
    var s' := s.Finalized(header, Some(rep));
    forall start | start in s'.chts ensures (end, AncestorAt(header, end)) !in s'.chts[start] {
      if start == rep.start {
        NotInRange(s.best, start, end, AncestorAt(header, end));
      } else {
        TrieStartRange(s.finalized.number, start);
        NotInRange(s.finalized, start, end, AncestorAt(header, end));
      }
    }
  }

  lemma NotInRange(b: Block, start: nat, n: nat, x: Block)
    requires start + SIZE <= b.number + 1
    requires start <= n < start + SIZE ==> AncestorAt(b, n) != x
    ensures (n, x) !in Range(b, start)
  {
  }

  /** A chain of empty blocks with the given state root. */
  function Tower(n: nat, root: nat): Block
  {
    if n == 0 then GENESIS else HashOf(n, Tower(n - 1, root), Content(root, None))
  }

  lemma {:induction false} TowerChain(n: nat, m: nat, root: nat)
    requires m <= n
    ensures Tower(n, root).number == n && AncestorAt(Tower(n, root), m) == Tower(m, root)
  {
    if m < n {
      TowerChain(n - 1, m, root);
    } else if n > 0 {
      TowerChain(n - 1, n - 1, root);
    }
  }

  lemma {:induction false} TowersPart(n: nat, m: nat)
    ensures Common(Tower(n, 1), Tower(m, 2)) == GENESIS
    decreases n + m
  {
    TowerChain(n, n, 1);
    TowerChain(m, m, 2);
    if n > m {
      TowersPart(n - 1, m);
    } else if m > n {
      TowersPart(n, m - 1);
    } else if n > 0 {
      TowersPart(n - 1, m - 1);
    }
  }

  lemma OneMore(ops: seq<Op>, op: Op)
    ensures Run(ops + [op]) == Next(Run(ops), op)
  {
    assert (ops + [op])[..|ops|] == ops;
  }

  /** Imports fill the metadata cache, and nothing clears it. */
  ghost predicate Cached(s: State)
  {
    s.all <= s.metadata + {GENESIS}
  }

  /** Importing one tower as best, with nothing forgotten. */
  lemma {:induction false} GrowBest(n: nat) returns (ops: seq<Op>)
    ensures var s := Run(ops); s.Good() && Cached(s) && s.best == Tower(n, 1) && s.finalized == GENESIS
  {
    if n == 0 {
      ops := [];
    } else {
      var init := GrowBest(n - 1);
      var op := Import(Tower(n, 1), Best, Run(init).metadata + {Tower(n, 1)});
      TowerChain(n - 1, n - 1, 1);
      ImportOnBest(Run(init), op);
      OneMore(init, op);
      ops := init + [op];
    }
  }

  /** Before anything is pruned, a child of the best block can be imported as best. */
  lemma ImportOnBest(s: State, op: Op)
    requires s.Good() && Cached(s) && s.finalized == GENESIS && op.Import? && op.state == Best
    requires op.header.number > 0 && op.header.parent == s.best && op.kept == s.metadata + {op.header}
    ensures var s' := Next(s, op); s'.Good() && Cached(s') && s'.best == op.header && s'.finalized == GENESIS
  {
    OneChainMeets(s.best, s.best);
    assert s.best in s.headers;
    StepGoodIff(s, op);
  }

  /** Before anything is pruned, a child of any known block can be imported beside the head. */
  lemma ImportBeside(s: State, op: Op)
    requires s.Good() && Cached(s) && s.finalized == GENESIS && op.Import? && op.state == Normal
    requires op.header.number > 0 && op.header.parent in s.all && op.kept == s.metadata + {op.header}
    ensures var s' := Next(s, op); s'.Good() && Cached(s') && s'.best == s.best && s'.finalized == GENESIS && s'.all == s.all + {op.header}
  {
    StepGoodIff(s, op);
  }

  /** Importing the other tower beside it. */
  lemma {:induction false} GrowFork(n: nat, m: nat) returns (ops: seq<Op>)
    ensures var s := Run(ops);
            s.Good() && Cached(s) && s.best == Tower(n, 1) && s.finalized == GENESIS && Tower(m, 2) in s.all
  {
    if m == 0 {
      ops := GrowBest(n);
    } else {
      var init := GrowFork(n, m - 1);
      var s, h := Run(init), Tower(m, 2);
      var op := Import(h, Normal, s.metadata + {h});
      TowerChain(m - 1, m - 1, 2);
      ImportBeside(s, op);
      OneMore(init, op);
      ops := init + [op];
    }
  }

  /** Finalizing the other tower, up to the block before the first trie is due. */
  lemma {:induction false} FinalizeFork(n: nat, m: nat, k: nat) returns (ops: seq<Op>)
    requires k <= m && k <= 2 * SIZE
    ensures var s := Run(ops); s.Good() && s.best == Tower(n, 1) && s.finalized == Tower(k, 2) && Tower(m, 2) in s.all
  {
    if k == 0 {
      ops := GrowFork(n, m);
    } else {
      var init := FinalizeFork(n, m, k - 1);
      var h := Tower(k, 2);
      TowerChain(m, k, 2);
      TowerChain(k - 1, k - 1, 2);
      AncestorInTree(Run(init).all, Tower(m, 2), k);
      FinalizeEarly(Run(init), h);
      OneMore(init, Finalize(h));
      ops := init + [Finalize(h)];
    }
  }

  /** Before the first trie is due, any child of the last finalized block can be finalized. */
  lemma FinalizeEarly(s: State, h: Block)
    requires s.Good() && h in s.all && 0 < h.number <= 2 * SIZE && h.parent == s.finalized
    ensures var s' := Next(s, Finalize(h)); s'.Good() && s'.best == s.best && s'.finalized == h && s'.all == s.all
  {
    assert IsBuildRequired(SIZE, h.number).None?;
    StepGoodIff(s, Finalize(h));
  }

  /** The first trie is due while the other fork is best. */
  lemma TrieOverFork(header: Block)
    requires header == Tower(2 * SIZE + 1, 2)
    ensures header.number == 2 * SIZE + 1 && header.parent == Tower(2 * SIZE, 2) && IsBuildRequired(SIZE, header.number) == Some(0)
    ensures Ready(Tower(SIZE, 1), header) && !Below(Tower(SIZE, 1), header)
  {
    TowerChain(2 * SIZE + 1, 2 * SIZE + 1, 2);
    TowerChain(SIZE, SIZE, 1);
    TowersPart(SIZE, 2 * SIZE + 1);
    BuildSchedule(SIZE, 2 * SIZE + 1, 0);
  }

  lemma LosingStep(s: State, header: Block)
    requires s.Good() && s.best == Tower(SIZE, 1) && s.finalized == Tower(2 * SIZE, 2)
    requires header == Tower(2 * SIZE + 1, 2) && header in s.all
    ensures Accepted(s, Finalize(header))
    ensures var s' := Next(s, Finalize(header)); s'.finalized.number == 2 * SIZE + 1 && Lost(s', SIZE)
  {
    TrieOverFork(header);
    TowerChain(2 * SIZE, 2 * SIZE, 2);
    PrunedBelow(s.finalized.number);
    UnsafeFinalityLoses(s, header);
  }

  /** A run whose last request is carried out and leaves a finalized header unfindable: the first
      trie is built over the best fork while the other fork is finalized. */
  lemma FinalizingForkLoses() returns (ops: seq<Op>)
    ensures ops != [] && Run(ops[..|ops| - 1]).Good() && Accepted(Run(ops[..|ops| - 1]), ops[|ops| - 1])
    ensures Run(ops).finalized.number == 2 * SIZE + 1 && Lost(Run(ops), SIZE)
  {
    var init := FinalizeFork(SIZE, 2 * SIZE + 1, 2 * SIZE);
    var h := Tower(2 * SIZE + 1, 2);
    LosingStep(Run(init), h);
    OneMore(init, Finalize(h));
    ops := init + [Finalize(h)];
    assert ops[..|ops| - 1] == init;
  }

  /** Finalizing the best tower itself, tries included. */
  lemma {:induction false} FinalizeBest(n: nat, m: nat, k: nat) returns (ops: seq<Op>)
    requires k <= n
    ensures var s := Run(ops);
            s.Good() && Cached(s) && s.best == Tower(n, 1) && s.finalized == Tower(k, 1) && Tower(m, 2) in s.all
  {
    if k == 0 {
      ops := GrowFork(n, m);
    } else {
      var init := FinalizeBest(n, m, k - 1);
      var h := Tower(k, 1);
      FinalizeOwn(Run(init), n, h, k);
      OneMore(init, Finalize(h));
      ops := init + [Finalize(h)];
    }
  }

  lemma FinalizeOwn(s: State, n: nat, h: Block, k: nat)
    requires s.Good() && 0 < k <= n && s.best == Tower(n, 1) && s.finalized == Tower(k - 1, 1) && h == Tower(k, 1)
    ensures Accepted(s, Finalize(h)) && Next(s, Finalize(h)).Good()
  {
    TowerChain(n, k, 1);
    TowerChain(k - 1, k - 1, 1);
    AncestorInTree(s.all, s.best, k);
    PrunedBelow(s.finalized.number);
    OneChainMeets(s.best, h);
    BuiltStep(k);
    assert !Rooted(h);
    StepGoodIff(s, Finalize(h));
  }

  /** A run that breaks the index in its last step: the imports have cached the metadata of
      headers that are pruned by now, and through it the head moves to a fork that starts below
      them. */
  lemma CachedRouteBreaksIndex() returns (ops: seq<Op>)
    ensures ops != [] && Run(ops[..|ops| - 1]).Good() && Accepted(Run(ops[..|ops| - 1]), ops[|ops| - 1])
    ensures !Run(ops).Exact()
  {
    var n := 2 * SIZE + 1;
    var init := FinalizeBest(n, 1, n);
    var s, to := Run(init), Tower(1, 2);
    var op := SetHead(to, s.metadata);
    MoveBelowPruned(s, op);
    OneMore(init, op);
    ops := init + [op];
    assert ops[..|ops| - 1] == init;
  }

  lemma MoveBelowPruned(s: State, op: Op)
    requires s.Good() && Cached(s) && s.best == s.finalized == Tower(2 * SIZE + 1, 1)
    requires op.SetHead? && op.to == Tower(1, 2) && op.to in s.all
    ensures Accepted(s, op) && !Next(s, op).Exact()
  {
    var to := op.to;
    TowerChain(2 * SIZE + 1, 2 * SIZE + 1, 1);
    TowerChain(1, 1, 2);
    TowersPart(2 * SIZE + 1, 1);
    CommonSymmetric(s.best, to);
    OneChainMeets(to, s.finalized);
    assert !IsPruned(to, s.finalized);
    RoutedThroughCache(s, to);
    s.HeadedExactIff(to);
    MetadataIsSeparate(s.Headed(to), Remembered(s, op));
  }

  lemma RoutedThroughCache(s: State, to: Block)
    requires s.Good() && Cached(s) && to in s.all
    ensures Routed(s.headers + s.metadata, s.best, to)
  {
    AncestorInTree(s.all, to, 0);
    assert GENESIS in s.headers;
    assert s.all <= s.headers + s.metadata;
    TreeRoutes.TreeIsConnected(s.all, s.best, to);
  }

  /** The block that triggered the trie of `n`'s range has a changes trie root. */
  predicate Triggered(finalized: Block, n: nat)
    requires n > 0
  {
    var trigger := StartNumber(SIZE, (n - 1) / SIZE) + 2 * SIZE;
    trigger <= finalized.number && Rooted(AncestorAt(finalized, trigger))
  }

  lemma StoredRoots(changes: map<nat, seq<(nat, nat)>>, finalized: Block, start: nat)
    requires ChangesExact(changes, finalized)
    ensures start in changes ==> start + SIZE <= finalized.number + 1 && ListsRoots(changes[start], finalized, start)
  {
    if start in changes {
      TrieStartRange(finalized.number, start);
    }
  }

  lemma ChangesAt(changes: map<nat, seq<(nat, nat)>>, finalized: Block, n: nat)
    requires ChangesExact(changes, finalized) && n > 0
    ensures var start := StartNumber(SIZE, (n - 1) / SIZE);
            && (start in changes <==> n <= PrunedTo(finalized.number) && Triggered(finalized, n))
            && (start in changes ==>
                  && n <= finalized.number && |changes[start]| == SIZE && changes[start][(n - 1) % SIZE].0 == n
                  && AncestorAt(finalized, n).content.changesTrieRoot == Some(changes[start][(n - 1) % SIZE].1))
  {
    var start := StartNumber(SIZE, (n - 1) / SIZE);
    PrunedIffTrie(finalized.number, n);
    PrunedBelow(finalized.number);
    if TrieStart(finalized.number, start) {
      var i := (n - 1) % SIZE;
      assert start + i == n;
      assert start in changes ==> ListsRoots(changes[start], finalized, start);
    }
  }

  // The storage

  class LightStorage {
    var headers: set<Block>
    var numbers: map<nat, Block>
    var best: Block
    var finalized: Block
    var chts: map<nat, seq<(nat, Block)>>
    var changes: map<nat, seq<(nat, nat)>>
    var metadata: set<Block>
    ghost var all: set<Block>

    ghost function View(): State
      reads this
    {
      State(all, headers, numbers, best, finalized, chts, changes, metadata)
    }

    ghost predicate Valid()
      reads this
    {
      View().Good()
    }

    /** The storage once the genesis header has been imported. */
    constructor ()
      ensures Valid() && View() == Fresh()
    {
      headers, numbers, best, finalized := {GENESIS}, map[0 := GENESIS], GENESIS, GENESIS;
      chts, changes, metadata := map[], map[], {};
      all := {GENESIS};
    }

    /** Caches what a route looked up; the bounded cache may forget anything. */
    method Remember(seen: set<Block>)
      modifies this`metadata
      ensures metadata <= old(metadata) + seen
    {
      var keep: set<Block> := *;
      metadata := (metadata + seen) * keep;
    }

    /** The index changes of a new head; retracting the finalized block is only logged. */
    method SetHeadWithTransaction(routeTo: Hash, to: Block) returns (r: Result<seq<NumberOp>, Error>)
      modifies this`metadata
      ensures r.Ok? <==> Routed(headers + old(metadata), best, routeTo)
      ensures r.Ok? ==> r.value == HeadOps(best, routeTo, to)
      ensures r.Err? ==> r.error.UnknownBlock? && r.error.hash !in headers
      ensures metadata <= old(metadata) + headers
    {
      var route := TreeRoutes.ComputeTreeRoute(headers + metadata, best, routeTo);
      Remember(headers);
      if route.Err? {
        return Err(UnknownBlock(route.error.hash));
      }
      var deletes, reverts := ChainDb.WriteRetracted(route.value.Retracted(), finalized);
      var puts := ChainDb.WriteEnacted(route.value.Enacted());
      r := Ok(deletes + puts + [Put(to.number, to)]);
    }

    /** Checks that finality moves by one block and prepares the trie that is due, if any. */
    method NoteFinalized(header: Block) returns (r: Result<Option<Replacement>, Error>)
      requires Valid()
      ensures r.Ok? <==> header.number > 0 && header.parent == finalized && Ready(best, header)
      ensures r.Ok? ==> r.value == Replacing(best, header)
      ensures r.Err? ==> if header.parent != finalized then r.error == NonSequentialFinalization else r.error.MissingChtEntry?
    {
      if finalized != header.parent {
        return Err(NonSequentialFinalization);
      }
      var due := IsBuildRequired(SIZE, header.number);
      if due.None? {
        return Ok(None);
      }
      BuiltStep(header.number);
      FoundIsBest(View(), StartNumber(SIZE, due.value));
      r := BuildReplacement(Found(headers, numbers), due.value, header, best);
    }

    /** The head change and the finality change of an import, before anything is written. */
    method PrepareImport(header: Block, state: LeafState) returns (r: Result<(seq<NumberOp>, Option<Replacement>), Error>)
      requires Valid()
      modifies this`metadata
      ensures r.Ok? <==> old(Accepted(View(), Import(header, state, {})))
      ensures r.Ok? ==> r.value.0 == if state.Normal? then [] else HeadOps(best, header.parent, header)
      ensures r.Ok? ==> if state.Final? then r.value.1 == Replacing(best, header) else r.value.1.None?
      ensures metadata <= old(metadata) + headers + {header}
    {
      var ops: seq<NumberOp> := [];
      if !state.Normal? {
        var change := SetHeadWithTransaction(header.parent, header);
        if change.Err? {
          return Err(change.error);
        }
        ops := change.value;
      }
      Remember({header});
      var rep: Option<Replacement> := None;
      if header.number == 0 || state.Final? {
        var noted := NoteFinalized(header);
        if noted.Err? {
          return Err(noted.error);
        }
        rep := noted.value;
      }
      r := Ok((ops, rep));
    }

    method ImportHeader(header: Block, state: LeafState) returns (r: Result<(), Error>)
      requires Valid()
      modifies this
      ensures var op := Import(header, state, metadata);
              && (r.Ok? <==> Accepted(old(View()), op))
              && View() == Next(old(View()), op)
              && (Valid() <==> (r.Ok? ==> Safe(old(View()), op)))
    {
      ghost var before := View();
      var prepared := PrepareImport(header, state);
      ghost var op := Import(header, state, metadata);
      assert Remembered(before, op) == metadata;
      StepGoodIff(before, op);
      if prepared.Err? {
        return Err(prepared.error);
      }
      var (ops, rep) := prepared.value;
      WriteImport(header, !state.Normal?, ops);
      if state.Final? {
        WriteFinality(header, rep);
      }
      r := Ok(());
    }

    method WriteImport(header: Block, isBest: bool, ops: seq<NumberOp>)
      requires header.number > 0 && ops == if isBest then HeadOps(best, header.parent, header) else []
      modifies this`all, this`headers, this`numbers, this`best
      ensures View() == old(View()).Imported(header, isBest)
    {
      all := all + {header};
      headers, numbers := headers + {header}, Apply(numbers, ops);
      best := if isBest then header else best;
    }

    /** Writes a prepared finality change. */
    method WriteFinality(header: Block, rep: Option<Replacement>)
      modifies this`headers, this`numbers, this`chts, this`changes, this`finalized
      ensures View() == old(View()).Finalized(header, rep)
    {
      headers, numbers := headers - Gone(rep), numbers - Numbers(Gone(rep));
      chts, changes := AddTrie(chts, rep), AddRoots(changes, rep);
      finalized := header;
    }

    method SetHead(hash: Hash) returns (r: Result<(), Error>)
      requires Valid()
      modifies this`best, this`numbers, this`metadata
      ensures r.Ok? <==> hash in headers && Routed(headers + old(metadata), old(best), hash)
      ensures hash !in headers ==> View() == old(View())
      ensures hash in headers ==> View() == Next(old(View()), Op.SetHead(hash, metadata))
      ensures r.Err? ==> Valid() && r.error.UnknownBlock? && r.error.hash !in headers
      ensures r.Ok? ==>
                && (View().Exact() <==> hash == GENESIS || Shares(hash, finalized))
                && (Valid() <==> Shares(hash, finalized))
    {
      ghost var before := View();
      if hash !in headers {
        return Err(UnknownBlock(hash));
      }
      var change := SetHeadWithTransaction(hash, hash);
      ghost var op := Op.SetHead(hash, metadata);
      assert Remembered(before, op) == metadata;
      MetadataIsSeparate(before, metadata);
      if change.Err? {
        return Err(change.error);
      }
      before.HeadedExactIff(hash);
      MetadataIsSeparate(before.Headed(hash), metadata);
      WriteHead(hash, change.value);
      r := Ok(());
    }

    method WriteHead(to: Block, ops: seq<NumberOp>)
      requires ops == HeadOps(best, to, to)
      modifies this`best, this`numbers
      ensures View() == old(View()).Headed(to)
    {
      numbers, best := Apply(numbers, ops), to;
    }

    method FinalizeHeader(hash: Hash) returns (r: Result<(), Error>)
      requires Valid()
      modifies this`headers, this`numbers, this`chts, this`changes, this`finalized
      ensures r.Ok? <==> hash in old(headers) && hash.number > 0 && hash.parent == old(finalized) && Ready(best, hash)
      ensures r.Err? ==> View() == old(View())
      ensures r.Ok? ==>
                && View() == old(View()).Finalized(hash, Replacing(best, hash))
                && (View().Exact() <==> Below(best, hash)) && (Valid() <==> Below(best, hash))
    {
      if hash !in headers {
        return Err(UnknownBlock(hash));
      }
      var noted := NoteFinalized(hash);
      if noted.Err? {
        return Err(noted.error);
      }
      View().FinalizedExactIff(best, hash);
      View().FinalizedGoodIff(best, hash);
      WriteFinality(hash, noted.value);
      r := Ok(());
    }

    /** The trie root that stands for a pruned header.  Asked with another trie size, the
        answer is the root of whatever trie starts where a range of that size would. */
    method HeaderChtRoot(chtSize: nat, block: nat) returns (r: Result<seq<(nat, Block)>, Error>)
      requires Valid() && chtSize > 0
      ensures r.Ok? <==> block > 0 && TrieStart(finalized.number, ChtStart(chtSize, block))
      ensures r.Ok? ==> var start := ChtStart(chtSize, block);
                        start + SIZE <= finalized.number + 1 && r.value == Range(finalized, start)
      ensures chtSize == SIZE ==> (r.Ok? <==> 1 <= block <= PrunedTo(finalized.number))
      ensures chtSize == SIZE && r.Ok? ==>
                && block <= finalized.number && |r.value| == SIZE
                && r.value[(block - 1) % SIZE] == (block, AncestorAt(finalized, block))
    {
      r := ReadChtRoot(chts, chtSize, block);
      if r.Ok? {
        TrieStartRange(finalized.number, ChtStart(chtSize, block));
      }
      if chtSize == SIZE && block > 0 {
        PrunedIffTrie(finalized.number, block);
        if block <= PrunedTo(finalized.number) {
          TrieHolds(finalized, block);
        }
      }
    }

    /** The root of the changes tries of a pruned header's range, where one was stored. */
    method ChangesTrieChtRoot(chtSize: nat, block: nat) returns (r: Result<seq<(nat, nat)>, Error>)
      requires Valid() && chtSize > 0
      ensures r.Ok? <==> block > 0 && ChtStart(chtSize, block) in changes
      ensures r.Ok? ==> var start := ChtStart(chtSize, block);
                        start + SIZE <= finalized.number + 1 && ListsRoots(r.value, finalized, start)
      ensures chtSize == SIZE ==> (r.Ok? <==> 1 <= block <= PrunedTo(finalized.number) && Triggered(finalized, block))
      ensures chtSize == SIZE && r.Ok? ==>
                && |r.value| == SIZE && r.value[(block - 1) % SIZE].0 == block
                && AncestorAt(finalized, block).content.changesTrieRoot == Some(r.value[(block - 1) % SIZE].1)
    {
      if block > 0 {
        StoredRoots(changes, finalized, ChtStart(chtSize, block));
        ChangesAt(changes, finalized, block);
      }
      r := ReadChtRoot(changes, chtSize, block);
    }
  }

  /** Above the pruned numbers the index finds exactly the best chain. */
  lemma FoundIsBest(s: State, start: nat)
    requires s.Good() && PrunedTo(s.finalized.number) < start
    ensures Along(Found(s.headers, s.numbers), s.best, start)
  {
    forall n: nat | start <= n <= s.best.number ensures AncestorAt(s.best, n) in s.headers {
      AncestorInTree(s.all, s.best, n);
    }
  }
}
