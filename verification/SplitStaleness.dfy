/** A run after which a value read is wrong: a final block imported beside the best chain stays
    marked canonical in the cache although its parent has become the head. */
module SplitStaleness {
  import opened Wrappers
  import opened ForkTree
  import opened LruMaps
  import opened StorageCaches
  import opened CacheCoherence
  import opened CacheRuns
  import opened HashStaleness

  const HEAD: Block := HashOf(1, GENESIS, Content(1, None))
  const MARKED: Block := HashOf(1, GENESIS, Content(2, None))
  const FINAL: Block := HashOf(2, MARKED, Content(3, None))
  const FINAL_CHANGES := Changes([(KEY, Some([3]))], [])
  const NO_CHANGES := Changes([], [])

  const HEAD_MOD := BlockChanges(1, HEAD, GENESIS, {}, {}, true)
  const MARKED_MOD := BlockChanges(1, MARKED, GENESIS, {}, {}, false)
  const FINAL_MOD := BlockChanges(2, FINAL, MARKED, {KEY}, {}, true)

  function Old(): BlockState { BlockState(map[KEY := [1]], map[]) }
  function New(): BlockState { BlockState(map[KEY := [3]], map[]) }

  lemma NothingToCommit(c: CacheState)
    ensures WithLocal(c, NOTHING_DRAINED) == c && WithChanges(c, NO_CHANGES) == c
    ensures KeysOf(NO_CHANGES.top) == {} && KeysOf(FlatChild(NO_CHANGES.child)) == {}
  {
    assert KeysOf(NO_CHANGES.top) == {};
    KeptNothing(c.hashes.entries);
  }

  lemma NothingChanges()
    ensures ChildState(Old(), NO_CHANGES) == Old()
  {
  }

  lemma FinalStorage()
    ensures ChildState(Old(), FINAL_CHANGES) == New()
  {
    var m: map<Bytes, Bytes> := map[KEY := [1]];
    assert FINAL_CHANGES.top[1..] == [];
    assert Applied(m, FINAL_CHANGES.top) == Write(m, KEY, Some([3]));
  }

  lemma Route()
    ensures Entering(HEAD, MARKED) == [MARKED] && Leaving(HEAD, MARKED) == [HEAD]
    ensures Entering(GENESIS, GENESIS) == [] && Leaving(GENESIS, GENESIS) == []
  {
    assert Common(HEAD, MARKED) == GENESIS;
    assert Up(MARKED, 0) == Up(GENESIS, 0) + [MARKED] == [MARKED];
    assert Down(HEAD, 0) == [HEAD] + Down(GENESIS, 0) == [HEAD];
  }

  // The worlds passed

  function Begun(): World
  {
    World(map[GENESIS := Old(), HEAD := Old()], HEAD, EmptyCache().(mods := [HEAD_MOD]), map[])
  }

  function Beside(): World
  {
    World(map[GENESIS := Old(), HEAD := Old(), MARKED := Old()], HEAD, EmptyCache().(mods := [HEAD_MOD, MARKED_MOD]), map[])
  }

  function SplitMods(): seq<BlockChanges>
  {
    [FINAL_MOD, HEAD_MOD.(isCanon := false), MARKED_MOD.(isCanon := true)]
  }

  function Split(value: Bytes): World
  {
    var c := EmptyCache();
    World(map[GENESIS := Old(), HEAD := Old(), MARKED := Old(), FINAL := New()], MARKED,
          c.(mods := SplitMods(), top := c.top.(entries := [(KEY, Some(value))])), map[])
  }

  lemma HeadIsCommitted()
    ensures SyncedCache(EmptyCache(), Some(GENESIS), NOTHING_DRAINED, [], [], NO_CHANGES, Some(HEAD), Some(1), true) == Begun().cache
  {
    SyncedNowhere(EmptyCache());
    NothingToCommit(EmptyCache());
    assert Inserted([], HEAD_MOD) == [HEAD_MOD];
  }

  lemma MarkedIsCommitted()
    ensures SyncedCache(Begun().cache, Some(GENESIS), NOTHING_DRAINED, [], [], NO_CHANGES, Some(MARKED), Some(1), false) == Beside().cache
  {
    SyncedNowhere(Begun().cache);
    NothingToCommit(Begun().cache);
    assert Inserted([HEAD_MOD], MARKED_MOD) == [HEAD_MOD, MARKED_MOD];
  }

  /** Moving along the route re-marks both blocks, whose changes touch no key. */
  lemma RouteSync(c: CacheState, enacted: seq<Hash>, retracted: seq<Hash>)
    requires enacted == [MARKED] && retracted == [HEAD]
    requires c.mods == [HEAD_MOD, MARKED_MOD] || c.mods == SplitMods()
    ensures AllListed(c.mods, enacted) && AllListed(c.mods, retracted)
    ensures Synced(c, enacted, retracted).top == c.top && Synced(c, enacted, retracted).child == c.child
    ensures Synced(c, enacted, retracted).hashes == c.hashes
    ensures c.mods == SplitMods() ==> Synced(c, enacted, retracted).mods == SplitMods()
    ensures c.mods == [HEAD_MOD, MARKED_MOD] ==> Synced(c, enacted, retracted).mods == SplitMods()[1..]
  {
    var n := |c.mods|;
    assert c.mods[n - 1].hash == MARKED && c.mods[n - 2].hash == HEAD;
    var gone := SetOf(enacted) + SetOf(retracted);
    assert SetOf(enacted) == {MARKED} && SetOf(retracted) == {HEAD};
    assert TopKeys(c.mods, gone) == {} && ChildKeys(c.mods, gone) == {};
    KeptNothing(c.top.entries);
    KeptNothing(c.child.entries);
    assert Flagged(c.mods, {MARKED}, {HEAD}) == if n == 2 then SplitMods()[1..] else SplitMods();
  }

  /** Adding one value of the key leaves just that value. */
  lemma OneValue(lru: Lru<Bytes, Option<Bytes>>, v: Bytes)
    requires lru == EmptyCache().top.(entries := lru.entries) && |v| == 1
    requires lru.entries == [] || (|lru.entries| == 1 && lru.entries[0].0 == KEY)
    ensures AddAll(lru, [(KEY, Some(v))]) == lru.(entries := [(KEY, Some(v))])
  {
    var s: seq<(Bytes, Option<Bytes>)> := [(KEY, Some(v))];
    assert IndexOf(lru.entries, KEY) == 0;
    assert Put(lru.entries, KEY, Some(v), false) == s;
    assert Total(s, BytesSize, ValueSize) == 2 + Total(s[1..], BytesSize, ValueSize);
    assert Shrunk(s, 100, BytesSize, ValueSize) == s;
    assert s[1..] == [];
    assert AddAll(lru, s) == AddAll(Add(lru, KEY, Some(v)), s[1..]);
  }

  lemma FinalIsCommitted(w: World)
    requires w == Beside().(sessions := w.sessions)
    ensures CommittedBest(w, FINAL, FINAL_CHANGES, NOTHING_DRAINED) == Split([3]).cache
  {
    var c := w.cache;
    Route();
    DroppedUnknown(FINAL, [MARKED]);
    RouteSync(c, [MARKED], [HEAD]);
    var c0 := Synced(c, [MARKED], [HEAD]);
    NothingToCommit(c0);
    OneValue(c0.top, [3]);
    FinalChanges(c0);
  }

  /** What the final block's changes leave of the cached values. */
  lemma FinalChanges(c: CacheState)
    requires c.hashes.entries == [] && c.mods == SplitMods()[1..]
    ensures Commit(c, 2, FINAL, MARKED, FINAL_CHANGES, true) ==
            c.(top := AddAll(c.top, [(KEY, Some([3]))]), mods := SplitMods())
  {
    assert KeysOf(FINAL_CHANGES.top) == {KEY} by {
      assert FINAL_CHANGES.top[0].0 == KEY;
    }
    assert FlatChild(FINAL_CHANGES.child) == [] && KeysOf(FlatChild(FINAL_CHANGES.child)) == {};
    assert Inserted(SplitMods()[1..], FINAL_MOD) == SplitMods();
  }

  /** The second sync leaves everything as it is: the final block stays canonical. */
  lemma SecondSync(c: CacheState)
    requires c == Split([3]).cache
    ensures Synced(c, [MARKED], [HEAD]) == c
  {
    RouteSync(c, [MARKED], [HEAD]);
  }

  lemma SplitIsEnabled(w: World, op: Op)
    requires w == Beside().(sessions := map[0 := Session(Some(MARKED), map[], map[], map[])])
    requires op == ImportSplit(0, FINAL, FINAL_CHANGES, NOTHING_DRAINED)
    ensures Enabled(w, op)
  {
    assert !OnChain(MARKED, HEAD);
  }

  lemma FinalIsSplit(w: World, op: Op)
    requires w == Beside().(sessions := map[0 := Session(Some(MARKED), map[], map[], map[])])
    requires op == ImportSplit(0, FINAL, FINAL_CHANGES, NOTHING_DRAINED)
    ensures Enabled(w, op) && Step(w, op) == Split([3])
  {
    SplitIsEnabled(w, op);
    Route();
    FinalIsCommitted(w);
    SecondSync(Split([3]).cache);
    FinalStorage();
    var w' := Step(w, op);
    assert w'.cache == Split([3]).cache;
    assert w'.blocks == Split([3]).blocks;
    assert w'.sessions == map[];
  }

  function Entered(w: World, b: Block): World
  {
    w.(sessions := w.sessions[0 := Session(Some(b), map[], map[], map[])])
  }

  lemma EnterAnd(w: World, b: Block, op: Op)
    requires b in w.blocks && 0 !in w.sessions && Enabled(Entered(w, b), op)
    ensures Runs(w, [OpenState(0, b), op]) && Run(w, [OpenState(0, b), op]) == Step(Entered(w, b), op)
  {
    RunCons(Entered(w, b), op, []);
    RunCons(w, OpenState(0, b), [op]);
    assert [OpenState(0, b)] + [op] == [OpenState(0, b), op];
  }

  lemma HeadStage() returns (ops: seq<Op>)
    ensures Runs(Start(), ops) && Run(Start(), ops) == Begun() && Initial(Start())
  {
    var op := Import(0, HEAD, NO_CHANGES, true, NOTHING_DRAINED);
    Route();
    HeadIsCommitted();
    NothingChanges();
    EnterAnd(Start(), GENESIS, op);
    ops := [OpenState(0, GENESIS), op];
    assert Step(Entered(Start(), GENESIS), op) == Begun();
  }

  lemma MarkedStage() returns (ops: seq<Op>)
    ensures Runs(Begun(), ops) && Run(Begun(), ops) == Beside()
  {
    var op := Import(0, MARKED, NO_CHANGES, false, NOTHING_DRAINED);
    MarkedIsCommitted();
    NothingChanges();
    EnterAnd(Begun(), GENESIS, op);
    ops := [OpenState(0, GENESIS), op];
    assert Step(Entered(Begun(), GENESIS), op) == Beside();
  }

  lemma SplitStage() returns (ops: seq<Op>)
    ensures Runs(Beside(), ops) && Run(Beside(), ops) == Split([3])
  {
    var op := ImportSplit(0, FINAL, FINAL_CHANGES, NOTHING_DRAINED);
    FinalIsSplit(Entered(Beside(), MARKED), op);
    EnterAnd(Beside(), MARKED, op);
    ops := [OpenState(0, MARKED), op];
  }

  function HasRead(): World
  {
    Split([3]).(sessions := map[0 := Session(Some(MARKED), map[KEY := Some([1])], map[], map[])])
  }

  const VALUE_DRAINED := Drained([(KEY, Some([1]))], [], [])

  lemma OldValueIsRead()
    ensures Runs(Split([3]), [OpenState(0, MARKED), GetStorage(0, KEY)])
    ensures Run(Split([3]), [OpenState(0, MARKED), GetStorage(0, KEY)]) == HasRead()
  {
    var w := Entered(Split([3]), MARKED);
    EnterAnd(Split([3]), MARKED, GetStorage(0, KEY));
    assert !Allowed(w.cache.mods, Some(MARKED), Some(KEY), None);
  }

  lemma OldValueIsShared()
    ensures Enabled(HasRead(), Dispose(0, VALUE_DRAINED)) && Step(HasRead(), Dispose(0, VALUE_DRAINED)) == Split([1])
  {
    var c := HasRead().cache;
    SyncedNowhere(c);
    OneValue(c.top, [1]);
    assert WithLocal(c, VALUE_DRAINED) == Split([1]).cache;
    assert HasRead().sessions - {0} == map[];
  }

  lemma ReadStage() returns (ops: seq<Op>)
    ensures Runs(Split([3]), ops) && Run(Split([3]), ops) == Split([1])
  {
    OldValueIsRead();
    OldValueIsShared();
    var disposed := Dispose(0, VALUE_DRAINED);
    RunCons(HasRead(), disposed, []);
    RunConcat(Split([3]), [OpenState(0, MARKED), GetStorage(0, KEY)], [disposed]);
    ops := [OpenState(0, MARKED), GetStorage(0, KEY)] + [disposed];
  }

  /** A state at the finalized block reads its parent's value from the cache. */
  lemma ReadCanBeStale() returns (ops: seq<Op>)
    ensures Initial(Start()) && Runs(Start(), ops) && 0 in Run(Start(), ops).sessions
    ensures var w := Run(Start(), ops);
            var s := w.sessions[0];
            && s.block == Some(FINAL) && FINAL in w.blocks
            && ReadTop(w.cache, s, TruthOf(w, 0), KEY).value == Some([1]) && Read(TruthOf(w, 0).top, KEY) == Some([3])
  {
    var ops1 := HeadStage();
    var ops2 := MarkedStage();
    var ops3 := SplitStage();
    var ops4 := ReadStage();
    var last := OpenState(0, FINAL);
    RunCons(Split([1]), last, []);
    RunConcat(Split([3]), ops4, [last]);
    RunConcat(Beside(), ops3, ops4 + [last]);
    RunConcat(Begun(), ops2, ops3 + (ops4 + [last]));
    RunConcat(Start(), ops1, ops2 + (ops3 + (ops4 + [last])));
    ops := ops1 + (ops2 + (ops3 + (ops4 + [last])));
    var w := Entered(Split([1]), FINAL);
    assert Run(Start(), ops) == w;
    assert w.cache.mods[0].hash == FINAL && w.cache.mods[0].isCanon;
    assert Lookup(w.cache.top.entries, KEY) == Some(Some([1]));
  }
}
