/** A run after which a hash read is wrong: a hash cached for the old head outlives a move
    to a fork that changed the value. */
module HashStaleness {
  import opened Wrappers
  import opened ForkTree
  import opened LruMaps
  import opened StorageCaches
  import opened CacheCoherence
  import opened CacheRuns

  const KEY: Bytes := [0]
  const OLD_HASH := ValueHash([1])
  const FORK: Block := HashOf(1, GENESIS, Content(1, None))
  const FORK_CHANGES := Changes([(KEY, Some([3]))], [])
  const FORK_MOD := BlockChanges(1, FORK, GENESIS, {KEY}, {}, false)

  function EmptyCache(): CacheState
  {
    CacheState(Lru([], 100, BytesSize, ValueSize, false), Lru([], 100, BytesSize, HashSize, false),
               Lru([], 100, ChildKeySize, ValueSize, false), [])
  }

  lemma ForkStorage()
    ensures ChildState(BlockState(map[KEY := [1]], map[]), FORK_CHANGES) == BlockState(map[KEY := [3]], map[])
  {
    var m: map<Bytes, Bytes> := map[KEY := [1]];
    assert FORK_CHANGES.top[1..] == [];
    assert Applied(m, FORK_CHANGES.top) == Write(m, KEY, Some([3]));
  }

  lemma ForkIsListed()
    ensures SyncedCache(EmptyCache(), Some(GENESIS), NOTHING_DRAINED, [], [], FORK_CHANGES, Some(FORK), Some(1), false) ==
            EmptyCache().(mods := [FORK_MOD])
  {
    SyncedNowhere(EmptyCache());
    assert KeysOf(FORK_CHANGES.top) == {KEY} by {
      assert FORK_CHANGES.top[0].0 == KEY;
    }
    assert FlatChild(FORK_CHANGES.child) == [];
    assert KeysOf(FlatChild(FORK_CHANGES.child)) == {};
    assert Inserted([], FORK_MOD) == [FORK_MOD];
  }

  lemma HashIsCached(c: CacheState, d: Drained)
    requires c == EmptyCache().(mods := [FORK_MOD]) && d == Drained([], [(KEY, Some(OLD_HASH))], [])
    ensures SyncedCache(c, Some(GENESIS), d, [], [], Changes([], []), None, None, true) ==
            c.(hashes := c.hashes.(entries := [(KEY, Some(OLD_HASH))]))
  {
    SyncedNowhere(c);
    var s := [(KEY, Some(OLD_HASH))];
    assert IndexOf(c.hashes.entries, KEY) == 0;
    assert Put(c.hashes.entries, KEY, Some(OLD_HASH), false) == s;
    assert Total(s, BytesSize, HashSize) == 33 + Total(s[1..], BytesSize, HashSize);
    assert Shrunk(s, 100, BytesSize, HashSize) == s;
    assert s[1..] == [];
    assert AddAll(c.hashes, s) == AddAll(Add(c.hashes, KEY, Some(OLD_HASH)), s[1..]);
  }

  lemma HashSurvivesMove(c: CacheState)
    requires c.mods == [FORK_MOD]
    ensures Entering(GENESIS, FORK) == [FORK] && Leaving(GENESIS, FORK) == []
    ensures Synced(c, [FORK], []).hashes == c.hashes
    ensures Synced(c, [FORK], []).mods == [FORK_MOD.(isCanon := true)]
  {
    assert Common(GENESIS, FORK) == GENESIS;
    assert Up(FORK, 0) == Up(GENESIS, 0) + [FORK] == [FORK];
    assert c.mods[0].hash == FORK;
    assert Listed(c.mods, FORK);
    var enacted: seq<Hash>, retracted: seq<Hash> := [FORK], [];
    assert FORK in SetOf(enacted);
    assert Flagged(c.mods, SetOf(enacted), SetOf(retracted)) == [FORK_MOD.(isCanon := true)];
  }

  lemma RunCons(w: World, op: Op, ops: seq<Op>)
    requires Enabled(w, op) && Runs(Step(w, op), ops)
    ensures Runs(w, [op] + ops) && Run(w, [op] + ops) == Run(Step(w, op), ops)
  {
    assert ([op] + ops)[1..] == ops;
  }

  function Start(): World
  {
    World(map[GENESIS := BlockState(map[KEY := [1]], map[])], GENESIS, EmptyCache(), map[])
  }

  function Forked(sessions: map<nat, Session>): World
  {
    World(map[GENESIS := BlockState(map[KEY := [1]], map[]), FORK := BlockState(map[KEY := [3]], map[])],
          GENESIS, EmptyCache().(mods := [FORK_MOD]), sessions)
  }

  lemma ForkStage() returns (ops: seq<Op>)
    ensures Runs(Start(), ops) && Run(Start(), ops) == Forked(map[]) && Initial(Start())
  {
    var entered := OpenState(0, GENESIS);
    var w1 := Step(Start(), entered);
    var imported := Import(0, FORK, FORK_CHANGES, false, NOTHING_DRAINED);
    ForkIsListed();
    ForkStorage();
    assert Step(w1, imported) == Forked(map[]);
    RunCons(w1, imported, []);
    RunCons(Start(), entered, [imported]);
    ops := [entered] + [imported];
  }

  lemma OldHashIsRead(w3: World)
    requires w3 == Forked(map[1 := Session(Some(GENESIS), map[], map[], map[])])
    ensures Step(w3, GetStorageHash(1, KEY)) == Forked(map[1 := Session(Some(GENESIS), map[], map[KEY := Some(OLD_HASH)], map[])])
  {
    assert !AllowedFrom(w3.cache.mods, GENESIS, Some(KEY), None);
  }

  const HASH_DRAINED := Drained([], [(KEY, Some(OLD_HASH))], [])

  lemma HashIsDrained()
    ensures DrainOf(HASH_DRAINED, Session(Some(GENESIS), map[], map[KEY := Some(OLD_HASH)], map[]))
  {
  }

  lemma OldHashIsShared(w4: World)
    requires w4 == Forked(map[1 := Session(Some(GENESIS), map[], map[KEY := Some(OLD_HASH)], map[])])
    ensures Enabled(w4, Dispose(1, HASH_DRAINED))
    ensures var w := Step(w4, Dispose(1, HASH_DRAINED));
            w == Forked(map[]).(cache := w.cache) && w.cache.hashes.entries == [(KEY, Some(OLD_HASH))] && w.cache.mods == [FORK_MOD]
  {
    HashIsDrained();
    var c := w4.cache;
    HashIsCached(c, HASH_DRAINED);
    var c' := SyncedCache(c, Some(GENESIS), HASH_DRAINED, [], [], Changes([], []), None, None, true);
    assert Step(w4, Dispose(1, HASH_DRAINED)) == w4.(cache := c', sessions := w4.sessions - {1});
    assert w4.sessions - {1} == map[];
  }

  lemma CacheStage() returns (ops: seq<Op>, w: World)
    ensures Runs(Forked(map[]), ops) && Run(Forked(map[]), ops) == w
    ensures w == Forked(map[]).(cache := w.cache) && w.cache.hashes.entries == [(KEY, Some(OLD_HASH))] && w.cache.mods == [FORK_MOD]
  {
    var entered, got := OpenState(1, GENESIS), GetStorageHash(1, KEY);
    var w3 := Step(Forked(map[]), entered);
    var w4 := Step(w3, got);
    OldHashIsRead(w3);
    var disposed := Dispose(1, HASH_DRAINED);
    OldHashIsShared(w4);
    w := Step(w4, disposed);
    RunCons(w4, disposed, []);
    RunCons(w3, got, [disposed]);
    RunCons(Forked(map[]), entered, [got] + [disposed]);
    ops := [entered] + ([got] + [disposed]);
  }

  lemma MoveStage(w: World) returns (ops: seq<Op>)
    requires w == Forked(map[]).(cache := w.cache) && w.cache.hashes.entries == [(KEY, Some(OLD_HASH))] && w.cache.mods == [FORK_MOD]
    ensures Runs(w, ops)
    ensures var w' := Run(w, ops);
            && w'.sessions == map[2 := Session(Some(FORK), map[], map[], map[])] && w'.blocks == w.blocks
            && w'.cache.hashes.entries == [(KEY, Some(OLD_HASH))] && w'.cache.mods == [FORK_MOD.(isCanon := true)]
  {
    var moved, entered := SetHead(FORK), OpenState(2, FORK);
    HashSurvivesMove(w.cache);
    var w6 := Step(w, moved);
    RunCons(w6, entered, []);
    RunCons(w, moved, [entered]);
    ops := [moved] + [entered];
  }

  lemma {:induction false} RunConcat(w: World, a: seq<Op>, b: seq<Op>)
    requires Runs(w, a) && Runs(Run(w, a), b)
    ensures Runs(w, a + b) && Run(w, a + b) == Run(Run(w, a), b)
    decreases |a|
  {
    if a == [] {
      assert a + b == b;
    } else {
      RunConcat(Step(w, a[0]), a[1..], b);
      assert (a + b)[1..] == a[1..] + b;
    }
  }

  lemma HashReadCanBeStale() returns (ops: seq<Op>)
    ensures Initial(Start()) && Runs(Start(), ops) && 2 in Run(Start(), ops).sessions
    ensures var w := Run(Start(), ops);
            var s := w.sessions[2];
            && s.block.Some? && s.block.value in w.blocks
            && ReadHash(w.cache, s, TruthOf(w, 2), KEY).value != HashAt(TruthOf(w, 2).top, KEY)
  {
    var ops1 := ForkStage();
    var ops2, w := CacheStage();
    var ops3 := MoveStage(w);
    RunConcat(Forked(map[]), ops2, ops3);
    RunConcat(Start(), ops1, ops2 + ops3);
    ops := ops1 + (ops2 + ops3);
    var w' := Run(Start(), ops);
    assert Allowed(w'.cache.mods, Some(FORK), Some(KEY), None);
    assert Lookup(w'.cache.hashes.entries, KEY) == Some(Some(OLD_HASH));
  }
}
