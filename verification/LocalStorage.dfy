/** Offchain local storage: compare-and-set under per-key locks that are created on demand
    and dropped when the last caller leaves, as interleaved steps of any number of threads. */
module LocalStorage {
  import opened Wrappers

  type Bytes = seq<bv8>
  type Thread = nat
  type LockId = nat

  // One call, executed alone

  datatype Request =
    | CompareAndSet(key: Bytes, expected: Option<Bytes>, new_: Bytes)
    | Get(key: Bytes)
    | Set(key: Bytes, value: Bytes)

  datatype Answer = IsSet(set_: bool) | Found(value: Option<Bytes>) | Stored

  type Store = map<Bytes, Bytes>

  function Lookup(db: Store, k: Bytes): Option<Bytes>
  {
    if k in db then Some(db[k]) else None
  }

  /** The atomic meaning of each request. */
  function Serve(db: Store, r: Request): (Store, Answer)
  {
    match r
    case CompareAndSet(k, expected, v) =>
      if Lookup(db, k) == expected then (db[k := v], IsSet(true)) else (db, IsSet(false))
    case Get(k) => (db, Found(Lookup(db, k)))
    case Set(k, v) => (db[k := v], Stored)
  }

  datatype Event = Event(thread: Thread, request: Request, answer: Answer)

  function After(db: Store, log: seq<Event>): Store
  {
    if log == [] then db else Serve(After(db, log[..|log| - 1]), log[|log| - 1].request).0
  }

  /** Executing the requests one at a time in log order gives the logged answers. */
  predicate Legal(db: Store, log: seq<Event>)
  {
    log == [] ||
    (Legal(db, log[..|log| - 1]) &&
     log[|log| - 1].answer == Serve(After(db, log[..|log| - 1]), log[|log| - 1].request).1)
  }

  // What a legal history means

  /** The event stored a value under the key. */
  predicate Writes(e: Event, k: Bytes)
  {
    || (e.request.Set? && e.request.key == k)
    || (e.request.CompareAndSet? && e.request.key == k && e.answer == IsSet(true))
  }

  function Written(e: Event, k: Bytes): Bytes
    requires Writes(e, k)
  {
    if e.request.Set? then e.request.value else e.request.new_
  }

  /** Before position `p` of the log the key holds what the latest event wrote to it, or the
      initial store's value when none did. */
  ghost predicate Current(db0: Store, log: seq<Event>, p: nat, k: Bytes, v: Option<Bytes>)
    requires p <= |log|
  {
    || (exists q :: 0 <= q < p && Writes(log[q], k) && v == Some(Written(log[q], k)) && Untouched(log, q + 1, p, k))
    || (Untouched(log, 0, p, k) && v == Lookup(db0, k))
  }

  ghost predicate Untouched(log: seq<Event>, from: nat, to_: nat, k: Bytes)
    requires to_ <= |log|
  {
    forall r :: from <= r < to_ ==> !Writes(log[r], k)
  }

  /** A read answers the current value, a compare-and-set whether that is the expected one. */
  ghost predicate AnswersCurrent(db0: Store, log: seq<Event>, p: nat)
    requires p < |log|
  {
    match log[p].request
    case Get(k) => exists v :: Current(db0, log, p, k, v) && log[p].answer == Found(v)
    case CompareAndSet(k, expected, _) => exists v :: Current(db0, log, p, k, v) && log[p].answer == IsSet(v == expected)
    case Set(_, _) => log[p].answer == Stored
  }

  lemma CurrentIsUnique(db0: Store, log: seq<Event>, p: nat, k: Bytes, v: Option<Bytes>, w: Option<Bytes>)
    requires p <= |log| && Current(db0, log, p, k, v) && Current(db0, log, p, k, w)
    ensures v == w
  {
  }

  lemma CurrentSnoc(db0: Store, log: seq<Event>, e: Event, k: Bytes, v: Option<Bytes>)
    requires Current(db0, log, |log|, k, v)
    ensures Current(db0, log + [e], |log|, k, v)
    ensures Current(db0, log + [e], |log| + 1, k, if Writes(e, k) then Some(Written(e, k)) else v)
  {
    var l := log + [e];
    assert l[|log|] == e && forall i :: 0 <= i < |log| ==> l[i] == log[i];
    assert Untouched(log, 0, |log|, k) <==> Untouched(l, 0, |log|, k);
    forall q: nat | q <= |log| ensures Untouched(log, q, |log|, k) <==> Untouched(l, q, |log|, k) {
    }
    if Writes(e, k) {
      assert Writes(l[|log|], k) && Untouched(l, |log| + 1, |log| + 1, k);
    } else if Untouched(log, 0, |log|, k) && v == Lookup(db0, k) {
      assert Untouched(l, 0, |log| + 1, k);
    } else {
      var q :| 0 <= q < |log| && Writes(log[q], k) && v == Some(Written(log[q], k)) && Untouched(log, q + 1, |log|, k);
      assert Writes(l[q], k) && Untouched(l, q + 1, |log| + 1, k);
    }
  }

  /** The store a legal history leaves holds, under every key, what the latest event wrote. */
  lemma {:induction false} AfterIsCurrent(db0: Store, log: seq<Event>, k: Bytes)
    requires Legal(db0, log)
    ensures Current(db0, log, |log|, k, Lookup(After(db0, log), k))
    decreases |log|
  {
    if log != [] {
      var init, e := log[..|log| - 1], log[|log| - 1];
      AfterIsCurrent(db0, init, k);
      CurrentSnoc(db0, init, e, k, Lookup(After(db0, init), k));
      assert log == init + [e];
    }
  }

  lemma CurrentInPrefix(db0: Store, log: seq<Event>, n: nat, p: nat, k: Bytes, v: Option<Bytes>)
    requires p <= n <= |log| && Current(db0, log[..n], p, k, v)
    ensures Current(db0, log, p, k, v)
  {
    assert forall i :: 0 <= i < n ==> log[..n][i] == log[i];
    if Untouched(log[..n], 0, p, k) && v == Lookup(db0, k) {
      assert Untouched(log, 0, p, k);
    } else {
      var q :| 0 <= q < p && Writes(log[..n][q], k) && v == Some(Written(log[..n][q], k)) && Untouched(log[..n], q + 1, p, k);
      assert Writes(log[q], k) && Untouched(log, q + 1, p, k);
    }
  }

  /** Every answer in a legal history is the right one for what was written before it. */
  lemma {:induction false} AnswersAreCurrent(db0: Store, log: seq<Event>, p: nat)
    requires Legal(db0, log) && p < |log|
    ensures AnswersCurrent(db0, log, p)
    decreases |log|
  {
    var n := |log| - 1;
    if p == n {
      var k := log[p].request.key;
      AfterIsCurrent(db0, log[..n], k);
      CurrentInPrefix(db0, log, n, p, k, Lookup(After(db0, log[..n]), k));
    } else {
      AnswersAreCurrent(db0, log[..n], p);
      var k := log[p].request.key;
      forall v | Current(db0, log[..n], p, k, v) ensures Current(db0, log, p, k, v) {
        CurrentInPrefix(db0, log, n, p, k, v);
      }
    }
  }

  lemma LegalMeansCurrent(db0: Store, log: seq<Event>)
    requires Legal(db0, log)
    ensures forall p :: 0 <= p < |log| ==> AnswersCurrent(db0, log, p)
    ensures forall k :: Current(db0, log, |log|, k, Lookup(After(db0, log), k))
  {
    forall p | 0 <= p < |log| ensures AnswersCurrent(db0, log, p) {
      AnswersAreCurrent(db0, log, p);
    }
    forall k ensures Current(db0, log, |log|, k, Lookup(After(db0, log), k)) {
      AfterIsCurrent(db0, log, k);
    }
  }

  // The protocol

  /** Where a call is.  From `Waiting` to `Released` it holds a clone of its key's lock; from
      `Locked` to `Decided` it also holds the lock. */
  datatype Pc =
    | Invoked
    | Waiting(lock: LockId)
    | Locked(lock: LockId)
    | HasRead(lock: LockId, seen: Option<Bytes>)
    | Decided(lock: LockId, answer: Answer)
    | Released(lock: LockId, answer: Answer)
    | Done(answer: Answer)
  {
    predicate Cloned() { Waiting? || Locked? || HasRead? || Decided? || Released? }
    predicate Holding() { Locked? || HasRead? || Decided? }
    predicate Answered() { Decided? || Released? || Done? }
  }

  /** A call with the log positions at which it was invoked, took effect and returned. */
  datatype Call = Call(request: Request, pc: Pc, start: nat, point: nat, end: nat)

  /** `counts` are the reference counts of the locks alive: one for the map entry and one
      for every clone. */
  datatype State = State(
    db: Store,
    locks: map<Bytes, LockId>,
    counts: map<LockId, nat>,
    holders: map<LockId, Thread>,
    nextLock: LockId,
    calls: map<Thread, Call>,
    log: seq<Event>)

  datatype Step =
    | Invoke(thread: Thread, request: Request)
    | Acquire(thread: Thread)
    | TakeLock(thread: Thread)
    | ReadValue(thread: Thread)
    | WriteValue(thread: Thread)
    | ReleaseLock(thread: Thread)
    | Cleanup(thread: Thread)
    | GetNow(thread: Thread)
    | SetNow(thread: Thread)

  /** `u` has read key `k` and not yet acted on what it read. */
  predicate Midway(s: State, u: Thread, k: Bytes)
  {
    && u in s.calls && s.calls[u].pc.HasRead?
    && s.calls[u].request.CompareAndSet? && s.calls[u].request.key == k
  }

  /** Whether the value read is the expected one. */
  predicate Matched(s: State, u: Thread)
    requires u in s.calls && s.calls[u].pc.HasRead? && s.calls[u].request.CompareAndSet?
  {
    s.calls[u].pc.seen == s.calls[u].request.expected
  }

  /** Writing `v` would leave the decision of everybody midway on the key as it is. */
  ghost predicate Undisturbing(s: State, k: Bytes, v: Bytes)
  {
    forall u :: Midway(s, u, k) ==> (Matched(s, u) <==> s.calls[u].request.expected == Some(v))
  }

  ghost predicate Enabled(s: State, step: Step)
  {
    var t := step.thread;
    match step
    case Invoke(_, _) => t !in s.calls
    case Acquire(_) => t in s.calls && s.calls[t].pc.Invoked? && s.calls[t].request.CompareAndSet?
    case TakeLock(_) => t in s.calls && s.calls[t].pc.Waiting? && s.calls[t].pc.lock !in s.holders
    case ReadValue(_) => t in s.calls && s.calls[t].pc.Locked?
    case WriteValue(_) => t in s.calls && s.calls[t].pc.HasRead? && s.calls[t].request.CompareAndSet?
    case ReleaseLock(_) => t in s.calls && s.calls[t].pc.Decided?
    case Cleanup(_) => t in s.calls && s.calls[t].pc.Released?
    case GetNow(_) => t in s.calls && s.calls[t].pc.Invoked? && s.calls[t].request.Get?
    case SetNow(_) => t in s.calls && s.calls[t].pc.Invoked? && s.calls[t].request.Set?
  }

  function Moved(s: State, t: Thread, pc: Pc): map<Thread, Call>
    requires t in s.calls
  {
    s.calls[t := s.calls[t].(pc := pc)]
  }

  function Count(s: State, l: LockId): nat
  {
    if l in s.counts then s.counts[l] else 0
  }

  /** A step that takes effect on the store and is logged. */
  function Effect(s: State, t: Thread, db: Store, answer: Answer, pc: Pc): State
    requires t in s.calls
  {
    var c := s.calls[t];
    s.(db := db,
       calls := s.calls[t := c.(pc := pc, point := |s.log|, end := |s.log| + 1)],
       log := s.log + [Event(t, c.request, answer)])
  }

  ghost function Next(s: State, step: Step): State
    requires Enabled(s, step)
  {
    var t := step.thread;
    match step
    case Invoke(_, r) => s.(calls := s.calls[t := Call(r, Invoked, |s.log|, 0, 0)])
    case Acquire(_) =>
      // under the map's mutex: find or create the entry and clone it
      var k := s.calls[t].request.key;
      if k in s.locks then
        var l := s.locks[k];
        s.(counts := s.counts[l := Count(s, l) + 1], calls := Moved(s, t, Waiting(l)))
      else
        s.(locks := s.locks[k := s.nextLock], counts := s.counts[s.nextLock := 2], nextLock := s.nextLock + 1,
           calls := Moved(s, t, Waiting(s.nextLock)))
    case TakeLock(_) =>
      var l := s.calls[t].pc.lock;
      s.(holders := s.holders[l := t], calls := Moved(s, t, Locked(l)))
    case ReadValue(_) =>
      s.(calls := Moved(s, t, HasRead(s.calls[t].pc.lock, Lookup(s.db, s.calls[t].request.key))))
    case WriteValue(_) =>
      var CompareAndSet(k, expected, v) := s.calls[t].request;
      var isSet := s.calls[t].pc.seen == expected;
      Effect(s, t, if isSet then s.db[k := v] else s.db, IsSet(isSet), Decided(s.calls[t].pc.lock, IsSet(isSet)))
    case ReleaseLock(_) =>
      var Decided(l, answer) := s.calls[t].pc;
      s.(holders := s.holders - {l}, calls := Moved(s, t, Released(l, answer)))
    case Cleanup(_) =>
      // under the map's mutex: drop the clone, then drop the entry if it is the last reference
      var Released(l, answer) := s.calls[t].pc;
      var k := s.calls[t].request.key;
      var counts := s.counts[l := if Count(s, l) > 0 then Count(s, l) - 1 else 0];
      var calls := s.calls[t := s.calls[t].(pc := Done(answer), end := |s.log|)];
      if k in s.locks && s.locks[k] in counts && counts[s.locks[k]] == 1 then
        s.(locks := s.locks - {k}, counts := counts - {s.locks[k]}, calls := calls)
      else
        s.(counts := counts, calls := calls)
    case GetNow(_) =>
      var found := Found(Lookup(s.db, s.calls[t].request.key));
      Effect(s, t, s.db, found, Done(found))
    case SetNow(_) =>
      Effect(s, t, s.db[s.calls[t].request.key := s.calls[t].request.value], Stored, Done(Stored))
  }

  // The invariant

  /** The callers of `k` that hold a clone of its lock. */
  ghost function InFlight(s: State, k: Bytes): set<Thread>
  {
    set t | t in s.calls && s.calls[t].pc.Cloned() && s.calls[t].request.key == k
  }

  /** A caller in flight holds the lock the map has for its key. */
  predicate HasMapLock(s: State, c: Call)
  {
    c.pc.Cloned() ==>
      c.request.CompareAndSet? && c.request.key in s.locks && s.locks[c.request.key] == c.pc.lock
  }

  ghost predicate OneLockPerKey(s: State)
  {
    && (forall t :: t in s.calls ==> HasMapLock(s, s.calls[t]))
    && (forall k :: k in s.locks ==> s.locks[k] < s.nextLock)
    && (forall j, k :: j in s.locks && k in s.locks && s.locks[j] == s.locks[k] ==> j == k)
  }

  /** Reference counts are exact, and an entry exists only while somebody is in flight. */
  ghost predicate CountExact(s: State, k: Bytes)
    requires k in s.locks
  {
    && s.locks[k] in s.counts
    && s.counts[s.locks[k]] == 1 + |InFlight(s, k)|
    && InFlight(s, k) != {}
  }

  ghost predicate CountsExact(s: State)
  {
    forall k :: k in s.locks ==> CountExact(s, k)
  }

  ghost predicate Exclusive(s: State)
  {
    forall t :: t in s.calls && s.calls[t].pc.Holding() ==>
      s.calls[t].pc.lock in s.holders && s.holders[s.calls[t].pc.lock] == t
  }

  /** What a caller midway is going to do is still right for the store as it is. */
  ghost predicate DecisionsCurrent(s: State)
  {
    forall u :: u in s.calls && Midway(s, u, s.calls[u].request.key) ==>
      (Matched(s, u) <==> s.calls[u].request.expected == Lookup(s.db, s.calls[u].request.key))
  }

  /** An answered call is in the log between its invocation and its return. */
  predicate InLog(log: seq<Event>, t: Thread, c: Call)
  {
    && c.start <= |log|
    && (c.pc.Answered() ==> c.start <= c.point < |log| && log[c.point] == Event(t, c.request, c.pc.answer))
    && (c.pc.Done? ==> c.point < c.end <= |log|)
  }

  /** The log is a legal sequential history of the store, and each answered call is in it
      exactly once. */
  ghost predicate Linearized(s: State, db0: Store)
  {
    && Legal(db0, s.log) && s.db == After(db0, s.log)
    && (forall t :: t in s.calls ==> InLog(s.log, t, s.calls[t]))
    && (forall p :: 0 <= p < |s.log| ==>
          s.log[p].thread in s.calls && s.calls[s.log[p].thread].pc.Answered() && s.calls[s.log[p].thread].point == p)
  }

  ghost predicate Inv(s: State, db0: Store)
  {
    OneLockPerKey(s) && CountsExact(s) && Exclusive(s) && DecisionsCurrent(s) && Linearized(s, db0)
  }

  function Initial(db: Store): State
  {
    State(db, map[], map[], map[], 0, map[], [])
  }

  // Each step keeps each part

  /** Only the call of `t` differs. */
  ghost predicate OnlyMoves(s: State, s': State, t: Thread)
  {
    forall u :: u != t ==> (u in s.calls <==> u in s'.calls) && (u in s.calls ==> s.calls[u] == s'.calls[u])
  }

  lemma InFlightUnchanged(s: State, s': State, t: Thread, k: Bytes)
    requires OnlyMoves(s, s', t)
    requires (t in InFlight(s, k)) <==> (t in InFlight(s', k))
    ensures InFlight(s', k) == InFlight(s, k)
  {
  }

  lemma AcquireKeepsLocks(s: State, t: Thread)
    requires OneLockPerKey(s) && CountsExact(s) && Enabled(s, Acquire(t))
    ensures OneLockPerKey(Next(s, Acquire(t)))
  {
    var s' := Next(s, Acquire(t));
    var k := s.calls[t].request.key;
    if k in s.locks {
      assert CountExact(s, k);
    }
    forall u | u in s'.calls ensures HasMapLock(s', s'.calls[u]) {
      assert u != t ==> HasMapLock(s, s.calls[u]);
    }
  }

  lemma NobodyWithoutEntry(s: State, k: Bytes)
    requires OneLockPerKey(s) && k !in s.locks
    ensures InFlight(s, k) == {}
  {
    forall u | u in s.calls ensures u !in InFlight(s, k) {
      assert HasMapLock(s, s.calls[u]);
    }
  }

  lemma AcquireJoins(s: State, t: Thread)
    requires Enabled(s, Acquire(t))
    ensures var s', k := Next(s, Acquire(t)), s.calls[t].request.key;
            && OnlyMoves(s, s', t) && t !in InFlight(s, k) && InFlight(s', k) == InFlight(s, k) + {t}
            && (forall j :: j != k ==> InFlight(s', j) == InFlight(s, j))
  {
    var s', k := Next(s, Acquire(t)), s.calls[t].request.key;
    forall j | j != k ensures InFlight(s', j) == InFlight(s, j) {
      InFlightUnchanged(s, s', t, j);
    }
  }

  lemma AcquireKeepsCounts(s: State, t: Thread)
    requires OneLockPerKey(s) && CountsExact(s) && Enabled(s, Acquire(t))
    ensures CountsExact(Next(s, Acquire(t)))
  {
    var s' := Next(s, Acquire(t));
    var k := s.calls[t].request.key;
    AcquireJoins(s, t);
    forall j | j in s'.locks ensures CountExact(s', j) {
      if j == k {
        AcquireCounts(s, t);
      } else {
        assert CountExact(s, j);
      }
    }
  }

  lemma AcquireCounts(s: State, t: Thread)
    requires OneLockPerKey(s) && CountsExact(s) && Enabled(s, Acquire(t))
    ensures s.calls[t].request.key in Next(s, Acquire(t)).locks && CountExact(Next(s, Acquire(t)), s.calls[t].request.key)
  {
    var k := s.calls[t].request.key;
    AcquireJoins(s, t);
    if k in s.locks {
      assert CountExact(s, k);
    } else {
      NobodyWithoutEntry(s, k);
    }
  }

  lemma CleanupKeepsCounts(s: State, t: Thread)
    requires OneLockPerKey(s) && CountsExact(s) && Enabled(s, Cleanup(t))
    ensures CountsExact(Next(s, Cleanup(t)))
    ensures s.calls[t].request.key in Next(s, Cleanup(t)).locks <==> InFlight(Next(s, Cleanup(t)), s.calls[t].request.key) != {}
  {
    var s' := Next(s, Cleanup(t));
    var k := s.calls[t].request.key;
    assert HasMapLock(s, s.calls[t]) && CountExact(s, k);
    assert t in InFlight(s, k) && InFlight(s', k) == InFlight(s, k) - {t};
    forall j | j in s'.locks && j != k ensures CountExact(s', j) {
      CleanupKeepsOthers(s, t, j);
    }
  }

  lemma CleanupKeepsOthers(s: State, t: Thread, j: Bytes)
    requires OneLockPerKey(s) && CountsExact(s) && Enabled(s, Cleanup(t))
    requires j in s.locks && j != s.calls[t].request.key
    ensures j in Next(s, Cleanup(t)).locks && CountExact(Next(s, Cleanup(t)), j)
  {
    assert HasMapLock(s, s.calls[t]) && CountExact(s, j) && CountExact(s, s.calls[t].request.key);
    InFlightUnchanged(s, Next(s, Cleanup(t)), t, j);
  }

  lemma CleanupKeepsLocks(s: State, t: Thread)
    requires OneLockPerKey(s) && CountsExact(s) && Enabled(s, Cleanup(t))
    ensures OneLockPerKey(Next(s, Cleanup(t)))
  {
    var s' := Next(s, Cleanup(t));
    CleanupKeepsCounts(s, t);
    forall u | u in s'.calls ensures HasMapLock(s', s'.calls[u]) {
      if u != t && s'.calls[u].pc.Cloned() {
        assert HasMapLock(s, s.calls[u]);
        if s.calls[u].request.key == s.calls[t].request.key {
          assert u in InFlight(s', s.calls[t].request.key);
        }
      }
    }
  }

  /** The call of `t` keeps its clone, or its lack of one. */
  ghost predicate SameClone(s: State, s': State, t: Thread)
  {
    && s'.locks == s.locks && s'.counts == s.counts && s'.nextLock == s.nextLock
    && t in s'.calls
    && if t in s.calls then
         && s'.calls[t].request == s.calls[t].request
         && (s'.calls[t].pc.Cloned() <==> s.calls[t].pc.Cloned())
         && (s.calls[t].pc.Cloned() ==> s'.calls[t].pc.lock == s.calls[t].pc.lock)
       else !s'.calls[t].pc.Cloned()
  }

  lemma SameCloneKeeps(s: State, s': State, t: Thread)
    requires OneLockPerKey(s) && CountsExact(s) && OnlyMoves(s, s', t) && SameClone(s, s', t)
    ensures OneLockPerKey(s') && CountsExact(s')
  {
    forall u | u in s'.calls ensures HasMapLock(s', s'.calls[u]) {
      if u in s.calls {
        assert HasMapLock(s, s.calls[u]);
      }
    }
    forall k | k in s'.locks ensures CountExact(s', k) {
      assert CountExact(s, k);
      InFlightUnchanged(s, s', t, k);
    }
  }

  lemma StepKeepsLocks(s: State, step: Step)
    requires OneLockPerKey(s) && CountsExact(s) && Enabled(s, step)
    ensures var s' := Next(s, step); OneLockPerKey(s') && CountsExact(s')
  {
    if step.Acquire? {
      AcquireKeepsLocks(s, step.thread);
      AcquireKeepsCounts(s, step.thread);
    } else if step.Cleanup? {
      CleanupKeepsLocks(s, step.thread);
      CleanupKeepsCounts(s, step.thread);
    } else {
      SameCloneKeeps(s, Next(s, step), step.thread);
    }
  }

  lemma StepKeepsExclusive(s: State, step: Step)
    requires OneLockPerKey(s) && Exclusive(s) && Enabled(s, step)
    ensures Exclusive(Next(s, step))
  {
  }

  /** Two callers on one key never both hold its lock. */
  lemma SameKeySameLock(s: State, t: Thread, u: Thread)
    requires OneLockPerKey(s) && Exclusive(s)
    requires t in s.calls && u in s.calls && s.calls[t].pc.Holding() && s.calls[u].pc.Holding()
    requires s.calls[t].request.key == s.calls[u].request.key
    ensures t == u
  {
    assert HasMapLock(s, s.calls[t]) && HasMapLock(s, s.calls[u]);
  }

  lemma StepKeepsDecisions(s: State, step: Step)
    requires OneLockPerKey(s) && Exclusive(s) && DecisionsCurrent(s) && Enabled(s, step) && !step.SetNow?
    ensures DecisionsCurrent(Next(s, step))
  {
    var s', t := Next(s, step), step.thread;
    forall u | u in s'.calls && Midway(s', u, s'.calls[u].request.key)
      ensures Matched(s', u) <==> s'.calls[u].request.expected == Lookup(s'.db, s'.calls[u].request.key)
    {
      if u != t {
        assert s'.calls[u] == s.calls[u] && Midway(s, u, s.calls[u].request.key);
        if step.WriteValue? && s.calls[u].request.key == s.calls[t].request.key {
          SameKeySameLock(s, t, u);
        }
      }
    }
  }

  /** A plain write takes no key lock: it keeps all pending decisions right exactly when it
      disturbs none of them. */
  lemma PlainSetKeepsIff(s: State, t: Thread)
    requires DecisionsCurrent(s) && Enabled(s, SetNow(t))
    ensures DecisionsCurrent(Next(s, SetNow(t))) <==> Undisturbing(s, s.calls[t].request.key, s.calls[t].request.value)
  {
    var s', k, v := Next(s, SetNow(t)), s.calls[t].request.key, s.calls[t].request.value;
    forall u ensures Midway(s', u, k) <==> Midway(s, u, k) {
      assert u != t ==> (u in s'.calls <==> u in s.calls);
    }
    if DecisionsCurrent(s') {
      forall u | Midway(s, u, k) ensures Matched(s, u) <==> s.calls[u].request.expected == Some(v) {
        assert s'.calls[u] == s.calls[u] && Midway(s', u, k);
      }
    }
    if Undisturbing(s, k, v) {
      forall u | u in s'.calls && Midway(s', u, s'.calls[u].request.key)
        ensures Matched(s', u) <==> s'.calls[u].request.expected == Lookup(s'.db, s'.calls[u].request.key)
      {
        assert s'.calls[u] == s.calls[u] && Midway(s, u, s.calls[u].request.key);
      }
    }
  }

  lemma EffectKeepsLog(s: State, db0: Store, t: Thread, db: Store, answer: Answer, pc: Pc)
    requires Linearized(s, db0) && t in s.calls && !s.calls[t].pc.Answered()
    requires (db, answer) == Serve(s.db, s.calls[t].request)
    requires pc.Answered() && pc.answer == answer
    ensures Linearized(Effect(s, t, db, answer, pc), db0)
  {
    var s' := Effect(s, t, db, answer, pc);
    assert s'.log[..|s'.log| - 1] == s.log;
    forall u | u in s'.calls ensures InLog(s'.log, u, s'.calls[u]) {
      assert InLog(s.log, u, s.calls[u]);
    }
  }

  lemma QuietKeepsLog(s: State, s': State, db0: Store, t: Thread)
    requires Linearized(s, db0) && OnlyMoves(s, s', t) && s'.db == s.db && s'.log == s.log
    requires t in s'.calls && InLog(s.log, t, s'.calls[t])
    requires t in s.calls && s.calls[t].pc.Answered() ==> s'.calls[t].pc.Answered() && s'.calls[t].point == s.calls[t].point
    ensures Linearized(s', db0)
  {
    forall u | u in s'.calls ensures InLog(s'.log, u, s'.calls[u]) {
      assert u != t ==> InLog(s.log, u, s.calls[u]);
    }
  }

  lemma SilentStepKeepsLog(s: State, db0: Store, step: Step)
    requires Linearized(s, db0) && Enabled(s, step) && !step.WriteValue? && !step.GetNow? && !step.SetNow?
    ensures Linearized(Next(s, step), db0)
  {
    var s', t := Next(s, step), step.thread;
    if t in s.calls {
      assert InLog(s.log, t, s.calls[t]);
      assert s'.calls[t].request == s.calls[t].request;
    }
    QuietKeepsLog(s, s', db0, t);
  }

  lemma StepKeepsLog(s: State, db0: Store, step: Step)
    requires Linearized(s, db0) && DecisionsCurrent(s) && Enabled(s, step)
    ensures Linearized(Next(s, step), db0)
  {
    var t := step.thread;
    if step.WriteValue? {
      var CompareAndSet(k, expected, v) := s.calls[t].request;
      var isSet := s.calls[t].pc.seen == expected;
      assert Midway(s, t, k);
      EffectKeepsLog(s, db0, t, if isSet then s.db[k := v] else s.db, IsSet(isSet), Decided(s.calls[t].pc.lock, IsSet(isSet)));
    } else if step.GetNow? {
      var found := Found(Lookup(s.db, s.calls[t].request.key));
      EffectKeepsLog(s, db0, t, s.db, found, Done(found));
    } else if step.SetNow? {
      EffectKeepsLog(s, db0, t, s.db[s.calls[t].request.key := s.calls[t].request.value], Stored, Done(Stored));
    } else {
      SilentStepKeepsLog(s, db0, step);
    }
  }

  // A plain write against one caller midway

  /** A caller's write leaves a legal log exactly when its decision is right for the store. */
  lemma WriteLegalIff(s: State, db0: Store, u: Thread)
    requires Linearized(s, db0) && Enabled(s, WriteValue(u))
    ensures Linearized(Next(s, WriteValue(u)), db0) <==>
            (Matched(s, u) <==> s.calls[u].request.expected == Lookup(s.db, s.calls[u].request.key))
  {
    var CompareAndSet(k, expected, v) := s.calls[u].request;
    var isSet, s' := Matched(s, u), Next(s, WriteValue(u));
    assert s'.log[..|s'.log| - 1] == s.log;
    if isSet <==> expected == Lookup(s.db, k) {
      EffectKeepsLog(s, db0, u, if isSet then s.db[k := v] else s.db, IsSet(isSet), Decided(s.calls[u].pc.lock, IsSet(isSet)));
    }
  }

  /** The log a plain write by `t` and then the write of `u` leave is legal exactly when the
      plain write does not disturb the decision of `u`. */
  lemma DisturbedWriteIff(s: State, db0: Store, t: Thread, u: Thread)
    requires Inv(s, db0) && Enabled(s, SetNow(t)) && Midway(s, u, s.calls[t].request.key)
    ensures var s1 := Next(s, SetNow(t));
            && Enabled(s1, WriteValue(u))
            && (Linearized(Next(s1, WriteValue(u)), db0) <==>
                  (Matched(s, u) <==> s.calls[u].request.expected == Some(s.calls[t].request.value)))
  {
    var s1 := Next(s, SetNow(t));
    StepKeepsLog(s, db0, SetNow(t));
    assert s1.calls[u] == s.calls[u];
    assert Lookup(s1.db, s.calls[t].request.key) == Some(s.calls[t].request.value);
    WriteLegalIff(s1, db0, u);
  }

  /** Two requests served one after the other from `db` give these answers and this store. */
  predicate Explains(db: Store, first: Event, second: Event, result: Store)
  {
    var (db1, a1) := Serve(db, first.request);
    Serve(db1, second.request) == (result, second.answer) && a1 == first.answer
  }

  /** Allowing the two calls to be taken in either order, they are atomic exactly when the
      caller was not going to write, or the plain write left the expected value or the very
      value the caller writes. */
  lemma EitherOrderIff(s: State, db0: Store, t: Thread, u: Thread)
    requires Inv(s, db0) && Enabled(s, SetNow(t)) && Midway(s, u, s.calls[t].request.key)
    ensures var s1 := Next(s, SetNow(t));
            && Enabled(s1, WriteValue(u))
            && var s2 := Next(s1, WriteValue(u));
            var plain, cas := s2.log[|s.log|], s2.log[|s.log| + 1];
            var CompareAndSet(_, expected, new_) := s.calls[u].request;
            Explains(s.db, plain, cas, s2.db) || Explains(s.db, cas, plain, s2.db) <==>
            (Matched(s, u) ==> expected == Some(s.calls[t].request.value) || new_ == s.calls[t].request.value)
  {
    var s1 := Next(s, SetNow(t));
    assert s1.calls[u] == s.calls[u];
    var CompareAndSet(k, expected, new_) := s.calls[u].request;
    var v, db := s.calls[t].request.value, s.db;
    assert db[k := v][k := new_] == db[k := new_];
    assert db[k := new_][k := v] == db[k := v];
    assert db[k := v][k] == v && db[k := new_][k] == new_;
  }

  // Whole runs

  /** Steps that can be taken one after the other. */
  ghost predicate Possible(s: State, steps: seq<Step>)
    decreases |steps|
  {
    steps == [] || (Enabled(s, steps[0]) && Possible(Next(s, steps[0]), steps[1..]))
  }

  ghost function Run(s: State, steps: seq<Step>): State
    requires Possible(s, steps)
    decreases |steps|
  {
    if steps == [] then s else Run(Next(s, steps[0]), steps[1..])
  }

  /** Plain writes disturb nobody midway on their key. */
  ghost predicate Undisturbed(s: State, steps: seq<Step>)
    requires Possible(s, steps)
    decreases |steps|
  {
    steps == [] || (Safe(s, steps[0]) && Undisturbed(Next(s, steps[0]), steps[1..]))
  }

  ghost predicate Safe(s: State, step: Step)
    requires Enabled(s, step)
  {
    step.SetNow? ==> Undisturbing(s, s.calls[step.thread].request.key, s.calls[step.thread].request.value)
  }

  lemma StepKeepsInv(s: State, db0: Store, step: Step)
    requires Inv(s, db0) && Enabled(s, step) && Safe(s, step)
    ensures Inv(Next(s, step), db0)
  {
    StepKeepsLocks(s, step);
    StepKeepsExclusive(s, step);
    StepKeepsLog(s, db0, step);
    if step.SetNow? {
      PlainSetKeepsIff(s, step.thread);
    } else {
      StepKeepsDecisions(s, step);
    }
  }

  lemma {:induction false} RunKeepsInv(s: State, db0: Store, steps: seq<Step>)
    requires Inv(s, db0) && Possible(s, steps) && Undisturbed(s, steps)
    ensures Inv(Run(s, steps), db0)
    decreases |steps|
  {
    if steps != [] {
      StepKeepsInv(s, db0, steps[0]);
      RunKeepsInv(Next(s, steps[0]), db0, steps[1..]);
    }
  }

  /** Every interleaving is linearizable: the answers returned are those of executing the
      logged requests one at a time, and the order respects real time. */
  lemma RunsAreLinearizable(db0: Store, steps: seq<Step>)
    requires Possible(Initial(db0), steps) && Undisturbed(Initial(db0), steps)
    ensures var s := Run(Initial(db0), steps);
            && Legal(db0, s.log) && s.db == After(db0, s.log)
            && (forall t :: t in s.calls && s.calls[t].pc.Done? ==>
                  && s.calls[t].point < |s.log|
                  && s.log[s.calls[t].point] == Event(t, s.calls[t].request, s.calls[t].pc.answer))
            && (forall t, u :: t in s.calls && u in s.calls && s.calls[t].pc.Done? && s.calls[u].pc.Done? && s.calls[t].end <= s.calls[u].start ==>
                  s.calls[t].point < s.calls[u].point)
            && (forall p, q :: 0 <= p < q < |s.log| ==> s.log[p].thread != s.log[q].thread)
            && (forall p :: 0 <= p < |s.log| ==> AnswersCurrent(db0, s.log, p))
            && (forall k :: Current(db0, s.log, |s.log|, k, Lookup(s.db, k)))
  {
    RunKeepsInv(Initial(db0), db0, steps);
    var s := Run(Initial(db0), steps);
    LegalMeansCurrent(db0, s.log);
    forall t | t in s.calls ensures InLog(s.log, t, s.calls[t]) {
    }
  }

  /** The holder of a lock is between taking and releasing it. */
  ghost predicate HoldersExact(s: State)
  {
    forall l :: l in s.holders ==>
      s.holders[l] in s.calls && s.calls[s.holders[l]].pc.Holding() && s.calls[s.holders[l]].pc.lock == l
  }

  lemma StepKeepsHolders(s: State, step: Step)
    requires HoldersExact(s) && Enabled(s, step)
    ensures HoldersExact(Next(s, step))
  {
  }

  /** Locks are kept in order by every run, whatever plain writes do. */
  lemma {:induction false} RunKeepsLocks(s: State, steps: seq<Step>)
    requires OneLockPerKey(s) && CountsExact(s) && HoldersExact(s) && Possible(s, steps)
    ensures var s' := Run(s, steps); OneLockPerKey(s') && CountsExact(s') && HoldersExact(s')
    decreases |steps|
  {
    if steps != [] {
      StepKeepsLocks(s, steps[0]);
      StepKeepsHolders(s, steps[0]);
      RunKeepsLocks(Next(s, steps[0]), steps[1..]);
    }
  }

  /** The next step of a call that is not waiting for a lock somebody holds. */
  function OwnStep(t: Thread, c: Call): Step
  {
    match c.pc
    case Invoked => if c.request.CompareAndSet? then Acquire(t) else if c.request.Get? then GetNow(t) else SetNow(t)
    case Waiting(_) => TakeLock(t)
    case Locked(_) => ReadValue(t)
    case HasRead(_, _) => WriteValue(t)
    case Decided(_, _) => ReleaseLock(t)
    case _ => Cleanup(t)
  }

  /** A call that waits for no lock somebody holds can step. */
  lemma OwnStepEnabled(s: State, t: Thread)
    requires OneLockPerKey(s) && t in s.calls && !s.calls[t].pc.Done?
    requires s.calls[t].pc.Waiting? ==> s.calls[t].pc.lock !in s.holders
    ensures Enabled(s, OwnStep(t, s.calls[t]))
  {
    assert HasMapLock(s, s.calls[t]);
  }

  /** No run deadlocks: while a call is unfinished, it or the caller it waits for can step. */
  lemma NoDeadlock(db0: Store, steps: seq<Step>, t: Thread)
    requires Possible(Initial(db0), steps)
    ensures var s := Run(Initial(db0), steps);
            t in s.calls && !s.calls[t].pc.Done? ==>
              exists u :: u in s.calls && !s.calls[u].pc.Done? && Enabled(s, OwnStep(u, s.calls[u]))
  {
    RunKeepsLocks(Initial(db0), steps);
    var s := Run(Initial(db0), steps);
    if t in s.calls && !s.calls[t].pc.Done? {
      var u := if s.calls[t].pc.Waiting? && s.calls[t].pc.lock in s.holders then s.holders[s.calls[t].pc.lock] else t;
      OwnStepEnabled(s, u);
    }
  }

  /** All callers in flight on a key hold the same lock, and the lock map has an entry
      exactly for the keys with a caller in flight, so it is empty at rest. */
  lemma LockMapIsExact(db0: Store, steps: seq<Step>)
    requires Possible(Initial(db0), steps)
    ensures var s := Run(Initial(db0), steps);
            && (forall k :: k in s.locks <==> InFlight(s, k) != {})
            && (forall k, t :: t in InFlight(s, k) ==> k in s.locks && s.calls[t].pc.lock == s.locks[k])
            && ((forall t :: t in s.calls ==> s.calls[t].pc.Invoked? || s.calls[t].pc.Done?) ==> s.locks == map[])
  {
    RunKeepsLocks(Initial(db0), steps);
    var s := Run(Initial(db0), steps);
    forall k ensures k in s.locks <==> InFlight(s, k) != {} {
      if k in s.locks {
        assert CountExact(s, k);
      } else {
        NobodyWithoutEntry(s, k);
      }
    }
    forall k, t | t in InFlight(s, k) ensures k in s.locks && s.calls[t].pc.lock == s.locks[k] {
      assert HasMapLock(s, s.calls[t]);
    }
  }

  lemma FirstStep(s: State, step: Step, rest: seq<Step>)
    requires Enabled(s, step) && Possible(Next(s, step), rest)
    ensures Possible(s, [step] + rest) && Run(s, [step] + rest) == Run(Next(s, step), rest)
  {
    assert ([step] + rest)[1..] == rest;
  }

  /** The interleaving up to the moment the caller has read the missing key. */
  lemma ReadsMissingKey(k: Bytes, rest: seq<Step>) returns (steps: seq<Step>)
    requires Possible(Midwrite(k), rest)
    ensures Possible(Initial(map[]), steps) && Run(Initial(map[]), steps) == Run(Midwrite(k), rest)
  {
    var s0 := Initial(map[]);
    var s1 := Next(s0, Invoke(0, CompareAndSet(k, None, [1])));
    var s2 := Next(s1, Acquire(0));
    var s3 := Next(s2, TakeLock(0));
    assert Next(s3, ReadValue(0)) == Midwrite(k);
    FirstStep(s3, ReadValue(0), rest);
    FirstStep(s2, TakeLock(0), [ReadValue(0)] + rest);
    FirstStep(s1, Acquire(0), [TakeLock(0)] + ([ReadValue(0)] + rest));
    FirstStep(s0, Invoke(0, CompareAndSet(k, None, [1])), [Acquire(0)] + ([TakeLock(0)] + ([ReadValue(0)] + rest)));
    steps := [Invoke(0, CompareAndSet(k, None, [1]))] + ([Acquire(0)] + ([TakeLock(0)] + ([ReadValue(0)] + rest)));
  }

  function Midwrite(k: Bytes): State
  {
    State(map[], map[k := 0], map[0 := 2], map[0 := 0], 1,
          map[0 := Call(CompareAndSet(k, None, [1]), HasRead(0, None), 0, 0, 0)], [])
  }

  /** A plain write between a caller's read and its write: the caller is told it succeeded,
      and no order of the two calls explains both the answer and the final store. */
  lemma PlainSetCanBreakAtomicity(k: Bytes) returns (steps: seq<Step>)
    ensures Possible(Initial(map[]), steps)
    ensures var s := Run(Initial(map[]), steps);
            && |s.log| == 2 && s.log[1] == Event(0, CompareAndSet(k, None, [1]), IsSet(true))
            && s.log[0] == Event(1, Set(k, [2]), Stored)
            && !Explains(map[], s.log[0], s.log[1], s.db) && !Explains(map[], s.log[1], s.log[0], s.db)
  {
    var m := Midwrite(k);
    var m1 := Next(m, Invoke(1, Set(k, [2])));
    var m2 := Next(m1, SetNow(1));
    var m3 := Next(m2, WriteValue(0));
    FirstStep(m2, WriteValue(0), []);
    FirstStep(m1, SetNow(1), [WriteValue(0)]);
    var rest := [Invoke(1, Set(k, [2]))] + ([SetNow(1)] + [WriteValue(0)]);
    FirstStep(m, Invoke(1, Set(k, [2])), [SetNow(1)] + [WriteValue(0)]);
    assert Run(m3, []) == m3;
    steps := ReadsMissingKey(k, rest);
    assert m3.db[k] == [1];
  }
}
