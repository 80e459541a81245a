/** The persisted state of a GRANDPA voter: which votes it has cast in the live rounds. */
module VoterState {
  import opened Wrappers
  import opened ForkTree
  import CompletedRounds

  type Round = nat
  type AuthorityId = nat
  type BlockVote = (Hash, nat)

  datatype Vote =
    | Propose(proposal: BlockVote)
    | Prevote(earlier: Option<BlockVote>, prevote: BlockVote)
    | Precommit(earlier: Option<BlockVote>, prevote: BlockVote, precommit: BlockVote)

  datatype HasVoted = No | Yes(id: AuthorityId, vote: Vote) {
    function Proposal(): Option<BlockVote>
    {
      match this
      case Yes(_, Propose(p)) => Some(p)
      case Yes(_, Prevote(e, _)) => e
      case Yes(_, Precommit(e, _, _)) => e
      case No => None
    }

    function CastPrevote(): Option<BlockVote>
    {
      match this
      case Yes(_, Prevote(_, v)) => Some(v)
      case Yes(_, Precommit(_, v, _)) => Some(v)
      case _ => None
    }

    function CastPrecommit(): Option<BlockVote>
    {
      if Yes? && vote.Precommit? then Some(vote.precommit) else None
    }
  }

  datatype VoterSetState =
    | Live(completed: seq<CompletedRounds.CompletedRound>, current: map<Round, HasVoted>)
    | Paused(completed: seq<CompletedRounds.CompletedRound>)

  datatype Error = PausedVoter | UntrackedRound | PrecommitBeforePrevote

  /** Round 0 completed at the given block and round 1 being tracked. */
  function Fresh(base: (Hash, nat)): VoterSetState
  {
    Live([CompletedRounds.CompletedRound(0, 0, base, [])], map[1 := No])
  }

  datatype Event =
    | Proposed(round: Round, vote: BlockVote)
    | Prevoted(round: Round, vote: BlockVote)
    | Precommitted(round: Round, vote: BlockVote)
    | Completed(round: Round, state: nat, base: (Hash, nat), seen: seq<nat>)
    | Concluded(round: Round, state: nat, seen: seq<nat>)

  /** The new voter set state an event asks for: an error, no change, or a state to persist. */
  function React(s: VoterSetState, id: Option<AuthorityId>, e: Event): Result<Option<VoterSetState>, Error>
  {
    match e
    case Completed(round, state, base, seen) =>
      if s.Paused? then Err(PausedVoter)
      else Ok(Some(Live(CompletedRounds.Pushed(s.completed, CompletedRounds.CompletedRound(round, state, base, seen)),
                        (s.current - {round})[round + 1 := No])))
    case Concluded(round, state, seen) =>
      if s.Paused? then Err(PausedVoter)
      else Ok(Some(s.(completed := CompletedRounds.Concluded(s.completed, round, state, seen))))
    case _ =>
      if id.None? then Ok(None)
      else if s.Paused? then Err(PausedVoter)
      else if e.round !in s.current then Err(UntrackedRound)
      else
        var h := s.current[e.round];
        match e
        case Proposed(round, v) =>
          if h.Proposal().Some? then Ok(None) else Ok(Some(s.(current := s.current[round := Yes(id.value, Propose(v))])))
        case Prevoted(round, v) =>
          if h.CastPrevote().Some? then Ok(None)
          else Ok(Some(s.(current := s.current[round := Yes(id.value, Prevote(h.Proposal(), v))])))
        case Precommitted(round, v) =>
          if h.CastPrecommit().Some? then Ok(None)
          else if h.Yes? && h.vote.Prevote? then
            Ok(Some(s.(current := s.current[round := Yes(id.value, Precommit(h.Proposal(), h.vote.prevote, v))])))
          else Err(PrecommitBeforePrevote)
  }

  // What an event records

  predicate IsVote(e: Event)
  {
    e.Proposed? || e.Prevoted? || e.Precommitted?
  }

  /** The vote of the event's kind in a record. */
  function CastAs(h: HasVoted, e: Event): Option<BlockVote>
    requires IsVote(e)
  {
    match e
    case Proposed(_, _) => h.Proposal()
    case Prevoted(_, _) => h.CastPrevote()
    case Precommitted(_, _) => h.CastPrecommit()
  }

  /** The round is tracked and its vote of the event's kind is the event's. */
  predicate Shows(s: VoterSetState, e: Event)
    requires IsVote(e)
  {
    s.Live? && e.round in s.current && CastAs(s.current[e.round], e) == Some(e.vote)
  }

  /** When a vote is recorded, ignored or refused. */
  lemma VoteAnswer(s: VoterSetState, id: Option<AuthorityId>, e: Event)
    requires IsVote(e)
    ensures var r := React(s, id, e);
            var tracked := s.Live? && e.round in s.current;
            && (r == Err(PausedVoter) <==> id.Some? && s.Paused?)
            && (r == Err(UntrackedRound) <==> id.Some? && s.Live? && e.round !in s.current)
            && (r == Err(PrecommitBeforePrevote) <==>
                  id.Some? && tracked && e.Precommitted? && s.current[e.round].CastPrevote().None?)
            && (r == Ok(None) <==> id.None? || (tracked && CastAs(s.current[e.round], e).Some?))
  {
  }

  /** A recorded vote is the one cast, under the voter's name; the earlier votes of the round,
      the other rounds and the completed rounds are as before. */
  lemma RecordsTheVoteCast(s: VoterSetState, id: Option<AuthorityId>, e: Event)
    requires IsVote(e) && React(s, id, e).Ok? && React(s, id, e).value.Some?
    ensures var s' := React(s, id, e).value.value;
            && id.Some? && s.Live? && e.round in s.current && Shows(s', e)
            && s'.current[e.round].Yes? && s'.current[e.round].id == id.value
            && s'.completed == s.completed && s'.current.Keys == s.current.Keys
            && (forall r :: r in s.current && r != e.round ==> s'.current[r] == s.current[r])
            && (!e.Proposed? ==> s'.current[e.round].Proposal() == s.current[e.round].Proposal())
            && (e.Precommitted? ==> s.current[e.round].CastPrevote().Some?
                                    && s'.current[e.round].CastPrevote() == s.current[e.round].CastPrevote())
            && (e.Prevoted? ==> s'.current[e.round].CastPrecommit().None?)
            && (e.Proposed? ==> s'.current[e.round].CastPrevote().None?)
  {
  }

  /** A completed round is no longer tracked, the next one is, without votes, and every other
      round is as before. */
  lemma CompletionStartsNext(s: VoterSetState, id: Option<AuthorityId>, e: Event)
    requires e.Completed? && s.Live?
    ensures var r := React(s, id, e);
            && r.Ok? && r.value.Some? && r.value.value.Live?
            && var current := r.value.value.current;
            && e.round !in current && e.round + 1 in current && current[e.round + 1] == No
            && (forall r :: r != e.round && r != e.round + 1 ==> (r in current <==> r in s.current))
            && (forall r :: r in current && r != e.round + 1 ==> current[r] == s.current[r])
  {
  }

  // What a change must preserve

  function LastRound(s: VoterSetState): Round
  {
    if s.completed == [] then 0 else s.completed[0].number
  }

  ghost predicate Valid(s: VoterSetState)
  {
    && s.Live?
    && s.completed != [] && CompletedRounds.Descending(s.completed)
    && |s.completed| <= CompletedRounds.NUM_LAST_COMPLETED_ROUNDS
    && LastRound(s) + 1 in s.current
    && forall r :: r in s.current ==> r <= LastRound(s) + 1
  }

  /** Every vote recorded in `a` is recorded unchanged in `b`. */
  predicate Extends(a: HasVoted, b: HasVoted)
  {
    && (a.Proposal().Some? ==> b.Proposal() == a.Proposal())
    && (a.CastPrevote().Some? ==> b.CastPrevote() == a.CastPrevote())
    && (a.CastPrecommit().Some? ==> b.CastPrecommit() == a.CastPrecommit())
  }

  /** A round no longer tracked and never to be tracked again. */
  predicate Finished(s: VoterSetState, r: Round)
  {
    s.Live? && r !in s.current && r <= LastRound(s)
  }

  /** Recorded votes survive while their round is tracked, and finished rounds stay so. */
  ghost predicate Keeps(a: VoterSetState, b: VoterSetState)
    requires a.Live? && b.Live?
  {
    && (forall r :: r in a.current ==> Finished(b, r) || (r in b.current && Extends(a.current[r], b.current[r])))
    && (forall r: Round :: Finished(a, r) ==> Finished(b, r))
  }

  lemma KeepsTransitive(a: VoterSetState, b: VoterSetState, c: VoterSetState)
    requires Valid(a) && Valid(b) && Valid(c) && Keeps(a, b) && Keeps(b, c)
    ensures Keeps(a, c)
  {
    forall r | r in a.current ensures Finished(c, r) || (r in c.current && Extends(a.current[r], c.current[r])) {
      if !Finished(b, r) {
        assert r in b.current;
      }
    }
  }

  /** The order the round protocol follows: rounds complete in increasing order, and a
      proposal is made before the prevote of its round. */
  predicate Disciplined(s: VoterSetState, e: Event)
  {
    match e
    case Completed(round, _, _, _) => round > LastRound(s)
    case Proposed(round, _) => s.Live? && round in s.current ==> s.current[round].CastPrevote().None? || s.current[round].Proposal().Some?
    case _ => true
  }

  lemma CompletedKeepsValid(s: VoterSetState, round: Round, r: CompletedRounds.CompletedRound)
    requires Valid(s) && round > LastRound(s) && r.number == round
    ensures Valid(Live(CompletedRounds.Pushed(s.completed, r), (s.current - {round})[round + 1 := No]))
    ensures CompletedRounds.Pushed(s.completed, r)[0].number == round
  {
    CompletedRounds.PushedCases(s.completed, r);
  }

  lemma ReactKeeps(s: VoterSetState, id: Option<AuthorityId>, e: Event)
    requires Valid(s) && Disciplined(s, e) && React(s, id, e).Ok? && React(s, id, e).value.Some?
    ensures Valid(React(s, id, e).value.value) && Keeps(s, React(s, id, e).value.value)
  {
    if e.Completed? {
      CompletedKeepsValid(s, e.round, CompletedRounds.CompletedRound(e.round, e.state, e.base, e.seen));
    } else if e.Concluded? {
      CompletedRounds.ConcludedRounds(s.completed, e.round, e.state, e.seen);
    }
  }

  /** Recording a proposal keeps all recorded votes exactly when no prevote was cast first. */
  lemma ProposalKeepsIff(s: VoterSetState, id: AuthorityId, round: Round, v: BlockVote)
    requires Valid(s) && round in s.current && s.current[round].Proposal().None?
    ensures var s' := React(s, Some(id), Proposed(round, v)).value.value;
            Keeps(s, s') <==> s.current[round].CastPrevote().None?
  {
    var s' := React(s, Some(id), Proposed(round, v)).value.value;
    if Keeps(s, s') {
      assert !Finished(s', round);
      assert Extends(s.current[round], s'.current[round]);
    }
  }

  /** Completing a round keeps all recorded votes exactly when the round after it is
      untracked and still to come, or tracked without votes. */
  lemma CompletionKeepsIff(s: VoterSetState, e: Event)
    requires Valid(s) && e.Completed?
    ensures var s' := React(s, None, e).value.value;
            && s'.Live?
            && (Keeps(s, s') <==>
                  if e.round + 1 in s.current then s.current[e.round + 1].No? else e.round + 1 > LastRound(s))
  {
    var s' := React(s, None, e).value.value;
    CompletedRounds.PushedCases(s.completed, CompletedRounds.CompletedRound(e.round, e.state, e.base, e.seen));
    var n: Round := e.round + 1;
    if Keeps(s, s') {
      if n in s.current {
        assert Extends(s.current[n], s'.current[n]);
      } else if n <= LastRound(s) {
        assert Finished(s, n);
      }
    }
  }

  /** A proposal recorded after the prevote erases it, and completing the previous round a
      second time forgets the current one's votes. */
  lemma UndisciplinedVotesAreLost(base: (Hash, nat), v: BlockVote)
    ensures var s := Live([CompletedRounds.CompletedRound(0, 0, base, [])], map[1 := Yes(0, Prevote(None, v))]);
            var late, again := React(s, Some(0), Proposed(1, v)), React(s, Some(0), Completed(0, 0, base, []));
            && React(Fresh(base), Some(0), Prevoted(1, v)) == Ok(Some(s)) && Valid(s) && s.current[1].CastPrevote() == Some(v)
            && late.Ok? && late.value.Some? && late.value.value.Live? && 1 in late.value.value.current
            && late.value.value.current[1].CastPrevote() == None
            && again.Ok? && again.value.Some? && again.value.value.Live? && 1 in again.value.value.current
            && again.value.value.current[1] == No
  {
    var s := Live([CompletedRounds.CompletedRound(0, 0, base, [])], map[1 := Yes(0, Prevote(None, v))]);
    assert s.completed[0].number == 0;
    assert Fresh(base).current[1 := Yes(0, Prevote(None, v))] == s.current;
  }

  // Runs with write failures and restarts

  /** What is in memory and what the auxiliary store holds, if anything was written yet. */
  datatype Node = Node(memory: VoterSetState, disk: Option<VoterSetState>, base: (Hash, nat))

  /** What a restart reads back: the stored state, or a fresh one on top of the genesis round. */
  function Reload(disk: Option<VoterSetState>, base: (Hash, nat)): VoterSetState
  {
    if disk.Some? then disk.value else Fresh(base)
  }

  predicate InStep(n: Node)
  {
    n.memory == Reload(n.disk, n.base)
  }

  datatype Step = Act(id: Option<AuthorityId>, event: Event, writeOk: bool) | Restart

  function Next(n: Node, step: Step): Node
  {
    match step
    case Restart => n.(memory := Reload(n.disk, n.base))
    case Act(id, e, writeOk) =>
      match React(n.memory, id, e)
      case Ok(Some(s)) => if writeOk then n.(memory := s, disk := Some(s)) else n
      case _ => n
  }

  predicate DisciplinedRun(n: Node, steps: seq<Step>)
    decreases |steps|
  {
    steps == [] ||
    ((steps[0].Act? ==> Disciplined(n.memory, steps[0].event)) && DisciplinedRun(Next(n, steps[0]), steps[1..]))
  }

  function Run(n: Node, steps: seq<Step>): Node
    decreases |steps|
  {
    if steps == [] then n else Run(Next(n, steps[0]), steps[1..])
  }

  lemma StepKeeps(n: Node, step: Step)
    requires Valid(n.memory) && InStep(n)
    requires step.Act? ==> Disciplined(n.memory, step.event)
    ensures var n' := Next(n, step);
            InStep(n') && Valid(n'.memory) && Keeps(n.memory, n'.memory)
  {
    if step.Act? && React(n.memory, step.id, step.event).Ok? && React(n.memory, step.id, step.event).value.Some? {
      ReactKeeps(n.memory, step.id, step.event);
    }
  }

  /** Over any disciplined run, with any writes failing and any restarts, a restart
      would read back the memory, recorded votes never change, and finished rounds are never tracked again. */
  lemma {:induction false} NoEquivocation(n: Node, steps: seq<Step>)
    requires Valid(n.memory) && InStep(n) && DisciplinedRun(n, steps)
    ensures var n' := Run(n, steps);
            InStep(n') && Valid(n'.memory) && Keeps(n.memory, n'.memory)
    decreases |steps|
  {
    if steps != [] {
      var n1 := Next(n, steps[0]);
      StepKeeps(n, steps[0]);
      NoEquivocation(n1, steps[1..]);
      KeepsTransitive(n.memory, n1.memory, Run(n, steps).memory);
    }
  }

  lemma {:induction false} RunConcat(n: Node, a: seq<Step>, b: seq<Step>)
    ensures Run(n, a + b) == Run(Run(n, a), b)
    ensures DisciplinedRun(n, a + b) <==> DisciplinedRun(n, a) && DisciplinedRun(Run(n, a), b)
    decreases |a|
  {
    if a == [] {
      assert a + b == b;
    } else {
      assert (a + b)[1..] == a[1..] + b;
      RunConcat(Next(n, a[0]), a[1..], b);
    }
  }

  /** From a fresh voter set, no round ever gets two different votes of one kind, however
      far apart in the run they are observed. */
  lemma VotesNeverDiffer(base: (Hash, nat), first: seq<Step>, second: seq<Step>, r: Round)
    requires DisciplinedRun(Node(Fresh(base), None, base), first + second)
    ensures var early := Run(Node(Fresh(base), None, base), first).memory;
            var late := Run(Node(Fresh(base), None, base), first + second).memory;
            && early.Live? && late.Live?
            && (r in early.current && r in late.current ==> Extends(early.current[r], late.current[r]))
            && (r in early.current && r !in late.current ==> r <= LastRound(late))
  {
    var n := Node(Fresh(base), None, base);
    RunConcat(n, first, second);
    NoEquivocation(n, first);
    NoEquivocation(Run(n, first), second);
  }

  /** A vote that was recorded is what any restart later in the run reads back, as long as its
      round is tracked, and the round is finished otherwise. */
  lemma RestartShowsTheVoteCast(base: (Hash, nat), before: seq<Step>, id: Option<AuthorityId>, e: Event, after: seq<Step>)
    requires IsVote(e) && DisciplinedRun(Node(Fresh(base), None, base), before + [Act(id, e, true)] + after)
    requires var r := React(Run(Node(Fresh(base), None, base), before).memory, id, e); r.Ok? && r.value.Some?
    ensures var n := Run(Node(Fresh(base), None, base), before + [Act(id, e, true)] + after + [Restart]);
            && n.memory.Live?
            && if e.round in n.memory.current then Shows(n.memory, e) else e.round <= LastRound(n.memory)
  {
    var n, act := Node(Fresh(base), None, base), [Act(id, e, true)];
    var early := Run(n, before);
    RunConcat(n, before + act, after);
    RunConcat(n, before, act);
    RunConcat(n, before + act + after, [Restart]);
    var written := Next(early, act[0]);
    assert Run(early, act) == written by {
      assert act[1..] == [];
    }
    NoEquivocation(n, before + act);
    RecordsTheVoteCast(early.memory, id, e);
    NoEquivocation(written, after);
    var late := Run(written, after);
    assert Run(late, [Restart]) == Next(late, Restart) by {
      assert [Restart][1..] == [];
    }
  }

  // The environment

  datatype UpdateError = Safety(error: Error) | WriteFailed

  function Outcome(reaction: Result<Option<VoterSetState>, Error>, writeOk: bool): Result<(), UpdateError>
  {
    match reaction
    case Err(e) => Err(Safety(e))
    case Ok(None) => Ok(())
    case Ok(Some(_)) => if writeOk then Ok(()) else Err(WriteFailed)
  }

  class Environment {
    var memory: VoterSetState
    var disk: Option<VoterSetState>
    /** The stored records of concluded rounds. */
    var concluded: map<Round, CompletedRounds.CompletedRound>
    const base: (Hash, nat)
    const localId: Option<AuthorityId>

    function View(): Node
      reads this
    {
      Node(memory, disk, base)
    }

    /** Reads what is stored and writes nothing. */
    constructor Load(stored: Option<VoterSetState>, concluded: map<Round, CompletedRounds.CompletedRound>,
                     base: (Hash, nat), localId: Option<AuthorityId>)
      ensures this.localId == localId && this.base == base && this.concluded == concluded
      ensures disk == stored && InStep(View())
    {
      memory, disk, this.concluded := Reload(stored, base), stored, concluded;
      this.base, this.localId := base, localId;
    }

    /** Persists first and changes memory only when the write succeeded. */
    method Update(s: VoterSetState, writeOk: bool) returns (r: Result<(), UpdateError>)
      modifies this`memory, this`disk
      ensures r == if writeOk then Ok(()) else Err(WriteFailed)
      ensures View() == if writeOk then old(View()).(memory := s, disk := Some(s)) else old(View())
    {
      if !writeOk {
        return Err(WriteFailed);
      }
      disk := Some(s);
      memory := s;
      r := Ok(());
    }

    method WithCurrentRound(round: Round) returns (r: Result<HasVoted, UpdateError>)
      ensures r.Ok? <==> memory.Live? && round in memory.current
      ensures r.Ok? ==> r.value == memory.current[round]
      ensures r.Err? ==> r.error == Safety(if memory.Paused? then PausedVoter else UntrackedRound)
    {
      if memory.Paused? {
        return Err(Safety(PausedVoter));
      }
      if round !in memory.current {
        return Err(Safety(UntrackedRound));
      }
      r := Ok(memory.current[round]);
    }

    method NoteProposed(round: Round, v: BlockVote, writeOk: bool) returns (r: Result<(), UpdateError>)
      modifies this`memory, this`disk
      ensures View() == Next(old(View()), Act(localId, Proposed(round, v), writeOk))
      ensures r == Outcome(React(old(memory), localId, Proposed(round, v)), writeOk)
      ensures r.Ok? <==>
                || localId.None?
                || (old(memory).Live? && round in old(memory).current && (old(memory.current[round].Proposal()).Some? || (writeOk)))
      ensures r.Ok? && localId.Some? ==>
                && memory.Live? && round in memory.current
                && if old(memory.current[round].Proposal()).Some? then View() == old(View())
                   else memory.current[round].Proposal() == Some(v) && disk == Some(memory)
      ensures r.Err? ==> View() == old(View())
    {
      if localId.None? {
        return Ok(());
      }
      var current := WithCurrentRound(round);
      if current.Err? {
        return Err(current.error);
      }
      if current.value.Proposal().Some? {
        return Ok(());
      }
      r := Update(memory.(current := memory.current[round := Yes(localId.value, Propose(v))]), writeOk);
    }

    method NotePrevoted(round: Round, v: BlockVote, writeOk: bool) returns (r: Result<(), UpdateError>)
      modifies this`memory, this`disk
      ensures View() == Next(old(View()), Act(localId, Prevoted(round, v), writeOk))
      ensures r == Outcome(React(old(memory), localId, Prevoted(round, v)), writeOk)
      ensures r.Ok? <==>
                || localId.None?
                || (old(memory).Live? && round in old(memory).current && (old(memory.current[round].CastPrevote()).Some? || (writeOk)))
      ensures r.Ok? && localId.Some? ==>
                && memory.Live? && round in memory.current
                && if old(memory.current[round].CastPrevote()).Some? then View() == old(View())
                   else memory.current[round].CastPrevote() == Some(v) && disk == Some(memory)
      ensures r.Err? ==> View() == old(View())
    {
      if localId.None? {
        return Ok(());
      }
      var current := WithCurrentRound(round);
      if current.Err? {
        return Err(current.error);
      }
      if current.value.CastPrevote().Some? {
        return Ok(());
      }
      var vote := Prevote(current.value.Proposal(), v);
      r := Update(memory.(current := memory.current[round := Yes(localId.value, vote)]), writeOk);
    }

    method NotePrecommitted(round: Round, v: BlockVote, writeOk: bool) returns (r: Result<(), UpdateError>)
      modifies this`memory, this`disk
      ensures View() == Next(old(View()), Act(localId, Precommitted(round, v), writeOk))
      ensures r == Outcome(React(old(memory), localId, Precommitted(round, v)), writeOk)
      ensures r.Ok? <==>
                || localId.None?
                || (old(memory).Live? && round in old(memory).current && (old(memory.current[round].CastPrecommit()).Some? || (writeOk && old(memory.current[round].CastPrevote()).Some?)))
      ensures r.Ok? && localId.Some? ==>
                && memory.Live? && round in memory.current
                && if old(memory.current[round].CastPrecommit()).Some? then View() == old(View())
                   else memory.current[round].CastPrecommit() == Some(v) && disk == Some(memory)
      ensures r.Err? ==> View() == old(View())
    {
      if localId.None? {
        return Ok(());
      }
      var current := WithCurrentRound(round);
      if current.Err? {
        return Err(current.error);
      }
      if current.value.CastPrecommit().Some? {
        return Ok(());
      }
      if !current.value.Yes? || !current.value.vote.Prevote? {
        return Err(Safety(PrecommitBeforePrevote));
      }
      var vote := Precommit(current.value.Proposal(), current.value.vote.prevote, v);
      r := Update(memory.(current := memory.current[round := Yes(localId.value, vote)]), writeOk);
    }

    /** Records a completed round, even one not tracked, and starts tracking the next. */
    method NoteCompleted(round: Round, state: nat, base: (Hash, nat), seen: seq<nat>, writeOk: bool) returns (r: Result<(), UpdateError>)
      requires CompletedRounds.Descending(memory.completed)
      modifies this`memory, this`disk
      ensures View() == Next(old(View()), Act(localId, Completed(round, state, base, seen), writeOk))
      ensures r == Outcome(React(old(memory), localId, Completed(round, state, base, seen)), writeOk)
      ensures r.Ok? <==> old(memory).Live? && writeOk
    {
      if memory.Paused? {
        return Err(Safety(PausedVoter));
      }
      var completed := CompletedRounds.Push(memory.completed, CompletedRounds.CompletedRound(round, state, base, seen));
      var current := memory.current - {round};
      r := Update(Live(completed, current[round + 1 := No]), writeOk);
    }

    /** Stores the record of the concluded round, if the window still has it, and then the
        state; either write may fail. */
    method NoteConcluded(round: Round, state: nat, seen: seq<nat>, recordOk: bool, writeOk: bool) returns (r: Result<(), UpdateError>)
      modifies this
      ensures var record := CompletedRounds.ConcludedRecord(old(memory).completed, round, state, seen);
              var ok := writeOk && (record.None? || recordOk);
              && View() == Next(old(View()), Act(localId, Concluded(round, state, seen), ok))
              && r == Outcome(React(old(memory), localId, Concluded(round, state, seen)), ok)
              && concluded == if old(memory).Live? && record.Some? && recordOk then old(concluded)[round := record.value] else old(concluded)
    {
      if memory.Paused? {
        return Err(Safety(PausedVoter));
      }
      var completed, record := CompletedRounds.Conclude(memory.completed, round, state, seen);
      if record.Some? {
        if !recordOk {
          return Err(WriteFailed);
        }
        concluded := concluded[round := record.value];
      }
      r := Update(memory.(completed := completed), writeOk);
    }
  }
}
