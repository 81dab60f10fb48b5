/** Runs that show where the hypotheses of the theorems are needed, and one that shows that they can be met. In all
    of them signatures are real: a proposal that is accepted was made by its proposer, and what no correct validator
    sent comes from a faulty replica of the thread. */
module TendermintExamples {
  import opened ThreadTypes
  import opened TendermintNode
  import opened TendermintShapes
  import opened TendermintSystem
  import opened TendermintSafety
  import opened TendermintAgreement
  import opened TendermintRuns
  import TendermintFlow
  import TendermintOutcomes
  import Chain
  import Quorums

  const HASH: Hash := "0a1b2c3d"
  const NEXT_HASH: Hash := "4e5f6071"
  const THIRD_HASH: Hash := "82930415"

  // ----- the hypotheses of the agreement theorems can be met

  const SOLO := Config("t", ["a"], 0, 1000, (c: Content) => if c.height == 1 then HASH else NEXT_HASH)
  const SELF: set<Did> := {"a"}

  /** What the run uses of `SOLO`. */
  ghost predicate SoloLike(st: Setting) {
    && st.cfg.threadId == "t" && st.cfg.f == 0 && st.correct == SELF && FaultBound(st.cfg, SELF)
    && st.ownRows && st.honest && "a" in st.cfg.replicas && IsProposerAt(st.cfg, "a", 1, 0)
    && (forall c :: st.cfg.hash(c) == if c.height == 1 then HASH else NEXT_HASH)
  }

  lemma SoloIsLike()
    ensures SoloLike(Setting(SOLO, SELF, true, true))
  {
    assert SOLO.replicas == ["a"];
    assert Validators(SOLO) == SELF;
  }

  /** The proposal for (1, 0) of the validator, with no entries. */
  const FIRST := Proposal("t", 1, 0, -1, Some(Block("t", 1, 0, NIL, [], "a", "", HASH, 0)), "a")

  function Made(e: Effect): set<Proposal> {
    if e.proposal.Some? then {e.proposal.value} else {}
  }

  /** A proposal whose hash differs from all others collides with none. */
  lemma NewHash(cfg: Config, proposals: set<Proposal>, e: Effect, x: Hash)
    requires HashInjective(cfg, proposals)
    requires forall p :: p in proposals && p.block.Some? ==> BlockHashOf(cfg, p.block.value) != x
    requires e.proposal.Some? && e.proposal.value.block.Some? ==> BlockHashOf(cfg, e.proposal.value.block.value) == x
    ensures HashInjective(cfg, proposals + Made(e))
  {
  }

  lemma FirstAndNext(cfg: Config, e: Effect, x: Hash, y: Hash)
    requires x != y && forall c: Content :: cfg.hash(c) == if c.height == 1 then x else y
    requires ProposesFrom(cfg, "a", FreshState(2), e)
    ensures HashInjective(cfg, {FIRST} + Made(e))
  {
    NewHash(cfg, {FIRST}, e, y);
  }

  lemma SoloDecides(st: Setting) returns (run: Run, e: Effect)
    requires SoloLike(st)
    ensures Is(st, run, "a", e.node) && HashInjective(st.cfg, Now(run).proposals)
    ensures Decision("a", 1, 0, HASH) in Now(run).decisions
    ensures e.node.cs == FreshState(2) && BlockKey("t", 1) in e.node.blocks
  {
    assert BuildProposal(st.cfg, "a", INIT_NODE.(started := true), []) == FIRST;
    StartProposes(st.cfg, "a", FIRST);
    run := ProposerStarts(st, "a", Running(st.cfg), FIRST);
    RunningVotes(st.cfg, "a", FIRST);
    run, e := Decide(st, run, "a", Running(st.cfg), FIRST, {});
    FirstAndNext(st.cfg, e, HASH, NEXT_HASH);
  }

  /** A good run that decides a block. */
  lemma HonestRunDecides() returns (trace: seq<System>, evs: seq<Event>)
    ensures GoodRun(SOLO, SELF, trace, evs) && Decision("a", 1, 0, HASH) in trace[|trace| - 1].decisions
  {
    SoloIsLike();
    var run, e := SoloDecides(Setting(SOLO, SELF, true, true));
    RunMeets(Setting(SOLO, SELF, true, true), run);
    trace, evs := run.trace, run.evs;
  }

  // ----- a validator without a deadline

  /** The validator has prevoted its proposal. */
  lemma SoloPrevotes(st: Setting) returns (run: Run, s: Node)
    requires SoloLike(st)
    ensures Is(st, run, "a", s) && s.cs.step == StepPrevote && s.started
  {
    assert BuildProposal(st.cfg, "a", INIT_NODE.(started := true), []) == FIRST;
    StartProposes(st.cfg, "a", FIRST);
    run := ProposerStarts(st, "a", Running(st.cfg), FIRST);
    RunningVotes(st.cfg, "a", FIRST);
    run, s := PrevotesOn(st, run, "a", Running(st.cfg), FIRST, {}, {});
  }

  /** It dies and starts again in the middle of the round. */
  lemma Restarts(st: Setting, run: Run, n: Did, s: Node) returns (run': Run, s': Node)
    requires Is(st, run, n, s) && s.started && s.cs.step == StepPrevote
    ensures Is(st, run', n, s') && s'.started && TendermintFlow.Deadline(s') == None
  {
    run' := Act(st, run, s, Crash(n), Quiet(Restart(s)));
    var e := Start(st.cfg, n, Restart(s), 6);
    EnterProposeShape(st.cfg, n, Restart(s).(started := true));
    run' := Act(st, run', Restart(s), StartUp(n, 6), e);
    s' := e.node;
  }

  /** A good run, up to the hash condition, that ends with a running validator that has no deadline for its step. */
  lemma RestartStrands() returns (trace: seq<System>, evs: seq<Event>)
    ensures IsTrace(SOLO, SELF, trace, evs) && SignedRun(SOLO, SELF, trace, evs) && HonestEvents(SOLO, trace, evs)
    ensures var last := trace[|trace| - 1];
            "a" in last.nodes && last.nodes["a"].started && TendermintFlow.Deadline(last.nodes["a"]) == None
  {
    var st := Setting(SOLO, SELF, true, true);
    SoloIsLike();
    var run, s := SoloPrevotes(st);
    run, s := Restarts(st, run, "a", s);
    RunMeets(st, run);
    trace, evs := run.trace, run.evs;
  }

  // ----- votes that name another thread

  /** A prevote of the validator for round 5 of some other thread. */
  const ELSEWHERE := Vote("u", 1, 5, Prevote, HASH, "a")

  lemma NoRowsYet(cfg: Config, s: Node)
    requires cfg.threadId == "t" && s.votes == map[]
    ensures IsMajority(cfg, SaveVote(s, ELSEWHERE), 1, 5, Prevote, Pick(NIL, 0))
  {
    forall x ensures Tally(cfg, SaveVote(s, ELSEWHERE), 1, 5, Prevote, x) == 0 {
      assert StoreVoters(cfg, SaveVote(s, ELSEWHERE), 1, 5, Prevote, x) == {};
    }
  }

  lemma SkipsOnIt(cfg: Config, s: Node)
    requires cfg.threadId == "t" && cfg.f == 0 && "a" in cfg.replicas && s == Running(cfg)
    ensures HandleVote(cfg, "a", s, ELSEWHERE, true, 2, Pick(NIL, 0)).node.cs.round == 5
  {
    TendermintOutcomes.SkipIff(cfg, "a", s, ELSEWHERE, 2, Pick(NIL, 0));
    assert ELSEWHERE in TendermintOutcomes.Arrived(s, ELSEWHERE);
    assert "a" in TendermintOutcomes.Prevoters(s, ELSEWHERE);
  }

  /** Votes that name another thread count towards a skip: a run in which a validator goes to round 5, although nobody
      has sent a vote in this thread. */
  lemma ElsewhereSkips() returns (trace: seq<System>, evs: seq<Event>)
    ensures IsTrace(SOLO, SELF, trace, evs) && SignedRun(SOLO, SELF, trace, evs) && HonestEvents(SOLO, trace, evs)
    ensures var last := trace[|trace| - 1];
            "a" in last.nodes && last.nodes["a"].cs.round == 5 && last.votes == {}
  {
    var st := Setting(SOLO, SELF, true, true);
    SoloIsLike();
    var run := SkipRun(st);
    RunMeets(st, run);
    trace, evs := run.trace, run.evs;
  }

  /** The vote is delivered to a validator that has just started. */
  lemma HearsElsewhere(st: Setting, run: Run, s: Node) returns (run': Run)
    requires Is(st, run, "a", s) && s.cs.round == 0 && Now(run).votes == {} && st.cfg.threadId == "t"
    requires IsMajority(st.cfg, SaveVote(s, ELSEWHERE), 1, 5, Prevote, Pick(NIL, 0))
    requires HandleVote(st.cfg, "a", s, ELSEWHERE, true, 2, Pick(NIL, 0)).node.cs.round == 5
    ensures RealRun(st, run') && "a" in Now(run').nodes && Now(run').nodes["a"].cs.round == 5 && Now(run').votes == {}
  {
    var e := HandleVote(st.cfg, "a", s, ELSEWHERE, true, 2, Pick(NIL, 0));
    SkipSendsNothing(st.cfg, s, 2);
    run' := Act(st, run, s, DeliverVote("a", ELSEWHERE, true, 2, Pick(NIL, 0)), e);
  }

  lemma SkipRun(st: Setting) returns (run: Run)
    requires SoloLike(st)
    ensures RealRun(st, run) && "a" in Now(run).nodes && Now(run).nodes["a"].cs.round == 5 && Now(run).votes == {}
  {
    assert BuildProposal(st.cfg, "a", INIT_NODE.(started := true), []) == FIRST;
    StartProposes(st.cfg, "a", FIRST);
    var s := Running(st.cfg);
    run := ProposerStarts(st, "a", s, FIRST);
    NoRowsYet(st.cfg, s);
    SkipsOnIt(st.cfg, s);
    run := HearsElsewhere(st, run, s);
  }

  lemma SkipSendsNothing(cfg: Config, s: Node, now: int)
    requires s.cs.round == 0
    ensures HandleVote(cfg, "a", s, ELSEWHERE, true, now, Pick(NIL, 0)).vote == None
  {
    if VoteCounts(cfg, s, ELSEWHERE, true) {
      var kind := SkipShape(cfg, "a", s, ELSEWHERE, now);
    }
  }

  // ----- block rows from another thread

  /** A block that another thread of the daemon commits under this thread's id. */
  const STRAY := Block("t", 1, 0, NIL, [], "a", "", NEXT_HASH, 0)

  lemma StrayBreaks(cfg: Config, s: Node)
    requires cfg.threadId == "t" && s.cs == FreshState(2) && forall c: Content :: c.height == 1 ==> cfg.hash(c) == HASH
    ensures var s' := SaveBlock(s, STRAY, 5);
            HasChain(cfg, s') && !Chain.ChainOK(HashFn(cfg), Committed(cfg, s'))
  {
    var blocks := Committed(cfg, SaveBlock(s, STRAY, 5));
    assert blocks[0] == Stored(STRAY.(committedAt := 5));
    assert !Chain.LinkOK(HashFn(cfg), blocks, 0);
  }

  /** The event overwrites a block row of the thread, and the chain of its validator no longer verifies. */
  ghost predicate BreaksChain(cfg: Config, correct: set<Did>, sys: System, ev: Event) {
    && Typed(correct, sys) && Enabled(cfg, correct, sys, ev) && Overwrites(cfg, ev) && ev.n in sys.nodes
    && var s := Apply(cfg, correct, sys, ev).nodes[ev.n];
       HasChain(cfg, s) && !Chain.ChainOK(HashFn(cfg), Committed(cfg, s))
  }

  /** One block row from another thread after a good run, and the committed chain no longer verifies. */
  lemma ForeignBlockBreaksChain() returns (trace: seq<System>, evs: seq<Event>)
    ensures GoodRun(SOLO, SELF, trace, evs) && BreaksChain(SOLO, SELF, trace[|trace| - 1], ForeignBlock("a", STRAY, 5))
  {
    SoloIsLike();
    var run, e := SoloDecides(Setting(SOLO, SELF, true, true));
    RunMeets(Setting(SOLO, SELF, true, true), run);
    trace, evs := run.trace, run.evs;
    StrayBreaks(SOLO, e.node);
  }

  // ----- a block of a lower height

  /** Another validator m is where it was. */
  lemma Still(st: Setting, run: Run, run': Run, n: Did, m: Did, s: Node)
    requires Is(st, run, m, s) && RealRun(st, run') && OnlyActs(Now(run), Now(run'), n) && m != n
    ensures Is(st, run', m, s)
  {
  }

  lemma StillVotes(st: Setting, run: Run, run': Run, n: Did, m: Did, s: Node, p: Proposal, step: Step,
                   prevoters: set<Did>, precommitters: set<Did>)
    requires Votes(st, run, m, s, p, step, prevoters, precommitters)
    requires RealRun(st, run') && OnlyActs(Now(run), Now(run'), n) && m != n
    ensures Votes(st, run', m, s, p, step, prevoters, precommitters)
  {
  }

  lemma ThreeVoters(x: Did, y: Did, z: Did)
    requires x != y && y != z && x != z
    ensures |{x} + {y} + {z}| == 3
  {
  }

  /** All three validators have sent this kind of vote for p. */
  ghost predicate AllSent(cfg: Config, votes: set<Vote>, p: Proposal, t: VoteType, n: Did, m: Did, d: Did) {
    && p.block.Some? && VoteFor(cfg, n, p, t) in votes && VoteFor(cfg, m, p, t) in votes
    && VoteFor(cfg, d, p, t) in votes
  }

  lemma ThreeSent(cfg: Config, votes: set<Vote>, p: Proposal, t: VoteType, n: Did, m: Did, d: Did)
    requires AllSent(cfg, votes, p, t, n, m, d) && n != m && n != d && m != d && cfg.f == 1
    requires {n, m, d} <= Validators(cfg)
    ensures Quorum(cfg, votes, p.height, p.round, t, p.block.value.blockHash)
  {
    ThreeVoters(n, m, d);
    Quorums.SubsetCard({n} + {m} + {d}, SentVoters(cfg, votes, p.height, p.round, t, p.block.value.blockHash));
  }

  /** Correct validators n and m, and a faulty d that proposes first; f = 1. */
  ghost predicate Trio(st: Setting, n: Did, m: Did, d: Did) {
    && n != m && n in st.correct && m in st.correct && d in Validators(st.cfg) - st.correct
    && st.cfg.f == 1 && FaultBound(st.cfg, st.correct) && st.ownRows && !st.honest
    && IsProposerAt(st.cfg, d, 1, 0) && !IsProposerAt(st.cfg, n, 1, 0) && !IsProposerAt(st.cfg, m, 1, 0)
  }

  /** A proposal of d for (1, 0). */
  ghost predicate FromD(p: Proposal, d: Did) {
    && p.proposerDid == d && p.height == 1 && p.round == 0
    && p.block.Some? && |p.block.value.blockHash| >= SHORT_HASH
  }

  /** Both have accepted p, and the rows of d are in both stores. */
  ghost predicate Prevoted(st: Setting, run: Run, p: Proposal, n: Did, s: Node, m: Did, t: Node, d: Did) {
    match run
    case Run(_, _) =>
      && Votes(st, run, n, s, p, StepPrevote, {d} + {n}, {d}) && Votes(st, run, m, t, p, StepPrevote, {d} + {m}, {d})
      && AllSent(st.cfg, Now(run).votes, p, Prevote, n, m, d)
  }

  /** Both have locked p, each on the prevotes of all three. */
  ghost predicate Precommitted(st: Setting, run: Run, p: Proposal, n: Did, s: Node, m: Did, t: Node, d: Did) {
    match run
    case Run(_, _) =>
      && Votes(st, run, n, s, p, StepPrecommit, {d} + {n} + {m}, {d} + {n})
      && Votes(st, run, m, t, p, StepPrecommit, {d} + {m} + {n}, {d} + {m})
      && AllSent(st.cfg, Now(run).votes, p, Prevote, n, m, d)
      && VoteFor(st.cfg, n, p, Precommit) in Now(run).votes && VoteFor(st.cfg, m, p, Precommit) in Now(run).votes
  }

  /** The faulty validator proposes p and votes for it, and the other two start. */
  lemma Offer(st: Setting, p: Proposal, n: Did, m: Did, d: Did) returns (run: Run)
    requires Trio(st, n, m, d) && FromD(p, d)
    ensures Is(st, run, n, Running(st.cfg)) && Is(st, run, m, Running(st.cfg)) && p in Now(run).proposals
    ensures VoteFor(st.cfg, d, p, Prevote) in Now(run).votes && VoteFor(st.cfg, d, p, Precommit) in Now(run).votes
  {
    run := Begin(st);
    run := FaultyProposes(st, run, p);
    run := FaultyVotes(st, run, VoteFor(st.cfg, d, p, Prevote));
    run := FaultyVotes(st, run, VoteFor(st.cfg, d, p, Precommit));
    run := Waits(st, run, n);
    var run' := Waits(st, run, m);
    Still(st, run, run', m, n, Running(st.cfg));
    run := run';
  }

  /** One validator hears both votes of d and accepts p. */
  lemma HearsAndPrevotes(st: Setting, run: Run, n: Did, s: Node, p: Proposal, d: Did) returns (run': Run, s': Node)
    requires Votes(st, run, n, s, p, StepPropose, {}, {}) && n != d && d in st.cfg.replicas && p in Now(run).proposals
    requires VoteFor(st.cfg, d, p, Prevote) in Now(run).votes && VoteFor(st.cfg, d, p, Precommit) in Now(run).votes
    ensures Votes(st, run', n, s', p, StepPrevote, {d} + {n}, {d}) && OnlyActs(Now(run), Now(run'), n)
    ensures VoteFor(st.cfg, n, p, Prevote) in Now(run').votes
  {
    assert {} + {d} == {d};
    run', s' := Hears(st, run, n, s, p, Prevote, d, {}, {});
    run', s' := Hears(st, run', n, s', p, Precommit, d, {d}, {});
    run', s' := PrevotesOn(st, run', n, s', p, {d}, {d});
  }

  lemma BothPrevote(st: Setting, p: Proposal, n: Did, m: Did, d: Did) returns (run: Run, s: Node, t: Node)
    requires Trio(st, n, m, d) && FromD(p, d)
    ensures Prevoted(st, run, p, n, s, m, t, d)
  {
    var run0 := Offer(st, p, n, m, d);
    var s0 := Running(st.cfg);
    RunningVotes(st.cfg, n, p);
    RunningVotes(st.cfg, m, p);
    var run1;
    run1, s := HearsAndPrevotes(st, run0, n, s0, p, d);
    StillVotes(st, run0, run1, n, m, s0, p, StepPropose, {}, {});
    run, t := HearsAndPrevotes(st, run1, m, s0, p, d);
    StillVotes(st, run1, run, m, n, s, p, StepPrevote, {d} + {n}, {d});
  }

  /** Each hears the prevote of the other. */
  lemma BothLock(st: Setting, run: Run, p: Proposal, n: Did, s: Node, m: Did, t: Node, d: Did)
    returns (run': Run, s': Node, t': Node)
    requires Trio(st, n, m, d) && Prevoted(st, run, p, n, s, m, t, d)
    ensures Precommitted(st, run', p, n, s', m, t', d)
  {
    ThreeVoters(d, n, m);
    ThreeVoters(d, m, n);
    var run1;
    run1, s' := LocksOn(st, run, n, s, p, m, {d} + {n}, {d});
    StillVotes(st, run, run1, n, m, t, p, StepPrevote, {d} + {m}, {d});
    run', t' := LocksOn(st, run1, m, t, p, n, {d} + {m}, {d});
    StillVotes(st, run1, run', m, n, s', p, StepPrecommit, {d} + {n} + {m}, {d} + {n});
  }

  /** The last step of a run with real signatures takes validator n back, by a commit below. */
  ghost predicate GoesBack(st: Setting, run: Run, n: Did) {
    && FaultBound(st.cfg, st.correct) && RealRun(st, run) && |run.trace| >= 2
    && var before := run.trace[|run.trace| - 2];
       && n in before.nodes && n in Now(run).nodes && !NotAfter(before.nodes[n].cs, Now(run).nodes[n].cs)
       && CommitsBelow(st.cfg, before.nodes[n], run.evs[|run.evs| - 1])
  }

  lemma GoesBackWith(st: Setting, run: Run, n: Did, s: Node, p: Proposal, d: Did, precommitters: set<Did>, s': Node)
    requires FaultBound(st.cfg, st.correct) && Is(st, run, n, s') && FromD(p, p.proposerDid) && d in st.cfg.replicas
    requires s.started && s.proposal == Some(p) && s.cs.height == 1 && s.cs.round == 0 && s.cs.step == StepPrecommit
    requires p.block.value.height == 0 && s'.cs == FreshState(1) && |precommitters + {d}| >= QuorumSize(st.cfg)
    requires EndsWith(run, n, s, Last(st.cfg, n, p, d, precommitters))
    ensures GoesBack(st, run, n)
  {
    assert VoteCounts(st.cfg, s, VoteFor(st.cfg, d, p, Precommit), true);
  }

  /** What is left of the other validators after n was taken back. */
  ghost predicate OneBack(st: Setting, run: Run, p: Proposal, n: Did, s: Node, m: Did, t: Node, d: Did) {
    match run
    case Run(_, _) =>
      && Is(st, run, n, s) && s.cs == FreshState(1) && s.started
      && Votes(st, run, m, t, p, StepPrecommit, {d} + {m} + {n}, {d} + {m})
      && AllSent(st.cfg, Now(run).votes, p, Prevote, n, m, d) && VoteFor(st.cfg, n, p, Precommit) in Now(run).votes
  }

  /** One of the two hears the precommit of the other and commits. */
  lemma OneCommits(st: Setting, run: Run, p: Proposal, n: Did, s: Node, m: Did, t: Node, d: Did)
    returns (run': Run, s': Node)
    requires Trio(st, n, m, d) && FromD(p, d) && p.block.value.height == 0 && Precommitted(st, run, p, n, s, m, t, d)
    ensures GoesBack(st, run', n) && OneBack(st, run', p, n, s', m, t, d)
  {
    ThreeVoters(d, n, m);
    var e;
    run', e := CommitsOn(st, run, n, s, p, m, {d} + {n} + {m}, {d} + {n});
    s' := e.node;
    GoesBackWith(st, run', n, s, p, m, {d} + {n}, s');
    StillVotes(st, run, run', n, m, t, p, StepPrecommit, {d} + {m} + {n}, {d} + {m});
  }

  lemma FirstBack(st: Setting, p: Proposal, n: Did, m: Did, d: Did) returns (run: Run, s: Node, t: Node)
    requires Trio(st, n, m, d) && FromD(p, d) && p.block.value.height == 0
    ensures GoesBack(st, run, n) && OneBack(st, run, p, n, s, m, t, d)
  {
    run, s, t := BothPrevote(st, p, n, m, d);
    run, s, t := BothLock(st, run, p, n, s, m, t, d);
    run, s := OneCommits(st, run, p, n, s, m, t, d);
  }

  lemma BothBack(st: Setting, run: Run, p: Proposal, n: Did, s: Node, m: Did, t: Node, d: Did)
    returns (run': Run, t': Node)
    requires Trio(st, n, m, d) && FromD(p, d) && p.block.value.height == 0 && OneBack(st, run, p, n, s, m, t, d)
    ensures Is(st, run', n, s) && Is(st, run', m, t') && t'.cs == FreshState(1) && t'.started
    ensures AllSent(st.cfg, Now(run').votes, p, Prevote, n, m, d)
  {
    ThreeVoters(d, m, n);
    var e;
    run', e := CommitsOn(st, run, m, t, p, n, {d} + {m} + {n}, {d} + {m});
    t' := e.node;
    Still(st, run, run', m, n, s);
  }

  /** A validator back at (1, 0, propose) prevotes whatever is proposed there. */
  lemma PrevotesAgain(st: Setting, run: Run, n: Did, s: Node, q: Proposal) returns (run': Run)
    requires Is(st, run, n, s) && s.cs == FreshState(1) && s.started && q in Now(run).proposals
    requires FromD(q, q.proposerDid) && IsProposerAt(st.cfg, q.proposerDid, 1, 0)
    ensures RealRun(st, run') && OnlyActs(Now(run), Now(run'), n) && VoteFor(st.cfg, n, q, Prevote) in Now(run').votes
  {
    var ev := DeliverProposal(n, q, true, 5);
    run' := Act(st, run, s, ev, NodeEffect(st.cfg, s, ev));
  }

  lemma BothPrevoteAgain(st: Setting, run: Run, n: Did, s: Node, m: Did, t: Node, d: Did, q: Proposal)
    returns (run': Run)
    requires Trio(st, n, m, d) && FromD(q, d) && Is(st, run, n, s) && Is(st, run, m, t)
    requires s.cs == FreshState(1) && s.started && t.cs == FreshState(1) && t.started
    ensures RealRun(st, run') && Now(run).votes <= Now(run').votes
    ensures AllSent(st.cfg, Now(run').votes, q, Prevote, n, m, d)
  {
    var run1 := FaultyProposes(st, run, q);
    run1 := FaultyVotes(st, run1, VoteFor(st.cfg, d, q, Prevote));
    var run2 := PrevotesAgain(st, run1, n, s, q);
    Still(st, run1, run2, n, m, t);
    run' := PrevotesAgain(st, run2, m, t, q);
  }

  /** In the run, one correct validator has sent two prevotes for one (height, round), and both hashes have
      a quorum of prevotes there. */
  ghost predicate TwoPrevoteQuorums(st: Setting, run: Run, v: Vote, w: Vote) {
    && FaultBound(st.cfg, st.correct) && RealRun(st, run)
    && v in Now(run).votes && w in Now(run).votes
    && v.voter in st.correct && SameSlot(v, w) && v.vtype == Prevote && v.blockHash != w.blockHash
    && Quorum(st.cfg, Now(run).votes, v.height, v.round, Prevote, v.blockHash)
    && Quorum(st.cfg, Now(run).votes, v.height, v.round, Prevote, w.blockHash)
  }

  lemma SecondQuorum(st: Setting, p: Proposal, q: Proposal, n: Did, m: Did, d: Did) returns (run: Run)
    requires Trio(st, n, m, d) && FromD(p, d) && FromD(q, d)
    requires p.block.value.height == 0 && p.block.value.blockHash != q.block.value.blockHash
    ensures TwoPrevoteQuorums(st, run, VoteFor(st.cfg, n, p, Prevote), VoteFor(st.cfg, n, q, Prevote))
  {
    var run1, s, t := FirstBack(st, p, n, m, d);
    run1, t := BothBack(st, run1, p, n, s, m, t, d);
    run := BothPrevoteAgain(st, run1, n, s, m, t, d, q);
    ThreeSent(st.cfg, Now(run).votes, p, Prevote, n, m, d);
    ThreeSent(st.cfg, Now(run).votes, q, Prevote, n, m, d);
  }

  /** Four replicas; d is faulty and the proposer of (1, 0). */
  const FOUR := Config("t", ["a", "d", "b", "c"], 1, 1000, (c: Content) => HASH)
  const THREE: set<Did> := {"a", "b", "c"}
  const WITH_D := Setting(FOUR, THREE, true, false)

  lemma FourIsTrio()
    ensures Trio(WITH_D, "b", "c", "d")
  {
    var r := FOUR.replicas;
    assert r[0] == "a" && r[1] == "d" && r[2] == "b" && r[3] == "c";
    assert Validators(FOUR) == {"a", "b", "c", "d"};
    assert Validators(FOUR) - THREE == {"d"};
    assert 1 % 4 == 1;
  }

  /** A proposal of d for (1, 0) around a block of the given height and hash. */
  function OfD(height: int, hash: Hash): Proposal {
    Proposal("t", 1, 0, -1, Some(Block("t", height, 0, NIL, [], "d", "", hash, 0)), "d")
  }

  /** The node discipline fails: in a run with real signatures and one faulty validator of four, a proposal for
      height 1 around a block of height 0 takes a correct validator from (1, 0, precommit) back to (1, 0, propose). */
  lemma LowBlockGoesBack() returns (run: Run, s: Node)
    ensures GoesBack(WITH_D, run, "b") && Is(WITH_D, run, "b", s) && s.cs == FreshState(1)
  {
    FourIsTrio();
    var t;
    run, s, t := FirstBack(WITH_D, OfD(0, HASH), "b", "c", "d");
  }

  /** One prevote per (height, round) and one prevote quorum there fail once two validators were taken back: the
      faulty one proposes a second time, and both prevote again. */
  lemma PrevotesTwiceAfterGoingBack() returns (run: Run)
    ensures TwoPrevoteQuorums(WITH_D, run, Vote("t", 1, 0, Prevote, HASH, "b"),
                              Vote("t", 1, 0, Prevote, NEXT_HASH, "b"))
  {
    FourIsTrio();
    run := SecondQuorum(WITH_D, OfD(0, HASH), OfD(1, NEXT_HASH), "b", "c", "d");
  }
}
