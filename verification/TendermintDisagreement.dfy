/** Two runs in which validators decide differently at one height although nobody is faulty, every proposal is
    honest, every signature real and no hash collides: one with more than 3f+1 validators, and one with vote rows
    that another thread of a daemon wrote for voters who are no validators. */
module TendermintDisagreement {
  import opened ThreadTypes
  import opened TendermintNode
  import opened TendermintShapes
  import opened TendermintSystem
  import opened TendermintSafety
  import opened TendermintAgreement
  import opened TendermintRuns
  import opened TendermintExamples

  /** Proposals of b, proposals of a for height 1, and those of a for later heights have different hashes. */
  ghost predicate HashByProposer(cfg: Config) {
    forall c: Content ::
      cfg.hash(c) == if c.proposerDid == "b" then NEXT_HASH else if c.height == 1 then HASH else THIRD_HASH
  }

  /** What the runs use of a thread: b proposes first, then a. `others` are not validators of the thread; the rows
      for them come from another thread. */
  ghost predicate Rivals(st: Setting, others: set<Did>) {
    && st.cfg.threadId == "t" && st.cfg.epochMs == 1000 && {"a", "b"} <= st.correct == Validators(st.cfg)
    && IsProposerAt(st.cfg, "b", 1, 0) && !IsProposerAt(st.cfg, "a", 1, 0) && IsProposerAt(st.cfg, "a", 1, 1)
    && !IsProposerAt(st.cfg, "b", 2, 0)
    && HashByProposer(st.cfg) && st.honest
    && others !! st.correct && |others| >= 2 * st.cfg.f && (st.ownRows ==> others == {})
  }

  /** Another thread of the daemon of n writes one row. */
  lemma OutsiderRow(st: Setting, run: Run, n: Did, s: Node, p: Proposal, t: VoteType, d: Did,
                    prevoters: set<Did>, precommitters: set<Did>)
    returns (run': Run, s': Node)
    requires Votes(st, run, n, s, p, StepPropose, prevoters, precommitters)
    requires d !in st.correct && !st.ownRows && t != Unspecified
    ensures if t == Prevote then Votes(st, run', n, s', p, StepPropose, prevoters + {d}, precommitters)
            else Votes(st, run', n, s', p, StepPropose, prevoters, precommitters + {d})
    ensures OnlyActs(Now(run), Now(run'), n) && Now(run').proposals == Now(run).proposals
  {
    var v := VoteFor(st.cfg, d, p, t);
    RowBefore(st.cfg, n, s, p, t, d, prevoters, precommitters);
    s' := SaveVote(s, v);
    run' := Act(st, run, s, ForeignVote(n, v), Quiet(s'));
  }

  /** Both rows of a voter that is no validator. */
  lemma OutsiderVotes(st: Setting, run: Run, n: Did, s: Node, p: Proposal, d: Did, rest: set<Did>)
    returns (run': Run, s': Node)
    requires Votes(st, run, n, s, p, StepPropose, rest, rest) && d !in st.correct && !st.ownRows
    ensures Votes(st, run', n, s', p, StepPropose, rest + {d}, rest + {d}) && OnlyActs(Now(run), Now(run'), n)
    ensures Now(run').proposals == Now(run).proposals
  {
    var run1, s1 := OutsiderRow(st, run, n, s, p, Prevote, d, rest, rest);
    run', s' := OutsiderRow(st, run1, n, s1, p, Precommit, d, rest + {d}, rest);
  }

  /** Rows for `others` are written into the store of n, by another thread of its daemon. */
  lemma {:induction false} Outsiders(st: Setting, run: Run, n: Did, s: Node, p: Proposal, others: set<Did>)
    returns (run': Run, s': Node)
    requires Votes(st, run, n, s, p, StepPropose, {}, {}) && others !! st.correct && (st.ownRows ==> others == {})
    ensures Votes(st, run', n, s', p, StepPropose, others, others) && OnlyActs(Now(run), Now(run'), n)
    ensures Now(run').proposals == Now(run).proposals
    decreases others
  {
    if others == {} {
      run', s' := run, s;
    } else {
      var d :| d in others;
      var rest := others - {d};
      run', s' := Outsiders(st, run, n, s, p, rest);
      run', s' := OutsiderVotes(st, run', n, s', p, d, rest);
      assert rest + {d} == others;
    }
  }

  /** With 2f such rows of each type a validator decides a proposal by itself. */
  lemma DecideWithRows(st: Setting, run: Run, n: Did, s: Node, p: Proposal, others: set<Did>)
    returns (run': Run, e: Effect)
    requires Votes(st, run, n, s, p, StepPropose, {}, {}) && n in st.cfg.replicas && p in Now(run).proposals
    requires others !! st.correct && |others| >= 2 * st.cfg.f && (st.ownRows ==> others == {})
    ensures RealRun(st, run') && OnlyActs(Now(run), Now(run'), n)
    ensures ProposesFrom(st.cfg, n, FreshState(p.block.value.height + 1), e)
    ensures Now(run').proposals == Now(run).proposals + Made(e)
    ensures Decision(n, p.height, p.round, p.block.value.blockHash) in Now(run').decisions
  {
    var run1, s1 := Outsiders(st, run, n, s, p, others);
    run', e := Decide(st, run1, n, s1, p, others);
  }

  function Empty(n: Did, round: int, hash: Hash): Proposal {
    Proposal("t", 1, round, -1, Some(Block("t", 1, round, NIL, [], n, "", hash, 0)), n)
  }

  const FIRST_OFFER := Empty("b", 0, NEXT_HASH)
  const SECOND_OFFER := Empty("a", 1, HASH)
  const FIRST_DECISION := Decision("b", 1, 0, NEXT_HASH)
  const SECOND_DECISION := Decision("a", 1, 1, HASH)

  /** Validator a is in state s, b has decided in round 0, and these are the proposals so far. */
  ghost predicate Behind(st: Setting, run: Run, s: Node, proposals: set<Proposal>) {
    match run
    case Run(_, _) => Is(st, run, "a", s) && FIRST_DECISION in Now(run).decisions && Now(run).proposals == proposals
  }

  /** Validator b starts and proposes. */
  lemma FirstProposal(st: Setting, others: set<Did>, q: Proposal) returns (run: Run, s: Node)
    requires Rivals(st, others) && q == FIRST_OFFER
    ensures Votes(st, run, "b", s, q, StepPropose, {}, {}) && Now(run).proposals == {q}
    ensures Is(st, run, "a", INIT_NODE)
  {
    assert BuildProposal(st.cfg, "b", INIT_NODE.(started := true), []) == q;
    StartProposes(st.cfg, "b", q);
    s := Running(st.cfg);
    RunningVotes(st.cfg, "b", q);
    run := ProposerStarts(st, "b", s, q);
  }

  /** It decides its own block in round 0, before a has done anything. */
  lemma FirstDecision(st: Setting, others: set<Did>, q: Proposal) returns (run: Run)
    requires Rivals(st, others) && q == FIRST_OFFER
    ensures Behind(st, run, INIT_NODE, {q})
  {
    var run1, s := FirstProposal(st, others, q);
    var e;
    run, e := DecideWithRows(st, run1, "b", s, q, others);
    Still(st, run1, run, "b", "a", INIT_NODE);
  }

  /** A start or a timeout of validator a. */
  lemma Alarm(st: Setting, run: Run, s: Node, proposals: set<Proposal>, ev: Event, e: Effect) returns (run': Run)
    requires ev.StartUp? || ev.ProposeTimeout? || ev.PrevoteTimeout? || ev.PrecommitTimeout?
    requires ev.n == "a" && Behind(st, run, s, proposals) && NodeEffect(st.cfg, s, ev) == e
    ensures Behind(st, run', e.node, proposals + Made(e))
  {
    run' := Act(st, run, s, ev, e);
  }

  function NilVote(vtype: VoteType): Vote {
    Vote("t", 1, 0, vtype, NIL, "a")
  }

  /** Validator a after each of the three timeouts of round 0. */
  function TimedOut(cfg: Config): Node {
    Running(cfg).(cs := FreshState(1).(step := StepPrevote), votes := map[KeyOf(NilVote(Prevote)) := NIL],
                  timers := Timers(None, Some(2500), None))
  }

  function TimedOutTwice(cfg: Config): Node {
    TimedOut(cfg).(cs := FreshState(1).(step := StepPrecommit),
                   votes := map[KeyOf(NilVote(Prevote)) := NIL, KeyOf(NilVote(Precommit)) := NIL],
                   timers := Timers(None, None, Some(3500)))
  }

  function SecondRound(cfg: Config): Node {
    TimedOutTwice(cfg).(cs := FreshState(1).(round := 1), timers := Timers(Some(4000 + cfg.epochMs), None, None))
  }

  lemma FirstTimeouts(cfg: Config)
    requires cfg.threadId == "t" && cfg.epochMs == 1000
    ensures TickPropose(cfg, "a", Running(cfg), 2000) == Effect(TimedOut(cfg), Some(NilVote(Prevote)), None, None)
    ensures TickPrevote(cfg, "a", TimedOut(cfg), 3000)
         == Effect(TimedOutTwice(cfg), Some(NilVote(Precommit)), None, None)
  {
    assert map[KeyOf(NilVote(Prevote)) := NIL][KeyOf(NilVote(Precommit)) := NIL]
        == map[KeyOf(NilVote(Prevote)) := NIL, KeyOf(NilVote(Precommit)) := NIL];
  }

  lemma ProposesInRoundOne(st: Setting, others: set<Did>, s: Node, q: Proposal)
    requires Rivals(st, others) && s.cs == FreshState(1).(round := 1) && s.pending == [] && q == SECOND_OFFER
    ensures EnterPropose(st.cfg, "a", s) == Effect(s, None, Some(q), None)
  {
    assert BuildProposal(st.cfg, "a", s, []) == q;
    ProposesPending(st.cfg, "a", s);
    EnterProposeShape(st.cfg, "a", s);
  }

  lemma LastTimeout(st: Setting, others: set<Did>, q: Proposal)
    requires Rivals(st, others) && q == SECOND_OFFER
    ensures TickPrecommit(st.cfg, "a", TimedOutTwice(st.cfg), 4000)
         == Effect(SecondRound(st.cfg), None, Some(q), None)
  {
    var s := TimedOutTwice(st.cfg).(cs := FreshState(1).(round := 1), timers := DISARMED);
    ProposesInRoundOne(st, others, s, q);
  }

  /** Votes of other rounds do not count. */
  lemma NoRows(cfg: Config, s: Node, p: Proposal, t: VoteType)
    requires p.block.Some? && forall k :: k in s.votes ==> k.round != p.round
    ensures Rows(cfg, s, p, t, {})
  {
  }

  lemma VotesInRoundOne(st: Setting, others: set<Did>, s: Node, q: Proposal)
    requires Rivals(st, others) && q == SECOND_OFFER
    requires s.started && s.cs == FreshState(1).(round := 1) && forall k :: k in s.votes ==> k.round == 0
    ensures Voting(st.cfg, "a", s, q, StepPropose, {}, {})
  {
    NoRows(st.cfg, s, q, Prevote);
    NoRows(st.cfg, s, q, Precommit);
  }

  /** Validator a has heard of nothing. It starts, and the timeouts of round 0 pass. */
  lemma PassRound(st: Setting, run: Run, proposals: set<Proposal>, s0: Node, s1: Node, s2: Node, s3: Node, q: Proposal)
    returns (run': Run)
    requires Behind(st, run, INIT_NODE, proposals)
    requires Start(st.cfg, "a", INIT_NODE, 1) == Effect(s0, None, None, None)
    requires TickPropose(st.cfg, "a", s0, 2000) == Effect(s1, Some(NilVote(Prevote)), None, None)
    requires TickPrevote(st.cfg, "a", s1, 3000) == Effect(s2, Some(NilVote(Precommit)), None, None)
    requires TickPrecommit(st.cfg, "a", s2, 4000) == Effect(s3, None, Some(q), None)
    ensures Behind(st, run', s3, proposals + {q})
  {
    run' := Alarm(st, run, INIT_NODE, proposals, StartUp("a", 1), Effect(s0, None, None, None));
    run' := Alarm(st, run', s0, proposals, ProposeTimeout("a", 2000), Effect(s1, Some(NilVote(Prevote)), None, None));
    run' := Alarm(st, run', s1, proposals, PrevoteTimeout("a", 3000), Effect(s2, Some(NilVote(Precommit)), None, None));
    run' := Alarm(st, run', s2, proposals, PrecommitTimeout("a", 4000), Effect(s3, None, Some(q), None));
  }

  lemma TimeoutStates(st: Setting, others: set<Did>, q: Proposal) returns (s0: Node, s1: Node, s2: Node, s3: Node)
    requires Rivals(st, others) && q == SECOND_OFFER
    ensures Start(st.cfg, "a", INIT_NODE, 1) == Effect(s0, None, None, None)
    ensures TickPropose(st.cfg, "a", s0, 2000) == Effect(s1, Some(NilVote(Prevote)), None, None)
    ensures TickPrevote(st.cfg, "a", s1, 3000) == Effect(s2, Some(NilVote(Precommit)), None, None)
    ensures TickPrecommit(st.cfg, "a", s2, 4000) == Effect(s3, None, Some(q), None)
    ensures Voting(st.cfg, "a", s3, q, StepPropose, {}, {})
  {
    s0, s1, s2, s3 := Running(st.cfg), TimedOut(st.cfg), TimedOutTwice(st.cfg), SecondRound(st.cfg);
    StartWaits(st.cfg, "a");
    FirstTimeouts(st.cfg);
    LastTimeout(st, others, q);
    VotesInRoundOne(st, others, s3, q);
  }

  lemma SecondProposal(st: Setting, others: set<Did>, run: Run, proposals: set<Proposal>, q: Proposal)
    returns (run': Run, s: Node)
    requires Rivals(st, others) && Behind(st, run, INIT_NODE, proposals) && q == SECOND_OFFER
    ensures Behind(st, run', s, proposals + {q}) && Voting(st.cfg, "a", s, q, StepPropose, {}, {})
  {
    var s0, s1, s2, s3 := TimeoutStates(st, others, q);
    s := s3;
    run' := PassRound(st, run, proposals, s0, s1, s2, s3, q);
  }

  lemma ThreeHashes(cfg: Config, e: Effect, x: Hash, y: Hash, z: Hash)
    requires x != y && y != z && x != z
    requires forall c: Content :: cfg.hash(c) == if c.proposerDid == "b" then x else if c.height == 1 then y else z
    requires ProposesFrom(cfg, "a", FreshState(2), e)
    ensures HashInjective(cfg, {FIRST_OFFER} + {SECOND_OFFER} + Made(e))
  {
    NewHash(cfg, {FIRST_OFFER}, Effect(INIT_NODE, None, Some(SECOND_OFFER), None), y);
    NewHash(cfg, {FIRST_OFFER} + {SECOND_OFFER}, e, z);
  }

  /** Two validators decide differently at one height of a run in which nobody is faulty. */
  ghost predicate Disagree(st: Setting, run: Run, d: Decision, e: Decision) {
    && st.correct == Validators(st.cfg) && RealRun(st, run) && HashInjective(st.cfg, Now(run).proposals)
    && d in Now(run).decisions && e in Now(run).decisions && d.height == e.height && d.hash != e.hash
  }

  lemma SecondDecision(st: Setting, others: set<Did>, run: Run, s: Node, q: Proposal) returns (run': Run)
    requires Rivals(st, others) && Behind(st, run, s, {FIRST_OFFER} + {q}) && q == SECOND_OFFER
    requires Voting(st.cfg, "a", s, q, StepPropose, {}, {})
    ensures Disagree(st, run', FIRST_DECISION, SECOND_DECISION)
  {
    var e;
    run', e := DecideWithRows(st, run, "a", s, q, others);
    ThreeHashes(st.cfg, e, NEXT_HASH, HASH, THIRD_HASH);
  }

  lemma RivalsDisagree(st: Setting, others: set<Did>) returns (run: Run)
    requires Rivals(st, others)
    ensures Disagree(st, run, FIRST_DECISION, SECOND_DECISION)
  {
    run := FirstDecision(st, others, FIRST_OFFER);
    var s;
    run, s := SecondProposal(st, others, run, {FIRST_OFFER}, SECOND_OFFER);
    run := SecondDecision(st, others, run, s, SECOND_OFFER);
  }

  // ----- more than 3f+1 validators

  const BY_PROPOSER: Content -> Hash :=
    (c: Content) => if c.proposerDid == "b" then NEXT_HASH else if c.height == 1 then HASH else THIRD_HASH

  /** Two replicas and f = 0, which thread creation accepts: it asks for at least one replica then. */
  const PAIR := Config("t", ["a", "b"], 0, 1000, BY_PROPOSER)
  const BOTH: set<Did> := {"a", "b"}

  lemma PairAreRivals()
    ensures Rivals(Setting(PAIR, BOTH, true, true), {}) && |BOTH| == 3 * PAIR.f + 2 && Validators(PAIR) == BOTH
  {
    assert PAIR.replicas == ["a", "b"];
    assert Validators(PAIR) == BOTH;
    assert 1 % 2 == 1 && 2 % 2 == 0;
  }

  /** One validator more than 3f+1, and agreement is lost: every other hypothesis of the agreement theorems holds. */
  lemma TooManyValidators() returns (trace: seq<System>, evs: seq<Event>)
    ensures IsTrace(PAIR, BOTH, trace, evs) && SignedRun(PAIR, BOTH, trace, evs) && HonestEvents(PAIR, trace, evs)
    ensures |Validators(PAIR)| == 3 * PAIR.f + 2 && Validators(PAIR) == BOTH
    ensures HashInjective(PAIR, trace[|trace| - 1].proposals)
    ensures FIRST_DECISION in trace[|trace| - 1].decisions && SECOND_DECISION in trace[|trace| - 1].decisions
    ensures FIRST_DECISION.height == SECOND_DECISION.height && FIRST_DECISION.hash != SECOND_DECISION.hash
  {
    PairAreRivals();
    var run := RivalsDisagree(Setting(PAIR, BOTH, true, true), {});
    RunMeets(Setting(PAIR, BOTH, true, true), run);
    trace, evs := run.trace, run.evs;
  }

  // ----- vote rows from another thread

  /** Four replicas and f = 1, all of them correct. */
  const QUARTET := Config("t", ["c", "b", "a", "d"], 1, 1000, BY_PROPOSER)
  const ALL: set<Did> := {"a", "b", "c", "d"}

  /** Replicas of some other thread that a and b also serve. */
  const STRANGERS: set<Did> := {"x", "y"}

  lemma QuartetAreRivals()
    ensures Rivals(Setting(QUARTET, ALL, false, true), STRANGERS) && FaultBound(QUARTET, ALL)
  {
    var r := QUARTET.replicas;
    assert r[0] == "c" && r[1] == "b" && r[2] == "a" && r[3] == "d";
    assert Validators(QUARTET) == ALL && ALL - ALL == {};
    assert 1 % 4 == 1 && 2 % 4 == 2;
  }

  /** Without the condition on vote rows agreement is lost: every other hypothesis of the agreement theorems holds,
      nobody of the thread is faulty, and two validators count the votes of strangers. */
  lemma ForeignVotesBreakAgreement() returns (trace: seq<System>, evs: seq<Event>)
    ensures IsRun(QUARTET, ALL, trace, evs) && SignedRun(QUARTET, ALL, trace, evs) && FaultBound(QUARTET, ALL)
    ensures HonestEvents(QUARTET, trace, evs) && HashInjective(QUARTET, trace[|trace| - 1].proposals)
    ensures FIRST_DECISION in trace[|trace| - 1].decisions && SECOND_DECISION in trace[|trace| - 1].decisions
    ensures FIRST_DECISION.height == SECOND_DECISION.height && FIRST_DECISION.hash != SECOND_DECISION.hash
  {
    QuartetAreRivals();
    var run := RivalsDisagree(Setting(QUARTET, ALL, false, true), STRANGERS);
    RunMeets(Setting(QUARTET, ALL, false, true), run);
    trace, evs := run.trace, run.evs;
  }
}
