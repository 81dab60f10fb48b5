/** Building runs step by step: what one event adds to a run, and how a validator votes on a proposal
    once enough rows for it are in its store. */
module TendermintRuns {
  import opened ThreadTypes
  import opened TendermintNode
  import opened TendermintShapes
  import opened TendermintSystem
  import opened TendermintSafety
  import opened TendermintAgreement

  // ----- runs with real signatures

  /** Every signature was made by its owner: a proposal that verifies was made, and what no correct
      validator made comes from a faulty replica of the thread. */
  ghost predicate Signed(cfg: Config, correct: set<Did>, sys: System, ev: Event) {
    && (ev.DeliverProposal? && ev.sigOk ==> ev.p in sys.proposals)
    && (ev.FaultyProposal? ==> ev.p.proposerDid in Validators(cfg) - correct)
    && (ev.FaultyVote? ==> ev.v.voter in Validators(cfg) - correct)
  }

  ghost predicate SignedAt(cfg: Config, correct: set<Did>, trace: seq<System>, evs: seq<Event>, i: nat)
    requires i < |evs| && |trace| == |evs| + 1
  {
    Signed(cfg, correct, trace[i], evs[i])
  }

  ghost predicate SignedRun(cfg: Config, correct: set<Did>, trace: seq<System>, evs: seq<Event>)
    requires |trace| == |evs| + 1
  {
    forall i: nat :: i < |evs| ==> SignedAt(cfg, correct, trace, evs, i)
  }

  /** A thread, its correct validators, and which hypotheses the run is to meet: on the rows of other
      threads, and on proposals. */
  datatype Setting = Setting(cfg: Config, correct: set<Did>, ownRows: bool, honest: bool)

  ghost predicate Fits(st: Setting, sys: System, ev: Event) {
    && Typed(st.correct, sys) && Possible(st.cfg, st.correct, sys, ev) && Signed(st.cfg, st.correct, sys, ev)
    && (st.ownRows ==> OwnVotes(st.cfg, sys, ev))
    && (st.honest ==> HonestEvent(st.cfg, sys, ev))
  }

  datatype Run = Run(trace: seq<System>, evs: seq<Event>)

  /** The state a run has reached. */
  ghost function Now(run: Run): System {
    if run.trace == [] then Init({}) else run.trace[|run.trace| - 1]
  }

  ghost predicate FitsAt(st: Setting, run: Run, i: nat)
    requires i < |run.evs| && |run.trace| == |run.evs| + 1
  {
    && Fits(st, run.trace[i], run.evs[i])
    && run.trace[i + 1] == Apply(st.cfg, st.correct, run.trace[i], run.evs[i])
  }

  ghost predicate RealRun(st: Setting, run: Run) {
    && |run.trace| == |run.evs| + 1 && run.trace[0] == Init(st.correct) && Typed(st.correct, Now(run))
    && forall i: nat :: i < |run.evs| ==> FitsAt(st, run, i)
  }

  /** What a run of a setting is in terms of the hypotheses. */
  lemma RunMeets(st: Setting, run: Run)
    requires RealRun(st, run)
    ensures IsRun(st.cfg, st.correct, run.trace, run.evs)
    ensures SignedRun(st.cfg, st.correct, run.trace, run.evs)
    ensures st.ownRows ==> IsTrace(st.cfg, st.correct, run.trace, run.evs)
    ensures st.honest ==> HonestEvents(st.cfg, run.trace, run.evs)
  {
    forall i: nat | i < |run.evs|
      ensures IsPossibleStep(st.cfg, st.correct, run.trace, run.evs, i)
      ensures SignedAt(st.cfg, st.correct, run.trace, run.evs, i)
      ensures st.ownRows ==> IsStep(st.cfg, st.correct, run.trace, run.evs, i)
      ensures st.honest ==> HonestAt(st.cfg, run.trace, run.evs, i)
    {
      assert FitsAt(st, run, i);
    }
  }

  lemma Extend(st: Setting, run: Run, ev: Event, next: System) returns (run': Run)
    requires RealRun(st, run) && Fits(st, Now(run), ev) && Typed(st.correct, next)
    requires next == Apply(st.cfg, st.correct, Now(run), ev)
    ensures run' == Run(run.trace + [next], run.evs + [ev]) && RealRun(st, run') && Now(run') == next
  {
    run' := Run(run.trace + [next], run.evs + [ev]);
    forall i: nat | i < |run'.evs| ensures FitsAt(st, run', i) {
      if i < |run.evs| {
        assert FitsAt(st, run, i);
      }
    }
  }

  /** Validator n takes part in the run and is now in state s. */
  ghost predicate Is(st: Setting, run: Run, n: Did, s: Node) {
    match run
    case Run(_, _) => RealRun(st, run) && n in st.correct && n in Now(run).nodes && Now(run).nodes[n] == s
  }

  /** From sys to sys' only validator n has acted. */
  ghost predicate OnlyActs(sys: System, sys': System, n: Did) {
    && sys'.nodes.Keys == sys.nodes.Keys
    && (forall m :: m in sys.nodes && m != n ==> sys'.nodes[m] == sys.nodes[m])
    && sys.votes <= sys'.votes && sys.proposals <= sys'.proposals && sys.decisions <= sys'.decisions
  }

  /** The last step of the run was event ev, at validator n in state s. */
  ghost predicate EndsWith(run: Run, n: Did, s: Node, ev: Event) {
    match run
    case Run(trace, evs) =>
      && |evs| >= 1 && |trace| == |evs| + 1 && evs[|evs| - 1] == ev
      && n in trace[|evs| - 1].nodes && trace[|evs| - 1].nodes[n] == s
  }

  /** One more step of validator n. */
  lemma Act(st: Setting, run: Run, s: Node, ev: Event, e: Effect) returns (run': Run)
    requires !ev.FaultyVote? && !ev.FaultyProposal? && Is(st, run, ev.n, s) && Fits(st, Now(run), ev)
    requires e == NodeEffect(st.cfg, s, ev)
    ensures Is(st, run', ev.n, e.node) && EndsWith(run', ev.n, s, ev)
    ensures Now(run') == Absorb(Now(run), ev.n, e) && OnlyActs(Now(run), Now(run'), ev.n)
  {
    TypedStays(st.correct, Now(run), ev.n, e);
    run' := Extend(st, run, ev, Absorb(Now(run), ev.n, e));
  }

  lemma FaultyVotes(st: Setting, run: Run, v: Vote) returns (run': Run)
    requires RealRun(st, run) && v.voter in Validators(st.cfg) - st.correct
    ensures RealRun(st, run') && Now(run') == Now(run).(votes := Now(run).votes + {v})
  {
    run' := Extend(st, run, FaultyVote(v), Now(run).(votes := Now(run).votes + {v}));
  }

  lemma FaultyProposes(st: Setting, run: Run, p: Proposal) returns (run': Run)
    requires RealRun(st, run) && p.proposerDid in Validators(st.cfg) - st.correct && !st.honest
    ensures RealRun(st, run') && Now(run') == Now(run).(proposals := Now(run).proposals + {p})
  {
    run' := Extend(st, run, FaultyProposal(p), Now(run).(proposals := Now(run).proposals + {p}));
  }

  lemma Begin(st: Setting) returns (run: Run)
    ensures run == Run([Init(st.correct)], []) && RealRun(st, run)
    ensures forall n :: n in st.correct ==> Is(st, run, n, INIT_NODE)
  {
    run := Run([Init(st.correct)], []);
  }

  // ----- rows for a proposal

  function VoteFor(cfg: Config, n: Did, p: Proposal, vtype: VoteType): Vote
    requires p.block.Some?
  {
    Vote(cfg.threadId, p.height, p.round, vtype, p.block.value.blockHash, n)
  }

  /** The rows at the slot of p and of type t are votes of `voters` for the block of p. */
  ghost predicate Rows(cfg: Config, s: Node, p: Proposal, t: VoteType, voters: set<Did>) {
    && p.block.Some?
    && (forall d :: d in voters ==> KeyOf(VoteFor(cfg, d, p, t)) in s.votes)
    && (forall k :: k in s.votes && k == VoteKey(cfg.threadId, p.height, p.round, t, k.voter) ==>
          k.voter in voters && s.votes[k] == p.block.value.blockHash)
  }

  lemma RowAdded(cfg: Config, s: Node, p: Proposal, t: VoteType, voters: set<Did>, d: Did)
    requires Rows(cfg, s, p, t, voters)
    ensures Rows(cfg, SaveVote(s, VoteFor(cfg, d, p, t)), p, t, voters + {d})
  {
  }

  lemma OtherRows(cfg: Config, s: Node, p: Proposal, t: VoteType, voters: set<Did>, v: Vote)
    requires Rows(cfg, s, p, t, voters) && v.vtype != t
    ensures Rows(cfg, SaveVote(s, v), p, t, voters)
  {
  }

  lemma RowsMajority(cfg: Config, s: Node, p: Proposal, t: VoteType, voters: set<Did>)
    requires Rows(cfg, s, p, t, voters) && voters != {}
    ensures IsMajority(cfg, s, p.height, p.round, t, Pick(p.block.value.blockHash, |voters|))
  {
    var x := p.block.value.blockHash;
    forall d | d in voters ensures d in StoreVoters(cfg, s, p.height, p.round, t, x) {
      assert KeyOf(VoteFor(cfg, d, p, t)) in s.votes;
    }
    assert StoreVoters(cfg, s, p.height, p.round, t, x) == voters;
    forall y | y != x ensures Tally(cfg, s, p.height, p.round, t, y) == 0 {
      assert StoreVoters(cfg, s, p.height, p.round, t, y) == {};
    }
  }

  lemma AddedMajority(cfg: Config, s: Node, p: Proposal, t: VoteType, voters: set<Did>, d: Did)
    requires Rows(cfg, s, p, t, voters)
    ensures IsMajority(cfg, SaveVote(s, VoteFor(cfg, d, p, t)), p.height, p.round, t,
                       Pick(p.block.value.blockHash, |voters + {d}|))
  {
    RowAdded(cfg, s, p, t, voters, d);
    RowsMajority(cfg, SaveVote(s, VoteFor(cfg, d, p, t)), p, t, voters + {d});
  }

  // ----- a validator voting on a proposal

  /** Validator n is at the given step of the slot of p, and the rows for the slot are those of the two sets. */
  ghost predicate Voting(cfg: Config, n: Did, s: Node, p: Proposal, step: Step, prevoters: set<Did>,
                         precommitters: set<Did>)
  {
    && s.started && p.block.Some? && |p.block.value.blockHash| >= SHORT_HASH
    && s.cs.height == p.height && s.cs.round == p.round && s.cs.step == step
    && (if step == StepPropose then
          s.cs.lockedRound < 0 && IsProposerAt(cfg, p.proposerDid, p.height, p.round) && n !in prevoters
        else
          s.proposal == Some(p))
    && (step != StepPrecommit ==> n !in precommitters)
    && Rows(cfg, s, p, Prevote, prevoters) && Rows(cfg, s, p, Precommit, precommitters)
  }

  /** Whatever writes a row for p before the proposal arrives. */
  lemma RowBefore(cfg: Config, n: Did, s: Node, p: Proposal, t: VoteType, d: Did, prevoters: set<Did>,
                  precommitters: set<Did>)
    requires Voting(cfg, n, s, p, StepPropose, prevoters, precommitters) && d != n && t != Unspecified
    ensures var s' := SaveVote(s, VoteFor(cfg, d, p, t));
            if t == Prevote then Voting(cfg, n, s', p, StepPropose, prevoters + {d}, precommitters)
            else Voting(cfg, n, s', p, StepPropose, prevoters, precommitters + {d})
  {
    if t == Prevote {
      RowAdded(cfg, s, p, t, prevoters, d);
      OtherRows(cfg, s, p, Precommit, precommitters, VoteFor(cfg, d, p, t));
    } else {
      RowAdded(cfg, s, p, t, precommitters, d);
      OtherRows(cfg, s, p, Prevote, prevoters, VoteFor(cfg, d, p, t));
    }
  }

  lemma PrevoteVoting(cfg: Config, n: Did, s: Node, p: Proposal, now: int, prevoters: set<Did>, precommitters: set<Did>)
    requires Voting(cfg, n, s, p, StepPropose, prevoters, precommitters)
    ensures var e := HandleProposal(cfg, n, s, p, true, now);
            && Voting(cfg, n, e.node, p, StepPrevote, prevoters + {n}, precommitters)
            && e.vote == Some(VoteFor(cfg, n, p, Prevote)) && e.proposal == None && e.decided == None
  {
    var v := VoteFor(cfg, n, p, Prevote);
    RowAdded(cfg, s, p, Prevote, prevoters, n);
    OtherRows(cfg, s, p, Precommit, precommitters, v);
    assert HandleProposal(cfg, n, s, p, true, now).node.votes == SaveVote(s, v).votes;
  }

  /** The rows after a lock: the prevote that came in, and the own precommit. */
  lemma LockRows(cfg: Config, n: Did, s: Node, p: Proposal, d: Did, prevoters: set<Did>, precommitters: set<Did>)
    requires Rows(cfg, s, p, Prevote, prevoters) && Rows(cfg, s, p, Precommit, precommitters)
    ensures var s' := SaveVote(SaveVote(s, VoteFor(cfg, d, p, Prevote)), VoteFor(cfg, n, p, Precommit));
            Rows(cfg, s', p, Prevote, prevoters + {d}) && Rows(cfg, s', p, Precommit, precommitters + {n})
  {
    var v, w := VoteFor(cfg, d, p, Prevote), VoteFor(cfg, n, p, Precommit);
    RowAdded(cfg, s, p, Prevote, prevoters, d);
    OtherRows(cfg, s, p, Precommit, precommitters, v);
    RowAdded(cfg, SaveVote(s, v), p, Precommit, precommitters, n);
    OtherRows(cfg, SaveVote(s, v), p, Prevote, prevoters + {d}, w);
  }

  lemma LockEffect(cfg: Config, n: Did, s: Node, p: Proposal, d: Did, now: int, count: nat)
    requires s.started && p.block.Some? && p.block.value.blockHash != NIL && s.proposal == Some(p)
    requires s.cs.height == p.height && s.cs.round == p.round && s.cs.step == StepPrevote
    requires d in cfg.replicas && count >= QuorumSize(cfg)
    ensures var v, w := VoteFor(cfg, d, p, Prevote), VoteFor(cfg, n, p, Precommit);
            var e := HandleVote(cfg, n, s, v, true, now, Pick(p.block.value.blockHash, count));
            && e.node.votes == SaveVote(SaveVote(s, v), w).votes && e.node.started && e.node.proposal == Some(p)
            && e.node.cs.height == p.height && e.node.cs.round == p.round && e.node.cs.step == StepPrecommit
            && e.vote == Some(w) && e.proposal == None && e.decided == None
  {
    assert VoteCounts(cfg, s, VoteFor(cfg, d, p, Prevote), true);
  }

  lemma LockVoting(cfg: Config, n: Did, s: Node, p: Proposal, d: Did, now: int,
              prevoters: set<Did>, precommitters: set<Did>)
    requires Voting(cfg, n, s, p, StepPrevote, prevoters, precommitters) && d in cfg.replicas
    requires |prevoters + {d}| >= QuorumSize(cfg)
    ensures var e := HandleVote(cfg, n, s, VoteFor(cfg, d, p, Prevote), true, now,
                                Pick(p.block.value.blockHash, |prevoters + {d}|));
            && Voting(cfg, n, e.node, p, StepPrecommit, prevoters + {d}, precommitters + {n})
            && e.vote == Some(VoteFor(cfg, n, p, Precommit)) && e.proposal == None && e.decided == None
  {
    LockRows(cfg, n, s, p, d, prevoters, precommitters);
    LockEffect(cfg, n, s, p, d, now, |prevoters + {d}|);
  }

  lemma CommitVoting(cfg: Config, n: Did, s: Node, p: Proposal, d: Did, now: int, prevoters: set<Did>,
                     precommitters: set<Did>)
    requires Voting(cfg, n, s, p, StepPrecommit, prevoters, precommitters) && d in cfg.replicas
    requires |precommitters + {d}| >= QuorumSize(cfg)
    ensures var e := HandleVote(cfg, n, s, VoteFor(cfg, d, p, Precommit), true, now,
                                Pick(p.block.value.blockHash, |precommitters + {d}|));
            e == CommitBlock(cfg, n, Committing(s, VoteFor(cfg, d, p, Precommit)), p.block.value, now)
  {
    assert VoteCounts(cfg, s, VoteFor(cfg, d, p, Precommit), true);
  }

  /** The state just before a commit: the vote is stored and the precommit deadline is off. */
  function Committing(s: Node, v: Vote): Node {
    var s1 := SaveVote(s, v);
    s1.(timers := s1.timers.(precommitAt := None))
  }

  lemma CommitResult(cfg: Config, n: Did, s: Node, b: Block, now: int)
    requires |b.blockHash| >= SHORT_HASH
    ensures var e := CommitBlock(cfg, n, s, b, now);
            && e.node.cs == FreshState(b.height + 1) && e.node.started == s.started
            && e.decided == Some(Decision(n, s.cs.height, s.cs.round, b.blockHash)) && e.vote == None
            && e.node.blocks == SaveBlock(s, b, now).blocks
    ensures ProposesFrom(cfg, n, FreshState(b.height + 1), CommitBlock(cfg, n, s, b, now))
  {
    var s' := Advance(cfg, SaveBlock(s, b, now), b, now);
    EnterProposeShape(cfg, n, s');
    assert CommitBlock(cfg, n, s, b, now).proposal == EnterPropose(cfg, n, s').proposal;
  }

  /** What the effect proposes, if anything, is a block of n for the height and round of `cs`. */
  predicate ProposesFrom(cfg: Config, n: Did, cs: ConsensusState, e: Effect) {
    e.proposal.Some? ==>
      && IsProposerAt(cfg, n, cs.height, cs.round) && e.proposal.value.block.Some?
      && e.proposal.value.block.value.height == cs.height && e.proposal.value.block.value.proposerDid == n
  }

  // ----- the same in a run

  /** Validator n of the run is voting on p. */
  ghost predicate Votes(st: Setting, run: Run, n: Did, s: Node, p: Proposal, step: Step,
                        prevoters: set<Did>, precommitters: set<Did>) {
    match run
    case Run(_, _) => Is(st, run, n, s) && Voting(st.cfg, n, s, p, step, prevoters, precommitters)
  }

  /** A vote for p that was sent may be delivered. */
  lemma VoteFits(st: Setting, run: Run, n: Did, s: Node, p: Proposal, t: VoteType, voters: set<Did>, d: Did, now: int)
    requires Is(st, run, n, s) && Rows(st.cfg, s, p, t, voters) && VoteFor(st.cfg, d, p, t) in Now(run).votes && now > 0
    ensures Fits(st, Now(run), DeliverVote(n, VoteFor(st.cfg, d, p, t), true, now,
                                           Pick(p.block.value.blockHash, |voters + {d}|)))
  {
    AddedMajority(st.cfg, s, p, t, voters, d);
  }

  /** A vote of another validator arrives before the proposal. */
  lemma Hears(st: Setting, run: Run, n: Did, s: Node, p: Proposal, t: VoteType, d: Did, prevoters: set<Did>,
              precommitters: set<Did>)
    returns (run': Run, s': Node)
    requires Votes(st, run, n, s, p, StepPropose, prevoters, precommitters) && d != n && d in st.cfg.replicas
    requires t != Unspecified && VoteFor(st.cfg, d, p, t) in Now(run).votes
    ensures if t == Prevote then Votes(st, run', n, s', p, StepPropose, prevoters + {d}, precommitters)
            else Votes(st, run', n, s', p, StepPropose, prevoters, precommitters + {d})
    ensures OnlyActs(Now(run), Now(run'), n)
  {
    var v := VoteFor(st.cfg, d, p, t);
    RowBefore(st.cfg, n, s, p, t, d, prevoters, precommitters);
    s' := SaveVote(s, v);
    var voters := if t == Prevote then prevoters else precommitters;
    VoteFits(st, run, n, s, p, t, voters, d, 2);
    var ev := DeliverVote(n, v, true, 2, Pick(p.block.value.blockHash, |voters + {d}|));
    assert NodeEffect(st.cfg, s, ev) == Quiet(s') by {
      assert VoteCounts(st.cfg, s, v, true);
    }
    run' := Act(st, run, s, ev, Quiet(s'));
  }

  lemma PrevotesOn(st: Setting, run: Run, n: Did, s: Node, p: Proposal, prevoters: set<Did>, precommitters: set<Did>)
    returns (run': Run, s': Node)
    requires Votes(st, run, n, s, p, StepPropose, prevoters, precommitters) && p in Now(run).proposals
    ensures Votes(st, run', n, s', p, StepPrevote, prevoters + {n}, precommitters)
    ensures OnlyActs(Now(run), Now(run'), n) && Now(run').proposals == Now(run).proposals
    ensures VoteFor(st.cfg, n, p, Prevote) in Now(run').votes
  {
    var ev := DeliverProposal(n, p, true, 2);
    PrevoteVoting(st.cfg, n, s, p, 2, prevoters, precommitters);
    var e := NodeEffect(st.cfg, s, ev);
    run' := Act(st, run, s, ev, e);
    s' := e.node;
  }

  /** The prevote that completes a quorum arrives. */
  lemma LocksOn(st: Setting, run: Run, n: Did, s: Node, p: Proposal, d: Did, prevoters: set<Did>,
                precommitters: set<Did>)
    returns (run': Run, s': Node)
    requires Votes(st, run, n, s, p, StepPrevote, prevoters, precommitters)
    requires d in st.cfg.replicas && VoteFor(st.cfg, d, p, Prevote) in Now(run).votes
    requires |prevoters + {d}| >= QuorumSize(st.cfg)
    ensures Votes(st, run', n, s', p, StepPrecommit, prevoters + {d}, precommitters + {n})
    ensures OnlyActs(Now(run), Now(run'), n) && Now(run').proposals == Now(run).proposals
    ensures VoteFor(st.cfg, n, p, Precommit) in Now(run').votes
  {
    var v := VoteFor(st.cfg, d, p, Prevote);
    var ev := DeliverVote(n, v, true, 3, Pick(p.block.value.blockHash, |prevoters + {d}|));
    VoteFits(st, run, n, s, p, Prevote, prevoters, d, 3);
    LockVoting(st.cfg, n, s, p, d, 3, prevoters, precommitters);
    var e := NodeEffect(st.cfg, s, ev);
    run' := Act(st, run, s, ev, e);
    s' := e.node;
  }

  /** The precommit of d that completes a quorum. */
  function Last(cfg: Config, n: Did, p: Proposal, d: Did, precommitters: set<Did>): Event
    requires p.block.Some?
  {
    DeliverVote(n, VoteFor(cfg, d, p, Precommit), true, 4, Pick(p.block.value.blockHash, |precommitters + {d}|))
  }

  lemma CommitsOn(st: Setting, run: Run, n: Did, s: Node, p: Proposal, d: Did, prevoters: set<Did>,
                  precommitters: set<Did>)
    returns (run': Run, e: Effect)
    requires Votes(st, run, n, s, p, StepPrecommit, prevoters, precommitters)
    requires d in st.cfg.replicas && VoteFor(st.cfg, d, p, Precommit) in Now(run).votes
    requires |precommitters + {d}| >= QuorumSize(st.cfg)
    ensures Is(st, run', n, e.node) && e.node.cs == FreshState(p.block.value.height + 1) && e.node.started
    ensures OnlyActs(Now(run), Now(run'), n) && ProposesFrom(st.cfg, n, e.node.cs, e)
    ensures Now(run').proposals == Now(run).proposals + (if e.proposal.Some? then {e.proposal.value} else {})
    ensures Decision(n, p.height, p.round, p.block.value.blockHash) in Now(run').decisions
    ensures BlockKey(p.block.value.threadId, p.block.value.height) in e.node.blocks
    ensures EndsWith(run', n, s, Last(st.cfg, n, p, d, precommitters))
  {
    var v := VoteFor(st.cfg, d, p, Precommit);
    var ev := Last(st.cfg, n, p, d, precommitters);
    VoteFits(st, run, n, s, p, Precommit, precommitters, d, 4);
    CommitVoting(st.cfg, n, s, p, d, 4, prevoters, precommitters);
    CommitResult(st.cfg, n, Committing(s, v), p.block.value, 4);
    e := NodeEffect(st.cfg, s, ev);
    run' := Act(st, run, s, ev, e);
  }

  /** A validator whose store already holds 2f other votes of each type for p decides it by itself: on the
      proposal, its own prevote and its own precommit. */
  lemma Decide(st: Setting, run: Run, n: Did, s: Node, p: Proposal, others: set<Did>) returns (run': Run, e: Effect)
    requires Votes(st, run, n, s, p, StepPropose, others, others) && n in st.cfg.replicas && |others| >= 2 * st.cfg.f
    requires p in Now(run).proposals
    ensures Is(st, run', n, e.node) && e.node.cs == FreshState(p.block.value.height + 1)
    ensures OnlyActs(Now(run), Now(run'), n) && ProposesFrom(st.cfg, n, e.node.cs, e)
    ensures Now(run').proposals == Now(run).proposals + (if e.proposal.Some? then {e.proposal.value} else {})
    ensures Decision(n, p.height, p.round, p.block.value.blockHash) in Now(run').decisions
    ensures BlockKey(p.block.value.threadId, p.block.value.height) in e.node.blocks
  {
    var all := others + {n};
    assert all + {n} == all;
    var run1, s1 := PrevotesOn(st, run, n, s, p, others, others);
    var run2, s2 := LocksOn(st, run1, n, s1, p, n, all, others);
    run', e := CommitsOn(st, run2, n, s2, p, n, all, all);
  }

  // ----- starting

  lemma ProposesPending(cfg: Config, n: Did, s: Node)
    requires IsProposerAt(cfg, n, s.cs.height, s.cs.round) && |s.pending| <= MAX_PENDING_PER_BLOCK
    requires |BuildBlock(cfg, n, s, s.pending).blockHash| >= SHORT_HASH
    ensures EnterPropose(cfg, n, s).proposal == Some(BuildProposal(cfg, n, s, s.pending))
    ensures EnterPropose(cfg, n, s).node == s.(pending := [])
  {
    assert s.pending[..|s.pending|] == s.pending;
  }

  function Running(cfg: Config): Node {
    INIT_NODE.(started := true, timers := DISARMED.(proposeAt := Some(1 + cfg.epochMs)))
  }

  lemma StartProposes(cfg: Config, n: Did, q: Proposal)
    requires IsProposerAt(cfg, n, 1, 0) && q == BuildProposal(cfg, n, INIT_NODE.(started := true), [])
    requires |q.block.value.blockHash| >= SHORT_HASH
    ensures Start(cfg, n, INIT_NODE, 1) == Effect(Running(cfg), None, Some(q), None)
  {
    ProposesPending(cfg, n, INIT_NODE.(started := true));
  }

  lemma StartWaits(cfg: Config, n: Did)
    requires !IsProposerAt(cfg, n, 1, 0)
    ensures Start(cfg, n, INIT_NODE, 1) == Effect(Running(cfg), None, None, None)
  {
  }

  /** A run begins with the start of the first proposer. */
  lemma ProposerStarts(st: Setting, n: Did, s: Node, q: Proposal) returns (run: Run)
    requires n in st.correct && Start(st.cfg, n, INIT_NODE, 1) == Effect(s, None, Some(q), None)
    ensures Is(st, run, n, s) && Now(run).proposals == {q} && Now(run).votes == {}
    ensures forall m :: m in st.correct && m != n ==> Now(run).nodes[m] == INIT_NODE
  {
    run := Begin(st);
    run := Act(st, run, INIT_NODE, StartUp(n, 1), Effect(s, None, Some(q), None));
  }

  /** A validator that is not the first proposer starts. */
  lemma Waits(st: Setting, run: Run, n: Did) returns (run': Run)
    requires Is(st, run, n, INIT_NODE) && !IsProposerAt(st.cfg, n, 1, 0)
    ensures Is(st, run', n, Running(st.cfg)) && OnlyActs(Now(run), Now(run'), n)
    ensures Now(run').proposals == Now(run).proposals
  {
    StartWaits(st.cfg, n);
    run' := Act(st, run, INIT_NODE, StartUp(n, 1), Effect(Running(st.cfg), None, None, None));
  }

  /** A running validator has no rows yet. */
  lemma RunningVotes(cfg: Config, n: Did, p: Proposal)
    requires p.block.Some? && |p.block.value.blockHash| >= SHORT_HASH && p.height == 1 && p.round == 0
    requires IsProposerAt(cfg, p.proposerDid, 1, 0)
    ensures Voting(cfg, n, Running(cfg), p, StepPropose, {}, {})
  {
  }
}
