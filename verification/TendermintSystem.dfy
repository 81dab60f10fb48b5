/** All validators of one thread together: correct ones run `TendermintNode`, faulty ones may send
    any vote and any proposal. A run is a trace of such steps from the initial state.

    The daemon of a validator keeps the rows of all its threads in one store, so backends of other
    threads may write rows too, also under this thread's id.

    Hypotheses built into the model: a vote of this thread that verifies and names a correct voter was
    sent by it; a step is atomic with its persistence; messages may be lost, delayed, repeated and
    reordered. */
module TendermintSystem {
  import opened ThreadTypes
  import opened TendermintNode
  import opened TendermintShapes
  import Quorums

  datatype System = System(nodes: map<Did, Node>, votes: set<Vote>, proposals: set<Proposal>,
                           decisions: set<Decision>)

  datatype Event =
    | StartUp(n: Did, now: int)
    | DeliverProposal(n: Did, p: Proposal, sigOk: bool, now: int)
    | DeliverVote(n: Did, v: Vote, sigOk: bool, now: int, pick: Pick)
    | ProposeTimeout(n: Did, now: int)
    | PrevoteTimeout(n: Did, now: int)
    | PrecommitTimeout(n: Did, now: int)
    | Crash(n: Did)
    | Submit(n: Did, entry: Entry)
    | ForeignVote(n: Did, v: Vote)
    | ForeignBlock(n: Did, b: Block, now: int)
    | FaultyVote(v: Vote)
    | FaultyProposal(p: Proposal)

  /** At most f of at most 3f+1 distinct validators are faulty. */
  ghost predicate FaultBound(cfg: Config, correct: set<Did>) {
    && correct <= Validators(cfg)
    && |Validators(cfg) - correct| <= cfg.f
    && |Validators(cfg)| <= 3 * cfg.f + 1
  }

  ghost function Init(correct: set<Did>): System {
    System(map n | n in correct :: INIT_NODE, {}, {}, {})
  }

  ghost predicate Typed(correct: set<Did>, sys: System) {
    sys.nodes.Keys == correct
  }

  /** What the code allows. The vote another thread stores was signed by its voter. */
  ghost predicate Possible(cfg: Config, correct: set<Did>, sys: System, ev: Event)
    requires Typed(correct, sys)
  {
    match ev
    case FaultyVote(v) => v.voter !in correct
    case FaultyProposal(_) => true
    case ForeignVote(n, v) =>
      n in correct && (v.threadId == cfg.threadId && v.voter in correct ==> v in sys.votes)
    case DeliverVote(n, v, sigOk, now, pick) =>
      && n in correct && now > 0
      && (sigOk && v.threadId == cfg.threadId ==> v in sys.votes)
      && IsMajority(cfg, SaveVote(sys.nodes[n], v), v.height, v.round, v.vtype, pick)
    case _ => ev.n in correct
  }

  /** The condition on the vote rows another thread writes under this thread's id: they are votes sent
      by validators of this thread. No handler checks it; `handleVote` would have to compare the thread
      of a vote with its own. */
  ghost predicate OwnVotes(cfg: Config, sys: System, ev: Event) {
    ev.ForeignVote? && ev.v.threadId == cfg.threadId ==> ev.v in sys.votes && ev.v.voter in cfg.replicas
  }

  ghost predicate Enabled(cfg: Config, correct: set<Did>, sys: System, ev: Event)
    requires Typed(correct, sys)
  {
    Possible(cfg, correct, sys, ev) && OwnVotes(cfg, sys, ev)
  }

  /** The effect of an event on the validator it is addressed to. */
  ghost function NodeEffect(cfg: Config, s: Node, ev: Event): Effect
    requires !ev.FaultyVote? && !ev.FaultyProposal?
  {
    match ev
    case StartUp(n, now) => Start(cfg, n, s, now)
    case DeliverProposal(n, p, sigOk, now) => HandleProposal(cfg, n, s, p, sigOk, now)
    case DeliverVote(n, v, sigOk, now, pick) => HandleVote(cfg, n, s, v, sigOk, now, pick)
    case ProposeTimeout(n, now) => TickPropose(cfg, n, s, now)
    case PrevoteTimeout(n, now) => TickPrevote(cfg, n, s, now)
    case PrecommitTimeout(n, now) => TickPrecommit(cfg, n, s, now)
    case Crash(_) => Quiet(Restart(s))
    case Submit(_, entry) => Quiet(s.(pending := s.pending + [entry]))
    case ForeignVote(_, v) => Quiet(SaveVote(s, v))
    case ForeignBlock(_, b, now) => Quiet(SaveBlock(s, b, now))
  }

  ghost function Absorb(sys: System, n: Did, e: Effect): System {
    System(sys.nodes[n := e.node],
           sys.votes + (if e.vote.Some? then {e.vote.value} else {}),
           sys.proposals + (if e.proposal.Some? then {e.proposal.value} else {}),
           sys.decisions + (if e.decided.Some? then {e.decided.value} else {}))
  }

  ghost function Apply(cfg: Config, correct: set<Did>, sys: System, ev: Event): System
    requires Typed(correct, sys) && Possible(cfg, correct, sys, ev)
  {
    match ev
    case FaultyVote(v) => sys.(votes := sys.votes + {v})
    case FaultyProposal(p) => sys.(proposals := sys.proposals + {p})
    case _ => Absorb(sys, ev.n, NodeEffect(cfg, sys.nodes[ev.n], ev))
  }

  ghost predicate IsTrace(cfg: Config, correct: set<Did>, trace: seq<System>, evs: seq<Event>) {
    && |trace| == |evs| + 1
    && trace[0] == Init(correct)
    && forall i: nat :: i < |evs| ==> IsStep(cfg, correct, trace, evs, i)
  }

  ghost predicate IsStep(cfg: Config, correct: set<Did>, trace: seq<System>, evs: seq<Event>, i: nat)
    requires i < |evs| && |trace| == |evs| + 1
  {
    Leads(cfg, correct, trace[i], evs[i], trace[i + 1])
  }

  ghost predicate Leads(cfg: Config, correct: set<Did>, sys: System, ev: Event, sys': System) {
    Typed(correct, sys) && Enabled(cfg, correct, sys, ev) && sys' == Apply(cfg, correct, sys, ev)
  }

  /** A run with any rows from other threads; a trace is one whose vote rows meet `OwnVotes`. */
  ghost predicate IsRun(cfg: Config, correct: set<Did>, trace: seq<System>, evs: seq<Event>) {
    && |trace| == |evs| + 1
    && trace[0] == Init(correct)
    && forall i: nat :: i < |evs| ==> IsPossibleStep(cfg, correct, trace, evs, i)
  }

  ghost predicate IsPossibleStep(cfg: Config, correct: set<Did>, trace: seq<System>, evs: seq<Event>, i: nat)
    requires i < |evs| && |trace| == |evs| + 1
  {
    && Typed(correct, trace[i]) && Possible(cfg, correct, trace[i], evs[i])
    && trace[i + 1] == Apply(cfg, correct, trace[i], evs[i])
  }

  /** The theorems about traces hold of exactly the runs in which every foreign vote row meets the condition. */
  lemma TraceIff(cfg: Config, correct: set<Did>, trace: seq<System>, evs: seq<Event>)
    ensures IsTrace(cfg, correct, trace, evs) <==>
            IsRun(cfg, correct, trace, evs) && forall i: nat :: i < |evs| ==> OwnVotes(cfg, trace[i], evs[i])
  {
    if IsTrace(cfg, correct, trace, evs) {
      forall i: nat | i < |evs|
        ensures IsPossibleStep(cfg, correct, trace, evs, i) && OwnVotes(cfg, trace[i], evs[i])
      {
        assert IsStep(cfg, correct, trace, evs, i);
      }
    }
    if IsRun(cfg, correct, trace, evs) && forall i: nat :: i < |evs| ==> OwnVotes(cfg, trace[i], evs[i]) {
      forall i: nat | i < |evs| ensures IsStep(cfg, correct, trace, evs, i) {
        assert IsPossibleStep(cfg, correct, trace, evs, i);
      }
    }
  }

  // ----- quorums of sent votes

  ghost function SentVoters(cfg: Config, votes: set<Vote>, h: int, r: int, t: VoteType, x: Hash): set<Did> {
    set d | d in cfg.replicas && Vote(cfg.threadId, h, r, t, x, d) in votes
  }

  ghost predicate Quorum(cfg: Config, votes: set<Vote>, h: int, r: int, t: VoteType, x: Hash) {
    |SentVoters(cfg, votes, h, r, t, x)| >= QuorumSize(cfg)
  }

  /** Stored rows and buffered votes of the thread were sent, by validators. */
  ghost predicate NodeAuth(cfg: Config, s: Node, votes: set<Vote>) {
    && (forall k :: k in s.votes && k.threadId == cfg.threadId ==>
          k.voter in cfg.replicas && Vote(k.threadId, k.height, k.round, k.vtype, s.votes[k], k.voter) in votes)
    && SentBy(cfg, Buffered(s), votes)
  }

  /** The votes of the thread among `inbox` were sent, by validators. */
  ghost predicate SentBy(cfg: Config, inbox: set<Vote>, votes: set<Vote>) {
    forall v :: v in inbox && v.threadId == cfg.threadId ==> v in votes && v.voter in cfg.replicas
  }

  ghost predicate Auth(cfg: Config, sys: System) {
    forall n :: n in sys.nodes ==> NodeAuth(cfg, sys.nodes[n], sys.votes)
  }

  /** A step of validator n in terms of its kind. */
  ghost predicate NodeStep(cfg: Config, correct: set<Did>, sys: System, n: Did, e: Effect, inbox: set<Vote>, kind: Kind)
  {
    && Typed(correct, sys) && n in correct && n in cfg.replicas
    && Shape(cfg, n, sys.nodes[n], e, inbox, kind)
    && SentBy(cfg, inbox, sys.votes)
    && (kind.Commit? || kind.ShortCommit? ==> kind.now > 0)
  }

  /** The votes an event may add to the store of a validator in state s. */
  ghost function Inbox(cfg: Config, s: Node, ev: Event): set<Vote> {
    Buffered(s) +
    if ev.ForeignVote? || (ev.DeliverVote? && VoteCounts(cfg, s, ev.v, ev.sigOk)) then {ev.v} else {}
  }

  lemma TimerShape(cfg: Config, s: Node, ev: Event) returns (kind: Kind)
    requires ev.ProposeTimeout? || ev.PrevoteTimeout? || ev.PrecommitTimeout?
    ensures Shape(cfg, ev.n, s, NodeEffect(cfg, s, ev), Buffered(s), kind)
    ensures !kind.ProposalPrevote? && !kind.Commit? && !kind.ShortCommit? && !kind.Overwrite?
  {
    match ev {
      case ProposeTimeout(n, now) => kind := TickProposeShape(cfg, n, s, now);
      case PrevoteTimeout(n, now) => kind := TickPrevoteShape(cfg, n, s, now);
      case PrecommitTimeout(n, now) => kind := TickPrecommitShape(cfg, n, s, now);
    }
  }

  lemma LocalShape(cfg: Config, s: Node, ev: Event) returns (kind: Kind)
    requires ev.StartUp? || ev.Crash? || ev.Submit?
    ensures Shape(cfg, ev.n, s, NodeEffect(cfg, s, ev), Buffered(s), kind)
    ensures !kind.ProposalPrevote? && !kind.Commit? && !kind.ShortCommit? && !kind.Overwrite?
  {
    match ev {
      case StartUp(n, now) => kind := StartShape(cfg, n, s, now);
      case Crash(n) => RestartShape(cfg, n, s); kind := Idle;
      case Submit(n, entry) => SubmitShape(cfg, n, s, entry); kind := Idle;
    }
  }

  /** Another thread of the daemon writes a block row under this thread's id. */
  predicate Overwrites(cfg: Config, ev: Event) {
    ev.ForeignBlock? && ev.b.threadId == cfg.threadId
  }

  lemma EventShape(cfg: Config, s: Node, ev: Event) returns (kind: Kind)
    requires !ev.FaultyVote? && !ev.FaultyProposal?
    requires ev.DeliverVote? ==> IsMajority(cfg, SaveVote(s, ev.v), ev.v.height, ev.v.round, ev.v.vtype, ev.pick)
    ensures Shape(cfg, ev.n, s, NodeEffect(cfg, s, ev), Inbox(cfg, s, ev), kind)
    ensures kind.ProposalPrevote? ==> ev.DeliverProposal? && kind.p == ev.p && Accepts(cfg, s, ev.p, ev.sigOk)
    ensures kind.Commit? || kind.ShortCommit? ==> ev.DeliverVote? && kind.now == ev.now
    ensures kind.Overwrite? ==> Overwrites(cfg, ev)
  {
    if ev.DeliverVote? {
      kind := HandleVoteShape(cfg, ev.n, s, ev.v, ev.sigOk, ev.now, ev.pick);
    } else if ev.ForeignVote? {
      ForeignVoteShape(cfg, ev.n, s, ev.v);
      kind := Idle;
    } else {
      assert Inbox(cfg, s, ev) == Buffered(s);
      if ev.DeliverProposal? {
        kind := HandleProposalShape(cfg, ev.n, s, ev.p, ev.sigOk, ev.now);
      } else if ev.ForeignBlock? {
        kind := ForeignBlockShape(cfg, ev.n, s, ev.b, ev.now);
      } else if ev.StartUp? || ev.Crash? || ev.Submit? {
        kind := LocalShape(cfg, s, ev);
      } else {
        kind := TimerShape(cfg, s, ev);
      }
    }
  }

  /** The kind of step an event causes. */
  lemma KindOf(cfg: Config, correct: set<Did>, sys: System, ev: Event) returns (e: Effect, inbox: set<Vote>, kind: Kind)
    requires correct <= Validators(cfg) && Typed(correct, sys) && Auth(cfg, sys) && Enabled(cfg, correct, sys, ev)
    requires !ev.FaultyVote? && !ev.FaultyProposal?
    ensures NodeStep(cfg, correct, sys, ev.n, e, inbox, kind)
    ensures e == NodeEffect(cfg, sys.nodes[ev.n], ev)
    ensures Apply(cfg, correct, sys, ev) == Absorb(sys, ev.n, e)
    ensures kind.ProposalPrevote? ==>
              ev.DeliverProposal? && kind.p == ev.p && Accepts(cfg, sys.nodes[ev.n], ev.p, ev.sigOk)
    ensures kind.Overwrite? ==> Overwrites(cfg, ev)
  {
    var s := sys.nodes[ev.n];
    assert NodeAuth(cfg, s, sys.votes);
    e, inbox := NodeEffect(cfg, s, ev), Inbox(cfg, s, ev);
    kind := EventShape(cfg, s, ev);
  }

  lemma StoreToSent(cfg: Config, s: Node, votes: set<Vote>, h: int, r: int, t: VoteType, x: Hash)
    requires NodeAuth(cfg, s, votes)
    ensures StoreVoters(cfg, s, h, r, t, x) <= SentVoters(cfg, votes, h, r, t, x)
    ensures Tally(cfg, s, h, r, t, x) >= QuorumSize(cfg) ==> Quorum(cfg, votes, h, r, t, x)
  {
    Quorums.SubsetCard(StoreVoters(cfg, s, h, r, t, x), SentVoters(cfg, votes, h, r, t, x));
  }

  lemma QuorumGrows(cfg: Config, a: set<Vote>, b: set<Vote>, h: int, r: int, t: VoteType, x: Hash)
    requires a <= b && Quorum(cfg, a, h, r, t, x)
    ensures Quorum(cfg, b, h, r, t, x)
  {
    Quorums.SubsetCard(SentVoters(cfg, a, h, r, t, x), SentVoters(cfg, b, h, r, t, x));
  }

  lemma TypedStays(correct: set<Did>, sys: System, n: Did, e: Effect)
    requires Typed(correct, sys) && n in correct
    ensures Typed(correct, Absorb(sys, n, e)) && Absorb(sys, n, e).nodes[n] == e.node
    ensures forall m :: m in correct && m != n ==> Absorb(sys, n, e).nodes[m] == sys.nodes[m]
  {
  }

  lemma AuthStep(cfg: Config, correct: set<Did>, sys: System, n: Did, e: Effect, inbox: set<Vote>, kind: Kind)
    requires Auth(cfg, sys) && NodeStep(cfg, correct, sys, n, e, inbox, kind)
    ensures Auth(cfg, Absorb(sys, n, e)) && Typed(correct, Absorb(sys, n, e))
  {
    var sys' := Absorb(sys, n, e);
    assert e.vote.Some? ==> e.vote.value.voter == n;
    assert NodeAuth(cfg, sys.nodes[n], sys.votes);
    assert NodeAuth(cfg, sys'.nodes[n], sys'.votes);
  }

  lemma AuthFaulty(cfg: Config, sys: System, v: Vote)
    requires Auth(cfg, sys)
    ensures Auth(cfg, sys.(votes := sys.votes + {v}))
  {
    var sys' := sys.(votes := sys.votes + {v});
    forall n | n in sys'.nodes ensures NodeAuth(cfg, sys'.nodes[n], sys'.votes) {
      assert NodeAuth(cfg, sys.nodes[n], sys.votes);
    }
  }

  /** For every state and every row from another thread: the rows stay votes of validators if and only if the
      condition on the row holds or the store ignores the row as a duplicate. */
  lemma ForeignVoteIff(cfg: Config, correct: set<Did>, sys: System, n: Did, v: Vote)
    requires Typed(correct, sys) && Auth(cfg, sys) && Possible(cfg, correct, sys, ForeignVote(n, v))
    ensures Auth(cfg, Apply(cfg, correct, sys, ForeignVote(n, v))) <==>
            OwnVotes(cfg, sys, ForeignVote(n, v)) || KeyOf(v) in sys.nodes[n].votes
  {
    var s, s' := sys.nodes[n], SaveVote(sys.nodes[n], v);
    var sys' := Apply(cfg, correct, sys, ForeignVote(n, v));
    assert NodeAuth(cfg, s, sys.votes) && sys'.nodes[n] == s' && Buffered(s') == Buffered(s);
    if OwnVotes(cfg, sys, ForeignVote(n, v)) || KeyOf(v) in s.votes {
      assert NodeAuth(cfg, s', sys.votes);
    } else {
      assert KeyOf(v) in s'.votes && !NodeAuth(cfg, s', sys.votes);
    }
  }
}
