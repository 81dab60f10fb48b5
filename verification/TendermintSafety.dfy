/** What every run keeps, with up to f equivocating validators and arbitrary proposals. */
module TendermintSafety {
  import opened ThreadTypes
  import opened TendermintNode
  import opened TendermintShapes
  import opened TendermintSystem
  import Quorums

  // ----- invariants of every run

  /** Behind every non-nil precommit of a correct validator lies a polka in its own store. */
  ghost predicate PolkaBehindPrecommit(cfg: Config, correct: set<Did>, sys: System)
    requires Typed(correct, sys)
  {
    forall v :: v in sys.votes && v.voter in correct && v.vtype == Precommit && v.blockHash != NIL ==>
      && v.threadId == cfg.threadId
      && Tally(cfg, sys.nodes[v.voter], v.height, v.round, Prevote, v.blockHash) >= QuorumSize(cfg)
  }

  ghost predicate DecisionsBacked(cfg: Config, sys: System) {
    forall d :: d in sys.decisions ==>
      d.hash != NIL && Quorum(cfg, sys.votes, d.height, d.round, Precommit, d.hash)
  }

  /** The lock discipline of one validator. */
  ghost predicate LockInv(cfg: Config, s: Node) {
    var cs := s.cs;
    && cs.round >= 0
    && (cs.lockedRound >= 0 ==>
          && cs.validRound == cs.lockedRound && cs.validHash == cs.lockedHash)
    && (cs.validRound >= 0 ==>
          && cs.validRound <= cs.round && (cs.step != StepPrecommit ==> cs.validRound < cs.round)
          && cs.validHash != NIL
          && Tally(cfg, s, cs.height, cs.validRound, Prevote, cs.validHash) >= QuorumSize(cfg))
  }

  ghost predicate Locks(cfg: Config, sys: System) {
    forall n :: n in sys.nodes ==> LockInv(cfg, sys.nodes[n])
  }

  ghost predicate Safe(cfg: Config, correct: set<Did>, sys: System) {
    && Typed(correct, sys) && Auth(cfg, sys) && PolkaBehindPrecommit(cfg, correct, sys)
    && DecisionsBacked(cfg, sys) && Locks(cfg, sys)
  }

  lemma PolkaStep(cfg: Config, correct: set<Did>, sys: System, n: Did, e: Effect, inbox: set<Vote>, kind: Kind)
    requires NodeStep(cfg, correct, sys, n, e, inbox, kind) && PolkaBehindPrecommit(cfg, correct, sys)
    ensures Typed(correct, Absorb(sys, n, e)) && PolkaBehindPrecommit(cfg, correct, Absorb(sys, n, e))
  {
    var sys' := Absorb(sys, n, e);
    forall v | v in sys'.votes && v.voter in correct && v.vtype == Precommit && v.blockHash != NIL
      ensures v.threadId == cfg.threadId
      ensures Tally(cfg, sys'.nodes[v.voter], v.height, v.round, Prevote, v.blockHash) >= QuorumSize(cfg)
    {
      if v in sys.votes {
        TallyGrows(cfg, sys.nodes[v.voter], sys'.nodes[v.voter], v.height, v.round, Prevote, v.blockHash);
      }
    }
  }

  /** A new decision has its quorum of precommits among the votes that back the store. */
  lemma NewDecisionBacked(cfg: Config, self: Did, s: Node, e: Effect, inbox: set<Vote>, kind: Kind, votes: set<Vote>,
                          d: Decision)
    requires Shape(cfg, self, s, e, inbox, kind) && NodeAuth(cfg, e.node, votes) && e.decided == Some(d)
    ensures d.hash != NIL && Quorum(cfg, votes, d.height, d.round, Precommit, d.hash)
  {
    StoreToSent(cfg, e.node, votes, d.height, d.round, Precommit, d.hash);
  }

  lemma DecisionsStep(cfg: Config, correct: set<Did>, sys: System, n: Did, e: Effect, inbox: set<Vote>, kind: Kind)
    requires NodeStep(cfg, correct, sys, n, e, inbox, kind) && DecisionsBacked(cfg, sys)
    requires Auth(cfg, Absorb(sys, n, e))
    ensures DecisionsBacked(cfg, Absorb(sys, n, e))
  {
    var sys' := Absorb(sys, n, e);
    forall d | d in sys'.decisions
      ensures d.hash != NIL && Quorum(cfg, sys'.votes, d.height, d.round, Precommit, d.hash)
    {
      if d in sys.decisions {
        QuorumGrows(cfg, sys.votes, sys'.votes, d.height, d.round, Precommit, d.hash);
      } else {
        assert NodeAuth(cfg, sys'.nodes[n], sys'.votes);
        NewDecisionBacked(cfg, n, sys.nodes[n], e, inbox, kind, sys'.votes, d);
      }
    }
  }

  lemma LockStep(cfg: Config, self: Did, s: Node, e: Effect, inbox: set<Vote>, kind: Kind)
    requires Shape(cfg, self, s, e, inbox, kind) && LockInv(cfg, s)
    ensures LockInv(cfg, e.node)
  {
    TallyGrows(cfg, s, e.node, s.cs.height, s.cs.validRound, Prevote, s.cs.validHash);
  }

  lemma SafeNodeStep(cfg: Config, correct: set<Did>, sys: System, n: Did, e: Effect, inbox: set<Vote>, kind: Kind)
    requires Safe(cfg, correct, sys) && NodeStep(cfg, correct, sys, n, e, inbox, kind)
    ensures Safe(cfg, correct, Absorb(sys, n, e))
  {
    AuthStep(cfg, correct, sys, n, e, inbox, kind);
    PolkaStep(cfg, correct, sys, n, e, inbox, kind);
    DecisionsStep(cfg, correct, sys, n, e, inbox, kind);
    LockStep(cfg, n, sys.nodes[n], e, inbox, kind);
  }

  lemma SafeFaultyVote(cfg: Config, correct: set<Did>, sys: System, v: Vote)
    requires Safe(cfg, correct, sys) && v.voter !in correct
    ensures Safe(cfg, correct, sys.(votes := sys.votes + {v}))
  {
    var sys' := sys.(votes := sys.votes + {v});
    AuthFaulty(cfg, sys, v);
    forall d | d in sys'.decisions ensures Quorum(cfg, sys'.votes, d.height, d.round, Precommit, d.hash) {
      QuorumGrows(cfg, sys.votes, sys'.votes, d.height, d.round, Precommit, d.hash);
    }
  }

  lemma SafeStep(cfg: Config, correct: set<Did>, sys: System, ev: Event)
    requires correct <= Validators(cfg) && Safe(cfg, correct, sys) && Enabled(cfg, correct, sys, ev)
    ensures Safe(cfg, correct, Apply(cfg, correct, sys, ev))
  {
    match ev {
      case FaultyProposal(_) =>
      case FaultyVote(v) => SafeFaultyVote(cfg, correct, sys, v);
      case _ =>
        var e, inbox, kind := KindOf(cfg, correct, sys, ev);
        SafeNodeStep(cfg, correct, sys, ev.n, e, inbox, kind);
    }
  }

  lemma {:induction false} SafeAlways(cfg: Config, correct: set<Did>, trace: seq<System>, evs: seq<Event>, i: nat)
    requires correct <= Validators(cfg) && IsTrace(cfg, correct, trace, evs) && i < |trace|
    ensures Safe(cfg, correct, trace[i])
  {
    if i == 0 {
      assert Buffered(INIT_NODE) == {};
    } else {
      SafeAlways(cfg, correct, trace, evs, i - 1);
      assert IsStep(cfg, correct, trace, evs, i - 1);
      SafeStep(cfg, correct, trace[i - 1], evs[i - 1]);
    }
  }

  // ----- same-round safety

  /** A store whose rows are votes of validators never holds quorums for two hashes at one (height, round, type). */
  lemma OneStoredQuorum(cfg: Config, s: Node, votes: set<Vote>, h: int, r: int, t: VoteType, x: Hash, y: Hash)
    requires |Validators(cfg)| <= 3 * cfg.f + 1 && NodeAuth(cfg, s, votes)
    requires Tally(cfg, s, h, r, t, x) >= QuorumSize(cfg) && Tally(cfg, s, h, r, t, y) >= QuorumSize(cfg)
    ensures x == y
  {
    if x != y {
      var c := Quorums.CommonCorrect(Validators(cfg), Validators(cfg),
                                     StoreVoters(cfg, s, h, r, t, x), StoreVoters(cfg, s, h, r, t, y), cfg.f);
      assert false;
    }
  }

  /** Two quorums of precommits at one (height, round) are for the same block, whatever was proposed
      and even if validators revisited the height. */
  lemma OnePrecommitQuorum(cfg: Config, correct: set<Did>, sys: System, h: int, r: int, x: Hash, y: Hash)
    requires FaultBound(cfg, correct) && Safe(cfg, correct, sys)
    requires x != NIL && y != NIL
    requires Quorum(cfg, sys.votes, h, r, Precommit, x) && Quorum(cfg, sys.votes, h, r, Precommit, y)
    ensures x == y
  {
    var c := Quorums.CommonCorrect(Validators(cfg), correct, SentVoters(cfg, sys.votes, h, r, Precommit, x),
                                   SentVoters(cfg, sys.votes, h, r, Precommit, y), cfg.f);
    assert Vote(cfg.threadId, h, r, Precommit, x, c) in sys.votes;
    assert Vote(cfg.threadId, h, r, Precommit, y, c) in sys.votes;
    assert NodeAuth(cfg, sys.nodes[c], sys.votes);
    OneStoredQuorum(cfg, sys.nodes[c], sys.votes, h, r, Prevote, x, y);
  }

  /** In every run, no two correct validators decide differently at one (height, round): with at most f
      validators voting arbitrarily and with arbitrary proposals. */
  lemma SameRoundSafety(cfg: Config, correct: set<Did>, trace: seq<System>, evs: seq<Event>,
                        i: nat, j: nat, d1: Decision, d2: Decision)
    requires FaultBound(cfg, correct) && IsTrace(cfg, correct, trace, evs) && i < |trace| && j < |trace|
    requires d1 in trace[i].decisions && d2 in trace[j].decisions
    requires d1.height == d2.height && d1.round == d2.round
    ensures d1.hash == d2.hash
  {
    var k := if i < j then j else i;
    DecisionsStay(cfg, correct, trace, evs, i, k, d1);
    DecisionsStay(cfg, correct, trace, evs, j, k, d2);
    SafeAlways(cfg, correct, trace, evs, k);
    OnePrecommitQuorum(cfg, correct, trace[k], d1.height, d1.round, d1.hash, d2.hash);
  }

  lemma {:induction false} DecisionsStay(cfg: Config, correct: set<Did>, trace: seq<System>, evs: seq<Event>,
                                         i: nat, k: nat, d: Decision)
    requires IsTrace(cfg, correct, trace, evs) && i <= k < |trace| && d in trace[i].decisions
    ensures d in trace[k].decisions
  {
    if i < k {
      DecisionsStay(cfg, correct, trace, evs, i, k - 1, d);
      assert IsStep(cfg, correct, trace, evs, k - 1);
    }
  }

  /** In every run and for every correct validator: a lock names the round of a polka that the
      validator's own store holds, it agrees with the valid value, and its round has been reached. */
  lemma LockDiscipline(cfg: Config, correct: set<Did>, trace: seq<System>, evs: seq<Event>, i: nat, n: Did)
    requires correct <= Validators(cfg) && IsTrace(cfg, correct, trace, evs) && i < |trace| && n in correct
    ensures n in trace[i].nodes
    ensures var s := trace[i].nodes[n];
            s.cs.lockedRound >= 0 ==>
              && s.cs.lockedRound == s.cs.validRound && s.cs.lockedHash == s.cs.validHash
              && s.cs.lockedHash != NIL && s.cs.lockedRound <= s.cs.round
              && Tally(cfg, s, s.cs.height, s.cs.lockedRound, Prevote, s.cs.lockedHash) >= QuorumSize(cfg)
  {
    SafeAlways(cfg, correct, trace, evs, i);
    assert LockInv(cfg, trace[i].nodes[n]);
  }

  // ----- the position never goes backwards, except after committing a block of a lower height

  function StepIndex(step: Step): nat {
    match step case StepPropose => 0 case StepPrevote => 1 case StepPrecommit => 2
  }

  /** (height, round, step) in lexicographic order. */
  predicate NotAfter(a: ConsensusState, b: ConsensusState) {
    || a.height < b.height
    || (a.height == b.height && a.round < b.round)
    || (a.height == b.height && a.round == b.round && StepIndex(a.step) <= StepIndex(b.step))
  }

  /** The commit that moves a validator back: its held block has a lower height than the one it works on.
      `handleProposal` compares the height of the proposal, not of the block inside. */
  ghost predicate CommitsBelow(cfg: Config, s: Node, ev: Event) {
    && ev.DeliverVote? && VoteCounts(cfg, s, ev.v, ev.sigOk)
    && ev.v.vtype == Precommit && ev.v.round == s.cs.round && s.cs.step == StepPrecommit
    && ev.pick.count >= QuorumSize(cfg) && |ev.pick.hash| >= SHORT_HASH
    && s.proposal.Some? && s.proposal.value.block.Some?
    && s.proposal.value.block.value.blockHash == ev.pick.hash
    && s.proposal.value.block.value.height < s.cs.height
  }

  /** For every state and every input: the step keeps (height, round, step) from going backwards
      if and only if it does not commit a block of a lower height. */
  lemma PositionIff(cfg: Config, s: Node, ev: Event)
    requires !ev.FaultyVote? && !ev.FaultyProposal?
    requires s.cs.round >= 0
    requires ev.DeliverVote? ==> IsMajority(cfg, SaveVote(s, ev.v), ev.v.height, ev.v.round, ev.v.vtype, ev.pick)
    ensures NotAfter(s.cs, NodeEffect(cfg, s, ev).node.cs) <==> !CommitsBelow(cfg, s, ev)
  {
    var kind := EventShape(cfg, s, ev);
    if kind.Commit? {
      CommitCame(cfg, s, ev, kind);
      CommitPosition(cfg, ev.n, s, NodeEffect(cfg, s, ev), Inbox(cfg, s, ev), kind);
    } else {
      OtherPosition(cfg, ev.n, s, NodeEffect(cfg, s, ev), Inbox(cfg, s, ev), kind);
      if CommitsBelow(cfg, s, ev) {
        BelowDecides(cfg, s, ev);
        assert false;
      }
    }
  }

  lemma CommitPosition(cfg: Config, self: Did, s: Node, e: Effect, inbox: set<Vote>, kind: Kind)
    requires Shape(cfg, self, s, e, inbox, kind) && kind.Commit? && s.cs.round >= 0
    ensures NotAfter(s.cs, e.node.cs) <==> kind.b.height >= s.cs.height
  {
  }

  lemma OtherPosition(cfg: Config, self: Did, s: Node, e: Effect, inbox: set<Vote>, kind: Kind)
    requires Shape(cfg, self, s, e, inbox, kind) && !kind.Commit?
    ensures NotAfter(s.cs, e.node.cs)
    ensures e.decided.Some? ==> |e.decided.value.hash| < SHORT_HASH
  {
  }

  lemma BelowDecides(cfg: Config, s: Node, ev: Event)
    requires CommitsBelow(cfg, s, ev)
    ensures NodeEffect(cfg, s, ev).decided == Some(Decision(ev.n, s.cs.height, s.cs.round, ev.pick.hash))
  {
  }

  lemma CommitCame(cfg: Config, s: Node, ev: Event, kind: Kind)
    requires ev.DeliverVote? && kind.Commit?
    requires Shape(cfg, ev.n, s, HandleVote(cfg, ev.n, s, ev.v, ev.sigOk, ev.now, ev.pick), Inbox(cfg, s, ev), kind)
    ensures CommitsBelow(cfg, s, ev) <==> kind.b.height < s.cs.height
  {
    var e := HandleVote(cfg, ev.n, s, ev.v, ev.sigOk, ev.now, ev.pick);
    assert e.decided.Some? && e.decided.value.hash == kind.b.blockHash;
    assert VoteCounts(cfg, s, ev.v, ev.sigOk);
    assert ev.v.round == s.cs.round && ev.v.vtype == Precommit;
  }

  // ----- runs in which no commit goes below

  ghost predicate Forward(cfg: Config, correct: set<Did>, trace: seq<System>, evs: seq<Event>)
    requires IsTrace(cfg, correct, trace, evs)
  {
    forall i: nat :: i < |evs| ==> StaysUpAt(cfg, correct, trace, evs, i)
  }

  ghost predicate StaysUpAt(cfg: Config, correct: set<Did>, trace: seq<System>, evs: seq<Event>, i: nat)
    requires i < |evs| && |trace| == |evs| + 1
  {
    IsStep(cfg, correct, trace, evs, i) && StaysUp(cfg, correct, trace[i], evs[i])
  }

  function VoteIndex(t: VoteType): nat {
    match t case Unspecified => 0 case Prevote => 1 case Precommit => 2
  }

  /** The validator has cast the votes of type t at (h, r) that it is ever going to cast. */
  predicate Reached(cs: ConsensusState, h: int, r: int, t: VoteType) {
    || h < cs.height
    || (h == cs.height && (r < cs.round || (r == cs.round && VoteIndex(t) <= StepIndex(cs.step))))
  }

  /** The votes of correct validators lie behind their position. */
  ghost predicate VotesReached(cfg: Config, correct: set<Did>, sys: System)
    requires Typed(correct, sys)
  {
    forall v :: v in sys.votes && v.voter in correct ==>
      && v.threadId == cfg.threadId && v.round >= 0 && v.vtype != Unspecified
      && Reached(sys.nodes[v.voter].cs, v.height, v.round, v.vtype)
  }

  /** There is at most one vote of a correct validator per slot. */
  ghost predicate OnePerSlot(correct: set<Did>, votes: set<Vote>) {
    forall v, w :: v in votes && w in votes && v.voter in correct && SameSlot(v, w) ==> v == w
  }

  predicate SameSlot(v: Vote, w: Vote) {
    v.voter == w.voter && v.height == w.height && v.round == w.round && v.vtype == w.vtype
  }

  ghost predicate Advances(s: Node, kind: Kind) {
    kind.Commit? ==> kind.b.height >= s.cs.height
  }

  /** A step that advances casts only votes in fresh slots. */
  lemma VoteIsFresh(cfg: Config, self: Did, s: Node, e: Effect, inbox: set<Vote>, kind: Kind)
    requires Shape(cfg, self, s, e, inbox, kind) && s.cs.round >= 0 && Advances(s, kind)
    ensures NotAfter(s.cs, e.node.cs)
    ensures e.vote.Some? ==>
              var v := e.vote.value;
              && v.voter == self && v.threadId == cfg.threadId && v.round >= 0 && v.vtype != Unspecified
              && v.height == s.cs.height && v.round == s.cs.round
              && !Reached(s.cs, v.height, v.round, v.vtype) && Reached(e.node.cs, v.height, v.round, v.vtype)
  {
  }

  lemma ReachedStays(a: ConsensusState, b: ConsensusState, h: int, r: int, t: VoteType)
    requires NotAfter(a, b) && Reached(a, h, r, t)
    ensures Reached(b, h, r, t)
  {
  }

  lemma ReachedStep(cfg: Config, correct: set<Did>, sys: System, n: Did, e: Effect, inbox: set<Vote>, kind: Kind)
    requires NodeStep(cfg, correct, sys, n, e, inbox, kind) && VotesReached(cfg, correct, sys)
    requires sys.nodes[n].cs.round >= 0 && Advances(sys.nodes[n], kind)
    ensures Typed(correct, Absorb(sys, n, e)) && VotesReached(cfg, correct, Absorb(sys, n, e))
    ensures OnePerSlot(correct, sys.votes) ==> OnePerSlot(correct, Absorb(sys, n, e).votes)
    ensures forall m :: m in correct ==> NotAfter(sys.nodes[m].cs, Absorb(sys, n, e).nodes[m].cs)
  {
    var sys' := Absorb(sys, n, e);
    TypedStays(correct, sys, n, e);
    VoteIsFresh(cfg, n, sys.nodes[n], e, inbox, kind);
    forall v | v in sys.votes && v.voter in correct
      ensures Reached(sys'.nodes[v.voter].cs, v.height, v.round, v.vtype)
    {
      if v.voter == n {
        ReachedStays(sys.nodes[n].cs, e.node.cs, v.height, v.round, v.vtype);
      }
    }
  }

  ghost predicate StaysUp(cfg: Config, correct: set<Did>, sys: System, ev: Event)
    requires Typed(correct, sys) && Enabled(cfg, correct, sys, ev)
  {
    ev.FaultyVote? || ev.FaultyProposal? || !CommitsBelow(cfg, sys.nodes[ev.n], ev)
  }

  lemma ForwardStep(cfg: Config, correct: set<Did>, sys: System, ev: Event)
    requires correct <= Validators(cfg) && Safe(cfg, correct, sys) && Enabled(cfg, correct, sys, ev)
    requires VotesReached(cfg, correct, sys) && StaysUp(cfg, correct, sys, ev)
    ensures Typed(correct, Apply(cfg, correct, sys, ev)) && VotesReached(cfg, correct, Apply(cfg, correct, sys, ev))
    ensures OnePerSlot(correct, sys.votes) ==> OnePerSlot(correct, Apply(cfg, correct, sys, ev).votes)
    ensures forall n :: n in correct ==> NotAfter(sys.nodes[n].cs, Apply(cfg, correct, sys, ev).nodes[n].cs)
  {
    if !ev.FaultyVote? && !ev.FaultyProposal? {
      var e, inbox, kind := KindOf(cfg, correct, sys, ev);
      assert LockInv(cfg, sys.nodes[ev.n]);
      AdvancesUnlessBelow(cfg, sys.nodes[ev.n], ev, e, inbox, kind);
      ReachedStep(cfg, correct, sys, ev.n, e, inbox, kind);
    }
  }

  lemma ForwardTraceStep(cfg: Config, correct: set<Did>, trace: seq<System>, evs: seq<Event>, i: nat, before: System,
                         after: System)
    requires |trace| == |evs| + 1 && i < |evs| && before == trace[i] && after == trace[i + 1]
    requires correct <= Validators(cfg) && StaysUpAt(cfg, correct, trace, evs, i)
    requires Safe(cfg, correct, before) && VotesReached(cfg, correct, before)
    ensures Typed(correct, after) && VotesReached(cfg, correct, after)
    ensures OnePerSlot(correct, before.votes) ==> OnePerSlot(correct, after.votes)
    ensures forall n :: n in correct ==> NotAfter(before.nodes[n].cs, after.nodes[n].cs)
  {
    ForwardStep(cfg, correct, before, evs[i]);
  }

  lemma ForwardNext(cfg: Config, correct: set<Did>, trace: seq<System>, evs: seq<Event>, i: nat)
    requires correct <= Validators(cfg) && IsTrace(cfg, correct, trace, evs) && i < |evs|
    requires Forward(cfg, correct, trace, evs)
    requires Typed(correct, trace[i]) && VotesReached(cfg, correct, trace[i])
    ensures Typed(correct, trace[i + 1]) && VotesReached(cfg, correct, trace[i + 1])
    ensures OnePerSlot(correct, trace[i].votes) ==> OnePerSlot(correct, trace[i + 1].votes)
    ensures forall n :: n in correct ==> NotAfter(trace[i].nodes[n].cs, trace[i + 1].nodes[n].cs)
  {
    assert StaysUpAt(cfg, correct, trace, evs, i);
    SafeAlways(cfg, correct, trace, evs, i);
    ForwardTraceStep(cfg, correct, trace, evs, i, trace[i], trace[i + 1]);
  }

  lemma {:induction false} ForwardAlways(cfg: Config, correct: set<Did>, trace: seq<System>, evs: seq<Event>, i: nat)
    requires correct <= Validators(cfg) && IsTrace(cfg, correct, trace, evs) && i < |trace|
    requires Forward(cfg, correct, trace, evs)
    ensures Typed(correct, trace[i]) && VotesReached(cfg, correct, trace[i]) && OnePerSlot(correct, trace[i].votes)
  {
    SafeAlways(cfg, correct, trace, evs, i);
    if i > 0 {
      ForwardAlways(cfg, correct, trace, evs, i - 1);
      ForwardNext(cfg, correct, trace, evs, i - 1);
    } else {
      assert trace[0].votes == {};
    }
  }

  lemma AdvancesUnlessBelow(cfg: Config, s: Node, ev: Event, e: Effect, inbox: set<Vote>, kind: Kind)
    requires !ev.FaultyVote? && !ev.FaultyProposal? && e == NodeEffect(cfg, s, ev)
    requires ev.DeliverVote? ==> IsMajority(cfg, SaveVote(s, ev.v), ev.v.height, ev.v.round, ev.v.vtype, ev.pick)
    requires Shape(cfg, ev.n, s, e, inbox, kind) && s.cs.round >= 0 && !CommitsBelow(cfg, s, ev)
    ensures Advances(s, kind)
  {
    PositionIff(cfg, s, ev);
  }

  lemma PositionStep(cfg: Config, correct: set<Did>, trace: seq<System>, evs: seq<Event>, i: nat, n: Did)
    requires correct <= Validators(cfg) && IsTrace(cfg, correct, trace, evs) && i < |evs|
    requires Forward(cfg, correct, trace, evs) && n in correct
    ensures Typed(correct, trace[i]) && Typed(correct, trace[i + 1])
    ensures NotAfter(trace[i].nodes[n].cs, trace[i + 1].nodes[n].cs)
  {
    ForwardAlways(cfg, correct, trace, evs, i);
    ForwardNext(cfg, correct, trace, evs, i);
  }

  lemma NotAfterChains(a: ConsensusState, b: ConsensusState, c: ConsensusState)
    requires NotAfter(a, b) && NotAfter(b, c)
    ensures NotAfter(a, c)
  {
  }

  /** In every run without a commit below: a correct validator's (height, round, step) never goes backwards. */
  lemma {:induction false} PositionForward(cfg: Config, correct: set<Did>, trace: seq<System>, evs: seq<Event>,
                                           i: nat, j: nat, n: Did)
    requires correct <= Validators(cfg) && IsTrace(cfg, correct, trace, evs) && i <= j < |trace|
    requires Forward(cfg, correct, trace, evs) && n in correct
    ensures n in trace[i].nodes && n in trace[j].nodes
    ensures NotAfter(trace[i].nodes[n].cs, trace[j].nodes[n].cs)
  {
    if i == j {
      SafeAlways(cfg, correct, trace, evs, i);
    } else {
      PositionForward(cfg, correct, trace, evs, i, j - 1, n);
      PositionStep(cfg, correct, trace, evs, j - 1, n);
      NotAfterChains(trace[i].nodes[n].cs, trace[j - 1].nodes[n].cs, trace[j].nodes[n].cs);
    }
  }

  /** ... and it sends at most one prevote and one precommit per (height, round). */
  lemma OneVotePerSlot(cfg: Config, correct: set<Did>, trace: seq<System>, evs: seq<Event>, i: nat, v: Vote, w: Vote)
    requires correct <= Validators(cfg) && IsTrace(cfg, correct, trace, evs) && i < |trace|
    requires Forward(cfg, correct, trace, evs)
    requires v in trace[i].votes && w in trace[i].votes && v.voter in correct && SameSlot(v, w)
    ensures v == w
  {
    ForwardAlways(cfg, correct, trace, evs, i);
  }

  /** ... so no two hashes both gather a quorum of prevotes at one (height, round). */
  lemma OnePrevoteQuorum(cfg: Config, correct: set<Did>, trace: seq<System>, evs: seq<Event>, i: nat,
                         h: int, r: int, x: Hash, y: Hash)
    requires FaultBound(cfg, correct) && IsTrace(cfg, correct, trace, evs) && i < |trace|
    requires Forward(cfg, correct, trace, evs)
    requires Quorum(cfg, trace[i].votes, h, r, Prevote, x) && Quorum(cfg, trace[i].votes, h, r, Prevote, y)
    ensures x == y
  {
    var votes := trace[i].votes;
    var c := Quorums.CommonCorrect(Validators(cfg), correct, SentVoters(cfg, votes, h, r, Prevote, x),
                                   SentVoters(cfg, votes, h, r, Prevote, y), cfg.f);
    OneVotePerSlot(cfg, correct, trace, evs, i, Vote(cfg.threadId, h, r, Prevote, x, c),
                   Vote(cfg.threadId, h, r, Prevote, y, c));
  }

  // ----- a condition on the inputs under which runs go forward

  /** The proposal that a validator accepts here holds a block of no lower height than its own. */
  ghost predicate AcceptsHigh(cfg: Config, sys: System, ev: Event) {
    ev.DeliverProposal? && ev.n in sys.nodes && Accepts(cfg, sys.nodes[ev.n], ev.p, ev.sigOk) ==>
      ev.p.block.value.height >= ev.p.height
  }

  ghost predicate AcceptsHighAt(cfg: Config, trace: seq<System>, evs: seq<Event>, i: nat)
    requires i < |evs| && |trace| == |evs| + 1
  {
    AcceptsHigh(cfg, trace[i], evs[i])
  }

  ghost predicate HeldHigh(s: Node) {
    s.proposal.Some? && s.proposal.value.block.Some? ==> s.proposal.value.block.value.height >= s.cs.height
  }

  ghost predicate AllHeldHigh(sys: System) {
    forall n {:trigger HeldHigh(sys.nodes[n])} :: n in sys.nodes ==> HeldHigh(sys.nodes[n])
  }

  lemma HeldHighStep(cfg: Config, self: Did, s: Node, e: Effect, inbox: set<Vote>, kind: Kind)
    requires Shape(cfg, self, s, e, inbox, kind) && HeldHigh(s)
    requires kind.ProposalPrevote? && kind.p.block.Some? ==> kind.p.block.value.height >= kind.p.height
    ensures HeldHigh(e.node)
  {
  }

  lemma AllHeldHighStep(cfg: Config, correct: set<Did>, sys: System, ev: Event)
    requires correct <= Validators(cfg) && Safe(cfg, correct, sys) && Enabled(cfg, correct, sys, ev)
    requires AllHeldHigh(sys) && AcceptsHigh(cfg, sys, ev)
    ensures AllHeldHigh(Apply(cfg, correct, sys, ev))
  {
    var sys' := Apply(cfg, correct, sys, ev);
    if ev.FaultyVote? || ev.FaultyProposal? {
      assert sys'.nodes == sys.nodes;
    } else {
      var e, inbox, kind := KindOf(cfg, correct, sys, ev);
      TypedStays(correct, sys, ev.n, e);
      forall n | n in sys'.nodes ensures HeldHigh(sys'.nodes[n]) {
        assert HeldHigh(sys.nodes[n]);
        if n == ev.n {
          HeldHighStep(cfg, n, sys.nodes[n], e, inbox, kind);
        }
      }
    }
  }

  lemma AllHeldHighNext(cfg: Config, correct: set<Did>, trace: seq<System>, evs: seq<Event>, i: nat)
    requires correct <= Validators(cfg) && IsTrace(cfg, correct, trace, evs) && 0 < i < |trace|
    requires AcceptsHighAt(cfg, trace, evs, i - 1) && AllHeldHigh(trace[i - 1])
    ensures AllHeldHigh(trace[i])
  {
    SafeAlways(cfg, correct, trace, evs, i - 1);
    assert IsStep(cfg, correct, trace, evs, i - 1);
    AllHeldHighStep(cfg, correct, trace[i - 1], evs[i - 1]);
  }

  lemma {:induction false} HeldHighAlways(cfg: Config, correct: set<Did>, trace: seq<System>, evs: seq<Event>, i: nat)
    requires correct <= Validators(cfg) && IsTrace(cfg, correct, trace, evs) && i < |trace|
    requires forall k: nat :: k < |evs| ==> AcceptsHighAt(cfg, trace, evs, k)
    ensures AllHeldHigh(trace[i])
  {
    if i > 0 {
      HeldHighAlways(cfg, correct, trace, evs, i - 1);
      AllHeldHighNext(cfg, correct, trace, evs, i);
    }
  }

  /** For arbitrary proposals: if every proposal that is accepted holds a block of at least its own height,
      no validator of the run ever goes back. */
  lemma HighBlocksGoForward(cfg: Config, correct: set<Did>, trace: seq<System>, evs: seq<Event>)
    requires correct <= Validators(cfg) && IsTrace(cfg, correct, trace, evs)
    requires forall k: nat :: k < |evs| ==> AcceptsHighAt(cfg, trace, evs, k)
    ensures Forward(cfg, correct, trace, evs)
  {
    forall i: nat | i < |evs| ensures StaysUpAt(cfg, correct, trace, evs, i) {
      assert IsStep(cfg, correct, trace, evs, i);
      HeldHighAlways(cfg, correct, trace, evs, i);
      if !evs[i].FaultyVote? && !evs[i].FaultyProposal? {
        assert HeldHigh(trace[i].nodes[evs[i].n]);
      }
    }
  }
}
