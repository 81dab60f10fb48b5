/** Agreement across rounds and heights. Faulty validators may still vote arbitrarily, but every
    proposal is one that `buildProposal` could have built: `handleProposal` trusts the block hash, the
    parent hash and the PoLC round of a proposal as given, so these claims need that hypothesis. */
module TendermintAgreement {
  import opened ThreadTypes
  import opened TendermintNode
  import opened TendermintShapes
  import opened TendermintSystem
  import opened TendermintSafety
  import Chain
  import Quorums

  // ----- the hypothesis on proposals

  ghost predicate Polka(cfg: Config, votes: set<Vote>, h: int, r: int) {
    exists x :: x != NIL && Quorum(cfg, votes, h, r, Prevote, x)
  }

  ghost predicate Decidable(cfg: Config, votes: set<Vote>, h: int, x: Hash) {
    x != NIL && exists r :: Quorum(cfg, votes, h, r, Precommit, x)
  }

  /** What `buildProposal` guarantees of its result: the block carries its own hash, height and round,
      the PoLC round had a polka, and the parent is a block that was decided one height below. */
  ghost predicate Justified(cfg: Config, votes: set<Vote>, p: Proposal) {
    && p.block.Some? && p.height >= 1
    && var b := p.block.value;
       && b.threadId == cfg.threadId && b.height == p.height && b.round == p.round
       && b.blockHash == BlockHashOf(cfg, b) && |b.blockHash| >= SHORT_HASH
       && (p.polRound >= 0 ==> Polka(cfg, votes, p.height, p.polRound))
       && (if p.height == 1 then b.parentHash == NIL else Decidable(cfg, votes, p.height - 1, b.parentHash))
  }

  /** Proposals of faulty validators are justified, a proposal that verifies was proposed, and no other
      thread of a daemon writes block rows of this thread. */
  ghost predicate HonestEvent(cfg: Config, sys: System, ev: Event) {
    && (ev.DeliverProposal? && ev.sigOk ==> ev.p in sys.proposals)
    && (ev.FaultyProposal? ==> Justified(cfg, sys.votes, ev.p))
    && !Overwrites(cfg, ev)
  }

  ghost predicate HonestAt(cfg: Config, trace: seq<System>, evs: seq<Event>, i: nat)
    requires i < |evs| && |trace| == |evs| + 1
  {
    HonestEvent(cfg, trace[i], evs[i])
  }

  ghost predicate HonestEvents(cfg: Config, trace: seq<System>, evs: seq<Event>)
    requires |trace| == |evs| + 1
  {
    forall i: nat :: i < |evs| ==> HonestAt(cfg, trace, evs, i)
  }

  /** No two blocks proposed in the run have the same hash and different content. */
  ghost predicate HashInjective(cfg: Config, proposals: set<Proposal>) {
    forall p, q :: p in proposals && q in proposals && p.block.Some? && q.block.Some?
                   && BlockHashOf(cfg, p.block.value) == BlockHashOf(cfg, q.block.value)
                   ==> ContentOf(p.block.value) == ContentOf(q.block.value)
  }

  // ----- invariants

  /** A polka at a later round of the height. */
  ghost predicate PolkaAfter(cfg: Config, votes: set<Vote>, h: int, r: int) {
    exists r2 :: r2 > r && Polka(cfg, votes, h, r2)
  }

  ghost predicate AllJustified(cfg: Config, sys: System) {
    forall p {:trigger Justified(cfg, sys.votes, p)} :: p in sys.proposals ==> Justified(cfg, sys.votes, p)
  }

  ghost predicate HeldOK(sys: System) {
    forall n :: n in sys.nodes && sys.nodes[n].proposal.Some? ==>
      && sys.nodes[n].proposal.value in sys.proposals
      && sys.nodes[n].proposal.value.height == sys.nodes[n].cs.height
  }

  ghost predicate Offered(proposals: set<Proposal>, h: int, r: int, x: Hash) {
    exists p :: p in proposals && p.block.Some? && p.height == h && p.round == r && p.block.value.blockHash == x
  }

  /** A correct validator prevotes only nil or a block proposed in that very round. */
  ghost predicate PrevotesOffered(correct: set<Did>, sys: System) {
    forall v :: v in sys.votes && v.voter in correct && v.vtype == Prevote && v.blockHash != NIL ==>
      Offered(sys.proposals, v.height, v.round, v.blockHash)
  }

  /** Vote v, if a non-nil precommit of a correct validator at its height, still holds its lock
      at that round or later, unless there was a later polka. */
  ghost predicate LockedBy(cfg: Config, correct: set<Did>, sys: System, v: Vote)
    requires Typed(correct, sys)
  {
    v.voter in correct && v.vtype == Precommit && v.blockHash != NIL && sys.nodes[v.voter].cs.height == v.height ==>
      sys.nodes[v.voter].cs.lockedRound >= v.round || PolkaAfter(cfg, sys.votes, v.height, v.round)
  }

  ghost predicate StaysLocked(cfg: Config, correct: set<Did>, sys: System)
    requires Typed(correct, sys)
  {
    forall v {:trigger LockedBy(cfg, correct, sys, v)} :: v in sys.votes ==> LockedBy(cfg, correct, sys, v)
  }

  /** A correct validator precommitted v and prevoted w for a block in a later round. */
  predicate Switches(correct: set<Did>, v: Vote, w: Vote) {
    && v.voter in correct && w.voter == v.voter && v.height == w.height && v.round < w.round
    && v.vtype == Precommit && v.blockHash != NIL && w.vtype == Prevote && w.blockHash != NIL
  }

  /** Whoever switches by the votes `after` had seen a later polka in the votes `before`. */
  ghost predicate SwitchesExcused(cfg: Config, correct: set<Did>, before: set<Vote>, after: set<Vote>) {
    forall v, w :: v in after && w in after && Switches(correct, v, w) ==> PolkaAfter(cfg, before, v.height, v.round)
  }

  /** The correct validators that are past (h, r) and did not precommit x there: they never will. */
  ghost function Refusers(cfg: Config, correct: set<Did>, sys: System, h: int, r: int, x: Hash): set<Did>
    requires Typed(correct, sys)
  {
    set c | c in correct && Reached(sys.nodes[c].cs, h, r, Precommit)
            && Vote(cfg.threadId, h, r, Precommit, x, c) !in sys.votes
  }

  /** Too many refuse for x ever to gather a quorum of precommits at (h, r). */
  ghost predicate Doomed(cfg: Config, correct: set<Did>, sys: System, h: int, r: int, x: Hash)
    requires Typed(correct, sys)
  {
    |Refusers(cfg, correct, sys, h, r, x)| + 2 * cfg.f >= |Validators(cfg)|
  }

  ghost predicate LaterPolkaDooms(cfg: Config, correct: set<Did>, sys: System)
    requires Typed(correct, sys)
  {
    forall h, r, x {:trigger Doomed(cfg, correct, sys, h, r, x)} ::
      x != NIL && PolkaAfter(cfg, sys.votes, h, r) ==> Doomed(cfg, correct, sys, h, r, x)
  }

  /** The invariants that bind a lock to the votes and proposals of the run. */
  ghost predicate BoundLocks(cfg: Config, correct: set<Did>, sys: System) {
    && Safe(cfg, correct, sys) && VotesReached(cfg, correct, sys)
    && AllJustified(cfg, sys) && PrevotesOffered(correct, sys) && StaysLocked(cfg, correct, sys)
  }

  // ----- growth

  lemma PolkaGrows(cfg: Config, a: set<Vote>, b: set<Vote>, h: int, r: int)
    requires a <= b && Polka(cfg, a, h, r)
    ensures Polka(cfg, b, h, r)
  {
    var x :| x != NIL && Quorum(cfg, a, h, r, Prevote, x);
    QuorumGrows(cfg, a, b, h, r, Prevote, x);
  }

  lemma PolkaAfterGrows(cfg: Config, a: set<Vote>, b: set<Vote>, h: int, r: int)
    requires a <= b && PolkaAfter(cfg, a, h, r)
    ensures PolkaAfter(cfg, b, h, r)
  {
    var r2 :| r2 > r && Polka(cfg, a, h, r2);
    PolkaGrows(cfg, a, b, h, r2);
  }

  lemma DecidableGrows(cfg: Config, a: set<Vote>, b: set<Vote>, h: int, x: Hash)
    requires a <= b && Decidable(cfg, a, h, x)
    ensures Decidable(cfg, b, h, x)
  {
    var r :| Quorum(cfg, a, h, r, Precommit, x);
    QuorumGrows(cfg, a, b, h, r, Precommit, x);
  }

  lemma JustifiedGrows(cfg: Config, a: set<Vote>, b: set<Vote>, p: Proposal)
    requires a <= b && Justified(cfg, a, p)
    ensures Justified(cfg, b, p)
  {
    if p.polRound >= 0 { PolkaGrows(cfg, a, b, p.height, p.polRound); }
    if p.height != 1 { DecidableGrows(cfg, a, b, p.height - 1, p.block.value.parentHash); }
  }

  // ----- nobody switches without a later polka

  /** A validator locked at a round cannot find its locked hash in a later proposal: the hash covers the round. */
  lemma LockedHashIsOld(cfg: Config, correct: set<Did>, sys: System, n: Did, p: Proposal)
    requires FaultBound(cfg, correct) && Safe(cfg, correct, sys) && n in correct
    requires AllJustified(cfg, sys) && HashInjective(cfg, sys.proposals) && PrevotesOffered(correct, sys)
    requires p in sys.proposals
    requires var cs := sys.nodes[n].cs; cs.lockedRound >= 0 && p.round == cs.round && cs.step == StepPropose
    ensures p.block.Some? && p.block.value.blockHash != sys.nodes[n].cs.lockedHash
  {
    var s := sys.nodes[n];
    var cs := s.cs;
    assert Justified(cfg, sys.votes, p) && LockInv(cfg, s) && NodeAuth(cfg, s, sys.votes);
    StoreToSent(cfg, s, sys.votes, cs.height, cs.lockedRound, Prevote, cs.lockedHash);
    var voters := SentVoters(cfg, sys.votes, cs.height, cs.lockedRound, Prevote, cs.lockedHash);
    Quorums.CorrectInQuorum(Validators(cfg), correct, voters, cfg.f);
    var c :| c in voters * correct;
    var w := Vote(cfg.threadId, cs.height, cs.lockedRound, Prevote, cs.lockedHash, c);
    assert w in sys.votes && Offered(sys.proposals, w.height, w.round, w.blockHash);
    var q :| q in sys.proposals && q.block.Some? && q.height == cs.height && q.round == cs.lockedRound
             && q.block.value.blockHash == cs.lockedHash;
    assert Justified(cfg, sys.votes, q);
  }

  /** The prevote rule: a correct validator that precommitted v prevotes a block only after a later polka. */
  lemma PrevoteExcused(cfg: Config, correct: set<Did>, sys: System, n: Did, e: Effect, inbox: set<Vote>, kind: Kind,
                       v: Vote)
    requires FaultBound(cfg, correct) && BoundLocks(cfg, correct, sys) && HashInjective(cfg, sys.proposals)
    requires NodeStep(cfg, correct, sys, n, e, inbox, kind) && kind.ProposalPrevote? && kind.p in sys.proposals
    requires v in sys.votes && v.voter == n && v.vtype == Precommit && v.blockHash != NIL
    requires v.height == sys.nodes[n].cs.height
    requires e.vote.value.blockHash != NIL || e.node.cs.lockedRound != sys.nodes[n].cs.lockedRound
    ensures PolkaAfter(cfg, sys.votes, v.height, v.round)
  {
    var s := sys.nodes[n];
    assert LockedBy(cfg, correct, sys, v);
    if s.cs.lockedRound >= v.round {
      assert v.round >= 0;
      LockedHashIsOld(cfg, correct, sys, n, kind.p);
      assert Justified(cfg, sys.votes, kind.p);
      assert kind.p.polRound > s.cs.lockedRound;
      assert Polka(cfg, sys.votes, v.height, kind.p.polRound);
    }
  }

  /** The invariants of runs with honest proposals that concern votes. */
  ghost predicate VoteInv(cfg: Config, correct: set<Did>, sys: System) {
    && BoundLocks(cfg, correct, sys) && HeldOK(sys)
    && SwitchesExcused(cfg, correct, sys.votes, sys.votes) && LaterPolkaDooms(cfg, correct, sys)
  }

  /** A step of a correct validator in a run with honest proposals. */
  ghost predicate HonestStep(cfg: Config, correct: set<Did>, sys: System, n: Did, e: Effect, inbox: set<Vote>,
                             kind: Kind)
  {
    && NodeStep(cfg, correct, sys, n, e, inbox, kind)
    && (kind.ProposalPrevote? ==> kind.p in sys.proposals)
    && Advances(sys.nodes[n], kind) && !kind.Overwrite?
  }

  lemma NewVoteFresh(cfg: Config, correct: set<Did>, sys: System, n: Did, e: Effect, inbox: set<Vote>, kind: Kind)
    requires Safe(cfg, correct, sys) && HonestStep(cfg, correct, sys, n, e, inbox, kind)
    ensures NotAfter(sys.nodes[n].cs, e.node.cs)
    ensures e.vote.Some? ==>
              var v := e.vote.value;
              && v.voter == n && v.threadId == cfg.threadId && v.height == sys.nodes[n].cs.height
              && v.round == sys.nodes[n].cs.round && v.round >= 0
              && !Reached(sys.nodes[n].cs, v.height, v.round, v.vtype)
  {
    assert LockInv(cfg, sys.nodes[n]);
    VoteIsFresh(cfg, n, sys.nodes[n], e, inbox, kind);
  }

  /** A new vote comes last: what its voter cast at that height before is of no later round. */
  lemma NewVoteIsLast(cfg: Config, correct: set<Did>, sys: System, n: Did, e: Effect, inbox: set<Vote>, kind: Kind,
                      w: Vote)
    requires Safe(cfg, correct, sys) && VotesReached(cfg, correct, sys)
    requires HonestStep(cfg, correct, sys, n, e, inbox, kind)
    requires e.vote.Some? && w in sys.votes && w.voter == e.vote.value.voter && w.height == e.vote.value.height
    ensures w.round <= e.vote.value.round
  {
    NewVoteFresh(cfg, correct, sys, n, e, inbox, kind);
    assert Reached(sys.nodes[n].cs, w.height, w.round, w.vtype);
  }

  lemma OnlyNewVote(sys: System, n: Did, e: Effect, v: Vote)
    requires v in Absorb(sys, n, e).votes && v !in sys.votes
    ensures e.vote == Some(v)
  {
  }

  /** Only an accepted proposal makes a validator prevote a block. */
  lemma PrevoteKind(cfg: Config, self: Did, s: Node, e: Effect, inbox: set<Vote>, kind: Kind)
    requires Shape(cfg, self, s, e, inbox, kind)
    requires e.vote.Some? && e.vote.value.vtype == Prevote && e.vote.value.blockHash != NIL
    ensures kind.ProposalPrevote? && e.vote.value.voter == self && e.vote.value.height == s.cs.height
  {
  }

  lemma NewPrevoteExcused(cfg: Config, correct: set<Did>, sys: System, n: Did, e: Effect, inbox: set<Vote>, kind: Kind,
                          v: Vote)
    requires FaultBound(cfg, correct) && BoundLocks(cfg, correct, sys) && HashInjective(cfg, sys.proposals)
    requires HonestStep(cfg, correct, sys, n, e, inbox, kind) && e.vote.Some?
    requires v in sys.votes && Switches(correct, v, e.vote.value)
    ensures PolkaAfter(cfg, sys.votes, v.height, v.round)
  {
    PrevoteKind(cfg, n, sys.nodes[n], e, inbox, kind);
    PrevoteExcused(cfg, correct, sys, n, e, inbox, kind, v);
  }

  lemma NoNewSwitcher(cfg: Config, correct: set<Did>, sys: System, n: Did, e: Effect, inbox: set<Vote>, kind: Kind,
                      w: Vote)
    requires Safe(cfg, correct, sys) && VotesReached(cfg, correct, sys)
    requires HonestStep(cfg, correct, sys, n, e, inbox, kind)
    requires e.vote.Some? && w in sys.votes
    ensures !Switches(correct, e.vote.value, w)
  {
    if Switches(correct, e.vote.value, w) {
      NewVoteIsLast(cfg, correct, sys, n, e, inbox, kind, w);
    }
  }

  lemma SwitchStep(cfg: Config, correct: set<Did>, sys: System, n: Did, e: Effect, inbox: set<Vote>, kind: Kind)
    requires FaultBound(cfg, correct) && BoundLocks(cfg, correct, sys) && HashInjective(cfg, sys.proposals)
    requires HonestStep(cfg, correct, sys, n, e, inbox, kind) && SwitchesExcused(cfg, correct, sys.votes, sys.votes)
    ensures SwitchesExcused(cfg, correct, sys.votes, Absorb(sys, n, e).votes)
  {
    var after := Absorb(sys, n, e).votes;
    forall v, w | v in after && w in after && Switches(correct, v, w)
      ensures PolkaAfter(cfg, sys.votes, v.height, v.round)
    {
      if w !in sys.votes {
        OnlyNewVote(sys, n, e, w);
        NewPrevoteExcused(cfg, correct, sys, n, e, inbox, kind, v);
      } else if v !in sys.votes {
        OnlyNewVote(sys, n, e, v);
        NoNewSwitcher(cfg, correct, sys, n, e, inbox, kind, w);
      }
    }
  }

  lemma ExcuseGrows(cfg: Config, correct: set<Did>, before: set<Vote>, after: set<Vote>)
    requires before <= after && SwitchesExcused(cfg, correct, before, after)
    ensures SwitchesExcused(cfg, correct, after, after)
  {
    forall v, w | v in after && w in after && Switches(correct, v, w)
      ensures PolkaAfter(cfg, after, v.height, v.round)
    {
      PolkaAfterGrows(cfg, before, after, v.height, v.round);
    }
  }

  // ----- a later polka leaves too many refusers

  /** Refusal is for ever. */
  lemma RefusersGrow(cfg: Config, correct: set<Did>, sys: System, sys': System, h: int, r: int, x: Hash)
    requires Typed(correct, sys) && Typed(correct, sys')
    requires forall c :: c in correct ==> NotAfter(sys.nodes[c].cs, sys'.nodes[c].cs)
    requires forall v :: v in sys'.votes && v !in sys.votes && v.voter in correct ==>
               !Reached(sys.nodes[v.voter].cs, v.height, v.round, v.vtype)
    ensures Refusers(cfg, correct, sys, h, r, x) <= Refusers(cfg, correct, sys', h, r, x)
    ensures Doomed(cfg, correct, sys, h, r, x) ==> Doomed(cfg, correct, sys', h, r, x)
  {
    forall c | c in Refusers(cfg, correct, sys, h, r, x) ensures c in Refusers(cfg, correct, sys', h, r, x) {
      ReachedStays(sys.nodes[c].cs, sys'.nodes[c].cs, h, r, Precommit);
    }
    Quorums.SubsetCard(Refusers(cfg, correct, sys, h, r, x), Refusers(cfg, correct, sys', h, r, x));
  }

  /** The first later polka: its correct voters are past (h, r) and precommitted no block there. */
  lemma FirstPolkaDooms(cfg: Config, correct: set<Did>, before: set<Vote>, sys: System, h: int, r: int, x: Hash)
    requires FaultBound(cfg, correct) && Typed(correct, sys) && VotesReached(cfg, correct, sys)
    requires SwitchesExcused(cfg, correct, before, sys.votes)
    requires x != NIL && PolkaAfter(cfg, sys.votes, h, r) && !PolkaAfter(cfg, before, h, r)
    ensures Doomed(cfg, correct, sys, h, r, x)
  {
    var r2 :| r2 > r && Polka(cfg, sys.votes, h, r2);
    var y :| y != NIL && Quorum(cfg, sys.votes, h, r2, Prevote, y);
    var voters := SentVoters(cfg, sys.votes, h, r2, Prevote, y);
    forall c | c in voters * correct ensures c in Refusers(cfg, correct, sys, h, r, x) {
      var w := Vote(cfg.threadId, h, r2, Prevote, y, c);
      var v := Vote(cfg.threadId, h, r, Precommit, x, c);
      assert w in sys.votes && Reached(sys.nodes[c].cs, h, r2, Prevote);
      assert v in sys.votes ==> Switches(correct, v, w);
    }
    Quorums.CorrectInQuorum(Validators(cfg), correct, voters, cfg.f);
    Quorums.SubsetCard(voters * correct, Refusers(cfg, correct, sys, h, r, x));
  }

  lemma DoomStep(cfg: Config, correct: set<Did>, sys: System, sys': System)
    requires FaultBound(cfg, correct) && Typed(correct, sys) && LaterPolkaDooms(cfg, correct, sys)
    requires Typed(correct, sys') && VotesReached(cfg, correct, sys')
    requires SwitchesExcused(cfg, correct, sys.votes, sys'.votes)
    requires forall c :: c in correct ==> NotAfter(sys.nodes[c].cs, sys'.nodes[c].cs)
    requires forall v :: v in sys'.votes && v !in sys.votes && v.voter in correct ==>
               !Reached(sys.nodes[v.voter].cs, v.height, v.round, v.vtype)
    ensures LaterPolkaDooms(cfg, correct, sys')
  {
    forall h, r, x | x != NIL && PolkaAfter(cfg, sys'.votes, h, r) ensures Doomed(cfg, correct, sys', h, r, x) {
      if PolkaAfter(cfg, sys.votes, h, r) {
        assert Doomed(cfg, correct, sys, h, r, x);
        RefusersGrow(cfg, correct, sys, sys', h, r, x);
      } else {
        FirstPolkaDooms(cfg, correct, sys.votes, sys', h, r, x);
      }
    }
  }

  /** Once 2f+1 precommits for a block exist at (h, r), no later round of the height gathers 2f+1 prevotes
      for any block. */
  lemma PrecommitQuorumEndsHeight(cfg: Config, correct: set<Did>, sys: System, h: int, r: int, x: Hash)
    requires FaultBound(cfg, correct) && Typed(correct, sys) && LaterPolkaDooms(cfg, correct, sys)
    requires x != NIL && Quorum(cfg, sys.votes, h, r, Precommit, x)
    ensures !PolkaAfter(cfg, sys.votes, h, r)
  {
    if PolkaAfter(cfg, sys.votes, h, r) {
      assert Doomed(cfg, correct, sys, h, r, x);
      var a, b := SentVoters(cfg, sys.votes, h, r, Precommit, x), Refusers(cfg, correct, sys, h, r, x);
      Quorums.UnionCard(a, b);
      assert a * b == {};
      Quorums.SubsetCard(a + b, Validators(cfg));
      assert false;
    }
  }

  /** At most one block of a height can be decided, and in one round only. */
  lemma OneDecision(cfg: Config, correct: set<Did>, sys: System, h: int, r1: int, x: Hash, r2: int, y: Hash)
    requires FaultBound(cfg, correct) && Safe(cfg, correct, sys) && LaterPolkaDooms(cfg, correct, sys)
    requires x != NIL && Quorum(cfg, sys.votes, h, r1, Precommit, x)
    requires y != NIL && Quorum(cfg, sys.votes, h, r2, Precommit, y)
    ensures r1 == r2 && x == y
  {
    PolkaBehindQuorum(cfg, correct, sys, h, r1, x);
    PolkaBehindQuorum(cfg, correct, sys, h, r2, y);
    PrecommitQuorumEndsHeight(cfg, correct, sys, h, r1, x);
    PrecommitQuorumEndsHeight(cfg, correct, sys, h, r2, y);
    assert r1 == r2;
    OnePrecommitQuorum(cfg, correct, sys, h, r1, x, y);
  }

  lemma PolkaBehindQuorum(cfg: Config, correct: set<Did>, sys: System, h: int, r: int, x: Hash)
    requires FaultBound(cfg, correct) && Safe(cfg, correct, sys)
    requires x != NIL && Quorum(cfg, sys.votes, h, r, Precommit, x)
    ensures Polka(cfg, sys.votes, h, r)
  {
    var voters := SentVoters(cfg, sys.votes, h, r, Precommit, x);
    Quorums.CorrectInQuorum(Validators(cfg), correct, voters, cfg.f);
    var c :| c in voters * correct;
    assert Vote(cfg.threadId, h, r, Precommit, x, c) in sys.votes;
    assert NodeAuth(cfg, sys.nodes[c], sys.votes);
    StoreToSent(cfg, sys.nodes[c], sys.votes, h, r, Prevote, x);
  }

  // ----- each invariant survives a step

  lemma StaysLockedStep(cfg: Config, correct: set<Did>, sys: System, n: Did, e: Effect, inbox: set<Vote>, kind: Kind)
    requires FaultBound(cfg, correct) && BoundLocks(cfg, correct, sys) && HashInjective(cfg, sys.proposals)
    requires HonestStep(cfg, correct, sys, n, e, inbox, kind)
    ensures Typed(correct, Absorb(sys, n, e)) && StaysLocked(cfg, correct, Absorb(sys, n, e))
  {
    forall v | v in Absorb(sys, n, e).votes ensures LockedBy(cfg, correct, Absorb(sys, n, e), v) {
      if v in sys.votes {
        LockKept(cfg, correct, sys, n, e, inbox, kind, v);
      } else {
        NewLock(cfg, correct, sys, n, e, inbox, kind, v);
      }
    }
  }

  lemma NewLock(cfg: Config, correct: set<Did>, sys: System, n: Did, e: Effect, inbox: set<Vote>, kind: Kind, v: Vote)
    requires NodeStep(cfg, correct, sys, n, e, inbox, kind) && e.vote == Some(v)
    ensures Typed(correct, Absorb(sys, n, e)) && LockedBy(cfg, correct, Absorb(sys, n, e), v)
  {
  }

  lemma LockKept(cfg: Config, correct: set<Did>, sys: System, n: Did, e: Effect, inbox: set<Vote>, kind: Kind, v: Vote)
    requires FaultBound(cfg, correct) && BoundLocks(cfg, correct, sys) && HashInjective(cfg, sys.proposals)
    requires HonestStep(cfg, correct, sys, n, e, inbox, kind) && v in sys.votes
    ensures Typed(correct, Absorb(sys, n, e)) && LockedBy(cfg, correct, Absorb(sys, n, e), v)
  {
    var s := sys.nodes[n];
    TypedStays(correct, sys, n, e);
    LockChange(cfg, n, s, e, inbox, kind);
    assert LockedBy(cfg, correct, sys, v);
    if v.voter == n && v.vtype == Precommit && v.blockHash != NIL && e.node.cs.height == v.height {
      assert Reached(s.cs, v.height, v.round, Precommit);
      if kind.ProposalPrevote? && e.node.cs.lockedRound != s.cs.lockedRound {
        PrevoteExcused(cfg, correct, sys, n, e, inbox, kind, v);
      }
    }
    if PolkaAfter(cfg, sys.votes, v.height, v.round) {
      PolkaAfterGrows(cfg, sys.votes, Absorb(sys, n, e).votes, v.height, v.round);
    }
  }

  /** What a step that advances can do to a lock at the same height: nothing, a lock at the current round,
      or what a prevote on a proposal does to it. */
  lemma LockChange(cfg: Config, self: Did, s: Node, e: Effect, inbox: set<Vote>, kind: Kind)
    requires Shape(cfg, self, s, e, inbox, kind) && Advances(s, kind)
    ensures e.node.cs.height >= s.cs.height
    ensures e.node.cs.height == s.cs.height && !kind.ProposalPrevote? ==>
              e.node.cs.lockedRound == s.cs.lockedRound || e.node.cs.lockedRound == s.cs.round
  {
  }

  lemma OfferedStep(cfg: Config, correct: set<Did>, sys: System, n: Did, e: Effect, inbox: set<Vote>, kind: Kind)
    requires PrevotesOffered(correct, sys) && HonestStep(cfg, correct, sys, n, e, inbox, kind)
    ensures PrevotesOffered(correct, Absorb(sys, n, e))
  {
    var sys' := Absorb(sys, n, e);
    forall v | v in sys'.votes && v.voter in correct && v.vtype == Prevote && v.blockHash != NIL
      ensures Offered(sys'.proposals, v.height, v.round, v.blockHash)
    {
      if v in sys.votes {
        var p :| p in sys.proposals && p.block.Some? && p.height == v.height && p.round == v.round
                 && p.block.value.blockHash == v.blockHash;
        assert p in sys'.proposals;
      } else {
        assert kind.p in sys'.proposals;
      }
    }
  }

  lemma HeldStep(cfg: Config, correct: set<Did>, sys: System, n: Did, e: Effect, inbox: set<Vote>, kind: Kind)
    requires HeldOK(sys) && HonestStep(cfg, correct, sys, n, e, inbox, kind)
    ensures HeldOK(Absorb(sys, n, e))
  {
  }

  /** A commit of a held honest proposal is at the validator's own height, with a full-length hash. */
  lemma HonestCommitAdvances(cfg: Config, correct: set<Did>, sys: System, n: Did, e: Effect, inbox: set<Vote>,
                             kind: Kind)
    requires Typed(correct, sys) && AllJustified(cfg, sys) && HeldOK(sys)
    requires NodeStep(cfg, correct, sys, n, e, inbox, kind)
    ensures Advances(sys.nodes[n], kind) && !kind.ShortCommit?
    ensures kind.Commit? ==>
              && kind.b.height == sys.nodes[n].cs.height
              && sys.nodes[n].proposal.Some? && sys.nodes[n].proposal.value in sys.proposals
  {
    if kind.Commit? || kind.ShortCommit? {
      assert Holds(sys.nodes[n], kind.b);
      assert Justified(cfg, sys.votes, sys.nodes[n].proposal.value);
    }
  }

  // ----- the committed chain of one validator

  ghost predicate Proposed(proposals: set<Proposal>, c: Content) {
    exists p :: p in proposals && p.block.Some? && ContentOf(p.block.value) == c
  }

  /** Row k of the block table: decided, hashed, linked to row k-1. */
  ghost predicate RowOK(cfg: Config, s: Node, votes: set<Vote>, proposals: set<Proposal>, k: int) {
    && BlockKey(cfg.threadId, k) in s.blocks
    && var b := s.blocks[BlockKey(cfg.threadId, k)];
       && b.threadId == cfg.threadId && b.height == k && b.committedAt > 0
       && BlockHashOf(cfg, b) == b.blockHash && Proposed(proposals, ContentOf(b))
       && Decidable(cfg, votes, k, b.blockHash)
       && if k == 1 then b.parentHash == NIL
          else BlockKey(cfg.threadId, k - 1) in s.blocks
               && b.parentHash == s.blocks[BlockKey(cfg.threadId, k - 1)].blockHash
  }

  ghost predicate ChainInv(cfg: Config, s: Node, votes: set<Vote>, proposals: set<Proposal>) {
    s.cs.height >= 1 && forall k :: 1 <= k < s.cs.height ==> RowOK(cfg, s, votes, proposals, k)
  }

  ghost predicate ChainsOK(cfg: Config, sys: System) {
    forall n {:trigger ChainInv(cfg, sys.nodes[n], sys.votes, sys.proposals)} ::
      n in sys.nodes ==> ChainInv(cfg, sys.nodes[n], sys.votes, sys.proposals)
  }

  lemma RowGrows(cfg: Config, s: Node, s': Node, votes: set<Vote>, votes': set<Vote>,
                 proposals: set<Proposal>, proposals': set<Proposal>, k: int)
    requires RowOK(cfg, s, votes, proposals, k) && votes <= votes' && proposals <= proposals'
    requires BlockKey(cfg.threadId, k) in s'.blocks
             && s'.blocks[BlockKey(cfg.threadId, k)] == s.blocks[BlockKey(cfg.threadId, k)]
    requires BlockKey(cfg.threadId, k - 1) in s.blocks ==>
               BlockKey(cfg.threadId, k - 1) in s'.blocks
               && s'.blocks[BlockKey(cfg.threadId, k - 1)] == s.blocks[BlockKey(cfg.threadId, k - 1)]
    ensures RowOK(cfg, s', votes', proposals', k)
  {
    var b := s.blocks[BlockKey(cfg.threadId, k)];
    DecidableGrows(cfg, votes, votes', k, b.blockHash);
    var p :| p in proposals && p.block.Some? && ContentOf(p.block.value) == ContentOf(b);
    assert p in proposals';
  }

  lemma StoredContent(b: Block, now: int)
    ensures ContentOf(Stored(b.(committedAt := now))) == ContentOf(b)
  {
    assert StripAll(StripAll(b.entries)) == StripAll(b.entries);
  }

  lemma ParentMatches(cfg: Config, correct: set<Did>, sys: System, s: Node, p: Proposal)
    requires FaultBound(cfg, correct) && VoteInv(cfg, correct, sys)
    requires ChainInv(cfg, s, sys.votes, sys.proposals) && Justified(cfg, sys.votes, p) && p.height == s.cs.height > 1
    ensures var key := BlockKey(cfg.threadId, p.height - 1);
            key in s.blocks && p.block.value.parentHash == s.blocks[key].blockHash
  {
    assert RowOK(cfg, s, sys.votes, sys.proposals, p.height - 1);
    SameDecision(cfg, correct, sys, p.height - 1, p.block.value.parentHash,
                 s.blocks[BlockKey(cfg.threadId, p.height - 1)].blockHash);
  }

  lemma NewRow(cfg: Config, self: Did, s: Node, e: Effect, inbox: set<Vote>, kind: Kind, votes: set<Vote>,
               proposals: set<Proposal>)
    requires Shape(cfg, self, s, e, inbox, kind) && kind.Commit? && kind.now > 0
    requires NodeAuth(cfg, e.node, votes) && s.proposal.value in proposals && Justified(cfg, votes, s.proposal.value)
    requires s.proposal.value.height == s.cs.height
    requires s.cs.height > 1 ==>
               var key := BlockKey(cfg.threadId, s.cs.height - 1);
               key in s.blocks && kind.b.parentHash == s.blocks[key].blockHash
    ensures RowOK(cfg, e.node, votes, proposals, s.cs.height)
  {
    var b := kind.b;
    StoredContent(b, kind.now);
    assert Proposed(proposals, ContentOf(b));
    StoreToSent(cfg, e.node, votes, s.cs.height, s.cs.round, Precommit, b.blockHash);
    assert Decidable(cfg, votes, s.cs.height, b.blockHash);
  }

  lemma SameDecision(cfg: Config, correct: set<Did>, sys: System, h: int, x: Hash, y: Hash)
    requires FaultBound(cfg, correct) && VoteInv(cfg, correct, sys)
    requires Decidable(cfg, sys.votes, h, x) && Decidable(cfg, sys.votes, h, y)
    ensures x == y
  {
    var r1 :| Quorum(cfg, sys.votes, h, r1, Precommit, x);
    var r2 :| Quorum(cfg, sys.votes, h, r2, Precommit, y);
    OneDecision(cfg, correct, sys, h, r1, x, r2, y);
  }

  lemma CommitRow(cfg: Config, correct: set<Did>, sys: System, n: Did, e: Effect, inbox: set<Vote>, kind: Kind)
    requires FaultBound(cfg, correct) && VoteInv(cfg, correct, sys) && ChainsOK(cfg, sys)
    requires HonestStep(cfg, correct, sys, n, e, inbox, kind) && kind.Commit?
    requires Auth(cfg, Absorb(sys, n, e))
    ensures RowOK(cfg, e.node, Absorb(sys, n, e).votes, Absorb(sys, n, e).proposals, sys.nodes[n].cs.height)
  {
    var sys' := Absorb(sys, n, e);
    var s := sys.nodes[n];
    HonestCommitAdvances(cfg, correct, sys, n, e, inbox, kind);
    var p := s.proposal.value;
    assert Justified(cfg, sys.votes, p);
    if s.cs.height > 1 {
      assert ChainInv(cfg, s, sys.votes, sys.proposals);
      ParentMatches(cfg, correct, sys, s, p);
    }
    CommitRowFrom(cfg, n, s, e, inbox, kind, sys, sys');
  }

  lemma CommitRowFrom(cfg: Config, n: Did, s: Node, e: Effect, inbox: set<Vote>, kind: Kind, sys: System, sys': System)
    requires Shape(cfg, n, s, e, inbox, kind) && kind.Commit? && kind.now > 0
    requires sys' == Absorb(sys, n, e) && Auth(cfg, sys')
    requires s.proposal.value in sys.proposals && Justified(cfg, sys.votes, s.proposal.value)
    requires s.proposal.value.height == s.cs.height
    requires s.cs.height > 1 ==>
               var key := BlockKey(cfg.threadId, s.cs.height - 1);
               key in s.blocks && kind.b.parentHash == s.blocks[key].blockHash
    ensures RowOK(cfg, e.node, sys'.votes, sys'.proposals, s.cs.height)
  {
    JustifiedGrows(cfg, sys.votes, sys'.votes, s.proposal.value);
    assert NodeAuth(cfg, sys'.nodes[n], sys'.votes);
    NewRow(cfg, n, s, e, inbox, kind, sys'.votes, sys'.proposals);
  }

  lemma ChainNode(cfg: Config, correct: set<Did>, sys: System, n: Did, e: Effect, inbox: set<Vote>, kind: Kind)
    requires FaultBound(cfg, correct) && VoteInv(cfg, correct, sys) && ChainsOK(cfg, sys)
    requires HonestStep(cfg, correct, sys, n, e, inbox, kind)
    requires Auth(cfg, Absorb(sys, n, e))
    ensures ChainInv(cfg, e.node, Absorb(sys, n, e).votes, Absorb(sys, n, e).proposals)
  {
    var sys' := Absorb(sys, n, e);
    assert ChainInv(cfg, sys.nodes[n], sys.votes, sys.proposals);
    HonestCommitAdvances(cfg, correct, sys, n, e, inbox, kind);
    if kind.Commit? {
      CommitRow(cfg, correct, sys, n, e, inbox, kind);
    }
    RowsKept(cfg, n, sys.nodes[n], e, inbox, kind, sys.votes, sys'.votes, sys.proposals, sys'.proposals);
  }

  lemma RowsKept(cfg: Config, self: Did, s: Node, e: Effect, inbox: set<Vote>, kind: Kind,
                 votes: set<Vote>, votes': set<Vote>, proposals: set<Proposal>, proposals': set<Proposal>)
    requires Shape(cfg, self, s, e, inbox, kind) && !kind.ShortCommit? && !kind.Overwrite?
    requires ChainInv(cfg, s, votes, proposals)
    requires votes <= votes' && proposals <= proposals'
    requires kind.Commit? ==> kind.b.height == s.cs.height && RowOK(cfg, e.node, votes', proposals', s.cs.height)
    ensures ChainInv(cfg, e.node, votes', proposals')
  {
    forall k | 1 <= k < e.node.cs.height ensures RowOK(cfg, e.node, votes', proposals', k) {
      if k < s.cs.height {
        assert RowOK(cfg, s, votes, proposals, k);
        RowGrows(cfg, s, e.node, votes, votes', proposals, proposals', k);
      }
    }
  }

  lemma ChainGrows(cfg: Config, s: Node, votes: set<Vote>, votes': set<Vote>, proposals: set<Proposal>,
                   proposals': set<Proposal>)
    requires ChainInv(cfg, s, votes, proposals) && votes <= votes' && proposals <= proposals'
    ensures ChainInv(cfg, s, votes', proposals')
  {
    forall k | 1 <= k < s.cs.height ensures RowOK(cfg, s, votes', proposals', k) {
      assert RowOK(cfg, s, votes, proposals, k);
      RowGrows(cfg, s, s, votes, votes', proposals, proposals', k);
    }
  }

  lemma ChainStep(cfg: Config, correct: set<Did>, sys: System, n: Did, e: Effect, inbox: set<Vote>, kind: Kind)
    requires FaultBound(cfg, correct) && VoteInv(cfg, correct, sys) && ChainsOK(cfg, sys)
    requires HonestStep(cfg, correct, sys, n, e, inbox, kind)
    requires Auth(cfg, Absorb(sys, n, e))
    ensures ChainsOK(cfg, Absorb(sys, n, e))
  {
    ChainNode(cfg, correct, sys, n, e, inbox, kind);
    OtherChains(cfg, correct, sys, n, e);
  }

  lemma OtherChains(cfg: Config, correct: set<Did>, sys: System, n: Did, e: Effect)
    requires Typed(correct, sys) && n in correct && ChainsOK(cfg, sys)
    requires ChainInv(cfg, e.node, Absorb(sys, n, e).votes, Absorb(sys, n, e).proposals)
    ensures ChainsOK(cfg, Absorb(sys, n, e))
  {
    var sys' := Absorb(sys, n, e);
    TypedStays(correct, sys, n, e);
    forall m | m in sys'.nodes ensures ChainInv(cfg, sys'.nodes[m], sys'.votes, sys'.proposals) {
      if m != n {
        assert ChainInv(cfg, sys.nodes[m], sys.votes, sys.proposals);
        ChainGrows(cfg, sys.nodes[m], sys.votes, sys'.votes, sys.proposals, sys'.proposals);
      }
    }
  }

  /** What a correct validator proposes is justified. */
  lemma BuiltIsJustified(cfg: Config, self: Did, s: Node, votes: set<Vote>, proposals: set<Proposal>, p: Proposal,
                         entries: seq<Entry>)
    requires LockInv(cfg, s) && NodeAuth(cfg, s, votes) && ChainInv(cfg, s, votes, proposals)
    requires p == BuildProposal(cfg, self, s, entries) && |p.block.value.blockHash| >= SHORT_HASH
    ensures Justified(cfg, votes, p)
  {
    if p.polRound >= 0 {
      StoreToSent(cfg, s, votes, s.cs.height, s.cs.validRound, Prevote, s.cs.validHash);
    }
    if s.cs.height > 1 {
      assert RowOK(cfg, s, votes, proposals, s.cs.height - 1);
    }
  }

  lemma JustifiedStep(cfg: Config, correct: set<Did>, sys: System, n: Did, e: Effect, inbox: set<Vote>, kind: Kind)
    requires AllJustified(cfg, sys) && NodeStep(cfg, correct, sys, n, e, inbox, kind)
    requires Safe(cfg, correct, Absorb(sys, n, e)) && ChainsOK(cfg, Absorb(sys, n, e))
    ensures AllJustified(cfg, Absorb(sys, n, e))
  {
    var sys' := Absorb(sys, n, e);
    forall p | p in sys'.proposals ensures Justified(cfg, sys'.votes, p) {
      if p in sys.proposals {
        JustifiedGrows(cfg, sys.votes, sys'.votes, p);
      } else {
        assert ProposalFrom(cfg, n, e);
        var entries :| p == BuildProposal(cfg, n, e.node, entries) && |p.block.value.blockHash| >= SHORT_HASH;
        assert LockInv(cfg, sys'.nodes[n]) && NodeAuth(cfg, sys'.nodes[n], sys'.votes);
        assert ChainInv(cfg, sys'.nodes[n], sys'.votes, sys'.proposals);
        BuiltIsJustified(cfg, n, e.node, sys'.votes, sys'.proposals, p, entries);
      }
    }
  }

  // ----- whole runs

  ghost predicate Honest(cfg: Config, correct: set<Did>, sys: System) {
    VoteInv(cfg, correct, sys) && ChainsOK(cfg, sys)
  }

  lemma HonestNode(cfg: Config, correct: set<Did>, sys: System, n: Did, e: Effect, inbox: set<Vote>, kind: Kind)
    requires FaultBound(cfg, correct) && Honest(cfg, correct, sys) && HashInjective(cfg, sys.proposals)
    requires NodeStep(cfg, correct, sys, n, e, inbox, kind) && !kind.Overwrite?
    requires kind.ProposalPrevote? ==> kind.p in sys.proposals
    ensures Honest(cfg, correct, Absorb(sys, n, e))
  {
    HonestCommitAdvances(cfg, correct, sys, n, e, inbox, kind);
    SafeNodeStep(cfg, correct, sys, n, e, inbox, kind);
    NewVotes(cfg, correct, sys, n, e, inbox, kind);
    SwitchStep(cfg, correct, sys, n, e, inbox, kind);
    ExcuseGrows(cfg, correct, sys.votes, Absorb(sys, n, e).votes);
    DoomStep(cfg, correct, sys, Absorb(sys, n, e));
    StaysLockedStep(cfg, correct, sys, n, e, inbox, kind);
    OfferedStep(cfg, correct, sys, n, e, inbox, kind);
    HeldStep(cfg, correct, sys, n, e, inbox, kind);
    ChainStep(cfg, correct, sys, n, e, inbox, kind);
    JustifiedStep(cfg, correct, sys, n, e, inbox, kind);
  }

  lemma NewVotes(cfg: Config, correct: set<Did>, sys: System, n: Did, e: Effect, inbox: set<Vote>, kind: Kind)
    requires BoundLocks(cfg, correct, sys) && HonestStep(cfg, correct, sys, n, e, inbox, kind)
    ensures Typed(correct, Absorb(sys, n, e)) && VotesReached(cfg, correct, Absorb(sys, n, e))
    ensures forall c :: c in correct ==> NotAfter(sys.nodes[c].cs, Absorb(sys, n, e).nodes[c].cs)
    ensures forall v :: v in Absorb(sys, n, e).votes && v !in sys.votes && v.voter in correct ==>
              !Reached(sys.nodes[v.voter].cs, v.height, v.round, v.vtype)
  {
    assert LockInv(cfg, sys.nodes[n]);
    NewVoteFresh(cfg, correct, sys, n, e, inbox, kind);
    ReachedStep(cfg, correct, sys, n, e, inbox, kind);
  }

  lemma FaultyVoteKeepsLocks(cfg: Config, correct: set<Did>, sys: System, v: Vote)
    requires BoundLocks(cfg, correct, sys) && v.voter !in correct
    ensures BoundLocks(cfg, correct, sys.(votes := sys.votes + {v}))
  {
    var sys' := sys.(votes := sys.votes + {v});
    SafeFaultyVote(cfg, correct, sys, v);
    forall p | p in sys'.proposals ensures Justified(cfg, sys'.votes, p) {
      JustifiedGrows(cfg, sys.votes, sys'.votes, p);
    }
    forall w | w in sys'.votes ensures LockedBy(cfg, correct, sys', w) {
      if w in sys.votes && PolkaAfter(cfg, sys.votes, w.height, w.round) {
        PolkaAfterGrows(cfg, sys.votes, sys'.votes, w.height, w.round);
      } else if w in sys.votes {
        assert LockedBy(cfg, correct, sys, w);
      }
    }
  }

  lemma HonestFaultyVote(cfg: Config, correct: set<Did>, sys: System, v: Vote)
    requires FaultBound(cfg, correct) && Honest(cfg, correct, sys) && v.voter !in correct
    ensures Honest(cfg, correct, sys.(votes := sys.votes + {v}))
  {
    var sys' := sys.(votes := sys.votes + {v});
    FaultyVoteKeepsLocks(cfg, correct, sys, v);
    FaultyVoteKeepsDoom(cfg, correct, sys, v);
    ChainsGrow(cfg, sys, sys');
  }

  lemma FaultyVoteKeepsDoom(cfg: Config, correct: set<Did>, sys: System, v: Vote)
    requires FaultBound(cfg, correct) && Typed(correct, sys) && v.voter !in correct && VotesReached(cfg, correct, sys)
    requires SwitchesExcused(cfg, correct, sys.votes, sys.votes) && LaterPolkaDooms(cfg, correct, sys)
    ensures var sys' := sys.(votes := sys.votes + {v});
            SwitchesExcused(cfg, correct, sys'.votes, sys'.votes) && LaterPolkaDooms(cfg, correct, sys')
  {
    var sys' := sys.(votes := sys.votes + {v});
    assert SwitchesExcused(cfg, correct, sys.votes, sys'.votes);
    ExcuseGrows(cfg, correct, sys.votes, sys'.votes);
    DoomStep(cfg, correct, sys, sys');
  }

  lemma ChainsGrow(cfg: Config, sys: System, sys': System)
    requires ChainsOK(cfg, sys) && sys'.nodes == sys.nodes && sys.votes <= sys'.votes && sys.proposals <= sys'.proposals
    ensures ChainsOK(cfg, sys')
  {
    forall n | n in sys'.nodes ensures ChainInv(cfg, sys'.nodes[n], sys'.votes, sys'.proposals) {
      assert ChainInv(cfg, sys.nodes[n], sys.votes, sys.proposals);
      ChainGrows(cfg, sys.nodes[n], sys.votes, sys'.votes, sys.proposals, sys'.proposals);
    }
  }

  lemma HonestFaultyProposal(cfg: Config, correct: set<Did>, sys: System, p: Proposal)
    requires Honest(cfg, correct, sys) && Justified(cfg, sys.votes, p)
    ensures Honest(cfg, correct, sys.(proposals := sys.proposals + {p}))
  {
    var sys' := sys.(proposals := sys.proposals + {p});
    ChainsGrow(cfg, sys, sys');
    forall v | v in sys'.votes ensures LockedBy(cfg, correct, sys', v) {
      assert LockedBy(cfg, correct, sys, v);
    }
    forall v | v in sys'.votes && v.voter in correct && v.vtype == Prevote && v.blockHash != NIL
      ensures Offered(sys'.proposals, v.height, v.round, v.blockHash)
    {
      var q :| q in sys.proposals && q.block.Some? && q.height == v.height && q.round == v.round
               && q.block.value.blockHash == v.blockHash;
      assert q in sys'.proposals;
    }
    assert forall h, r, x :: Refusers(cfg, correct, sys', h, r, x) == Refusers(cfg, correct, sys, h, r, x);
    forall h, r, x | x != NIL && PolkaAfter(cfg, sys'.votes, h, r) ensures Doomed(cfg, correct, sys', h, r, x) {
      assert Doomed(cfg, correct, sys, h, r, x);
    }
  }

  lemma HonestEventStep(cfg: Config, correct: set<Did>, sys: System, ev: Event)
    requires FaultBound(cfg, correct) && Honest(cfg, correct, sys) && HashInjective(cfg, sys.proposals)
    requires Enabled(cfg, correct, sys, ev) && HonestEvent(cfg, sys, ev)
    ensures Honest(cfg, correct, Apply(cfg, correct, sys, ev))
  {
    match ev {
      case FaultyVote(v) => HonestFaultyVote(cfg, correct, sys, v);
      case FaultyProposal(p) => HonestFaultyProposal(cfg, correct, sys, p);
      case _ =>
        var e, inbox, kind := KindOf(cfg, correct, sys, ev);
        HonestNode(cfg, correct, sys, ev.n, e, inbox, kind);
    }
  }

  lemma HonestInit(cfg: Config, correct: set<Did>)
    requires correct <= Validators(cfg)
    ensures Honest(cfg, correct, Init(correct))
  {
    var sys := Init(correct);
    assert Buffered(INIT_NODE) == {};
    forall h, r, x ensures !Quorum(cfg, sys.votes, h, r, Prevote, x) {
      assert SentVoters(cfg, sys.votes, h, r, Prevote, x) == {};
    }
    assert Safe(cfg, correct, sys);
  }

  lemma {:induction false} MessagesStay(cfg: Config, correct: set<Did>, trace: seq<System>, evs: seq<Event>, i: nat,
                                        k: nat)
    requires IsTrace(cfg, correct, trace, evs) && i <= k < |trace|
    ensures trace[i].votes <= trace[k].votes && trace[i].proposals <= trace[k].proposals
  {
    if i < k {
      MessagesStay(cfg, correct, trace, evs, i, k - 1);
      assert IsStep(cfg, correct, trace, evs, k - 1);
    }
  }

  /** A run with at most f faulty voters, proposals as `buildProposal` builds them, no rows of this thread that
      another one wrote (except votes it was sent), and no hash collision. */
  ghost predicate GoodRun(cfg: Config, correct: set<Did>, trace: seq<System>, evs: seq<Event>) {
    && FaultBound(cfg, correct) && IsTrace(cfg, correct, trace, evs) && HonestEvents(cfg, trace, evs)
    && HashInjective(cfg, trace[|trace| - 1].proposals)
  }

  lemma InjectiveOnFewer(cfg: Config, a: set<Proposal>, b: set<Proposal>)
    requires a <= b && HashInjective(cfg, b)
    ensures HashInjective(cfg, a)
  {
  }

  lemma HonestNext(cfg: Config, correct: set<Did>, trace: seq<System>, evs: seq<Event>, i: nat)
    requires FaultBound(cfg, correct) && IsTrace(cfg, correct, trace, evs) && HonestEvents(cfg, trace, evs)
    requires 0 < i < |trace| && Honest(cfg, correct, trace[i - 1]) && HashInjective(cfg, trace[i - 1].proposals)
    ensures Honest(cfg, correct, trace[i])
  {
    assert IsStep(cfg, correct, trace, evs, i - 1) && HonestAt(cfg, trace, evs, i - 1);
    HonestEventStep(cfg, correct, trace[i - 1], evs[i - 1]);
  }

  lemma InjectiveAt(cfg: Config, correct: set<Did>, trace: seq<System>, evs: seq<Event>, i: nat)
    requires IsTrace(cfg, correct, trace, evs) && HashInjective(cfg, trace[|trace| - 1].proposals) && i < |trace|
    ensures HashInjective(cfg, trace[i].proposals)
  {
    MessagesStay(cfg, correct, trace, evs, i, |trace| - 1);
    InjectiveOnFewer(cfg, trace[i].proposals, trace[|trace| - 1].proposals);
  }

  lemma {:induction false} HonestUpTo(cfg: Config, correct: set<Did>, trace: seq<System>, evs: seq<Event>, i: nat)
    requires FaultBound(cfg, correct) && IsTrace(cfg, correct, trace, evs) && HonestEvents(cfg, trace, evs)
    requires HashInjective(cfg, trace[|trace| - 1].proposals) && i < |trace|
    ensures Honest(cfg, correct, trace[i]) && HashInjective(cfg, trace[i].proposals)
  {
    InjectiveAt(cfg, correct, trace, evs, i);
    if i == 0 {
      HonestInit(cfg, correct);
    } else {
      HonestUpTo(cfg, correct, trace, evs, i - 1);
      HonestNext(cfg, correct, trace, evs, i);
    }
  }

  lemma HonestAlways(cfg: Config, correct: set<Did>, trace: seq<System>, evs: seq<Event>, i: nat)
    requires GoodRun(cfg, correct, trace, evs) && i < |trace|
    ensures Honest(cfg, correct, trace[i])
  {
    HonestUpTo(cfg, correct, trace, evs, i);
  }

  // ----- main theorems

  /** Once 2f+1 precommits for a block exist at (h, r), no later round of that height ever gathers
      2f+1 prevotes for any block, at any time of the run. */
  lemma LockPersistence(cfg: Config, correct: set<Did>, trace: seq<System>, evs: seq<Event>, i: nat, j: nat,
                        h: int, r: int, x: Hash, r2: int, y: Hash)
    requires GoodRun(cfg, correct, trace, evs) && i < |trace| && j < |trace|
    requires x != NIL && Quorum(cfg, trace[i].votes, h, r, Precommit, x)
    requires r2 > r && y != NIL
    ensures !Quorum(cfg, trace[j].votes, h, r2, Prevote, y)
  {
    var last := |trace| - 1;
    HonestAlways(cfg, correct, trace, evs, last);
    MessagesStay(cfg, correct, trace, evs, i, last);
    MessagesStay(cfg, correct, trace, evs, j, last);
    QuorumGrows(cfg, trace[i].votes, trace[last].votes, h, r, Precommit, x);
    PrecommitQuorumEndsHeight(cfg, correct, trace[last], h, r, x);
    if Quorum(cfg, trace[j].votes, h, r2, Prevote, y) {
      QuorumGrows(cfg, trace[j].votes, trace[last].votes, h, r2, Prevote, y);
      assert Polka(cfg, trace[last].votes, h, r2);
    }
  }

  /** Two correct validators never decide differently at a height, and they decide in the same round. */
  lemma HeightAgreement(cfg: Config, correct: set<Did>, trace: seq<System>, evs: seq<Event>, i: nat, j: nat,
                        d1: Decision, d2: Decision)
    requires GoodRun(cfg, correct, trace, evs) && i < |trace| && j < |trace|
    requires d1 in trace[i].decisions && d2 in trace[j].decisions && d1.height == d2.height
    ensures d1.hash == d2.hash && d1.round == d2.round
  {
    var last := |trace| - 1;
    HonestAlways(cfg, correct, trace, evs, last);
    DecisionsStay(cfg, correct, trace, evs, i, last, d1);
    DecisionsStay(cfg, correct, trace, evs, j, last, d2);
    OneDecision(cfg, correct, trace[last], d1.height, d1.round, d1.hash, d2.round, d2.hash);
  }

  /** Runs with honest proposals never commit below, so the node discipline holds in them. */
  lemma HonestRunsGoForward(cfg: Config, correct: set<Did>, trace: seq<System>, evs: seq<Event>)
    requires GoodRun(cfg, correct, trace, evs)
    ensures Forward(cfg, correct, trace, evs)
  {
    forall i: nat | i < |evs| ensures StaysUpAt(cfg, correct, trace, evs, i) {
      assert IsStep(cfg, correct, trace, evs, i);
      HonestAlways(cfg, correct, trace, evs, i);
      var ev := evs[i];
      if !ev.FaultyVote? && !ev.FaultyProposal? && trace[i].nodes[ev.n].proposal.Some? {
        assert Justified(cfg, trace[i].votes, trace[i].nodes[ev.n].proposal.value);
      }
    }
  }

  // ----- committed chains

  function HashFn(cfg: Config): Block -> Hash {
    b => BlockHashOf(cfg, b)
  }

  /** The committed blocks of a validator: heights 1 up to, but not including, the one it works on. */
  ghost function Committed(cfg: Config, s: Node): seq<Block>
    requires s.cs.height >= 1 && forall k :: 1 <= k < s.cs.height ==> BlockKey(cfg.threadId, k) in s.blocks
  {
    seq(s.cs.height - 1, i requires 0 <= i < s.cs.height - 1 => s.blocks[BlockKey(cfg.threadId, i + 1)])
  }

  ghost predicate HasChain(cfg: Config, s: Node) {
    s.cs.height >= 1 && forall k :: 1 <= k < s.cs.height ==> BlockKey(cfg.threadId, k) in s.blocks
  }

  lemma ChainHolds(cfg: Config, s: Node, votes: set<Vote>, proposals: set<Proposal>)
    requires ChainInv(cfg, s, votes, proposals)
    ensures HasChain(cfg, s) && Chain.LinksOK(HashFn(cfg), Committed(cfg, s))
  {
    forall k | 1 <= k < s.cs.height ensures BlockKey(cfg.threadId, k) in s.blocks {
      assert RowOK(cfg, s, votes, proposals, k);
    }
    forall i: nat | i < |Committed(cfg, s)| ensures Chain.LinkOK(HashFn(cfg), Committed(cfg, s), i) {
      assert RowOK(cfg, s, votes, proposals, i + 1);
    }
  }

  /** The block fits its place in the committed chain: it carries its own hash, names the hash below, and has the
      hash that the block above names. */
  ghost predicate FitsChain(cfg: Config, s: Node, b: Block)
    requires HasChain(cfg, s) && 1 <= b.height < s.cs.height
  {
    && b.blockHash == BlockHashOf(cfg, b)
    && b.parentHash == (if b.height == 1 then NIL else s.blocks[BlockKey(cfg.threadId, b.height - 1)].blockHash)
    && (b.height + 1 < s.cs.height ==> s.blocks[BlockKey(cfg.threadId, b.height + 1)].parentHash == b.blockHash)
  }

  /** For every validator with a verified chain and every block row that another thread writes under this thread's
      id: the chain still verifies if and only if the block fits its place. */
  lemma OverwriteIff(cfg: Config, s: Node, b: Block, now: int)
    requires HasChain(cfg, s) && Chain.LinksOK(HashFn(cfg), Committed(cfg, s))
    requires b.threadId == cfg.threadId && 1 <= b.height < s.cs.height
    ensures var s' := SaveBlock(s, b, now);
            HasChain(cfg, s') && (Chain.LinksOK(HashFn(cfg), Committed(cfg, s')) <==> FitsChain(cfg, s, b))
  {
    var s' := SaveBlock(s, b, now);
    StoredContent(b, now);
    var row := Stored(b.(committedAt := now));
    assert Committed(cfg, s') == Committed(cfg, s)[b.height - 1 := row];
    Chain.ReplacedIff(HashFn(cfg), Committed(cfg, s), b.height - 1, row);
  }

  /** In every such run, the committed blocks of a correct validator are linked and carry their own
      hashes, so `VerifyChain` accepts them as soon as there is one. */
  lemma CommittedChainVerifies(cfg: Config, correct: set<Did>, trace: seq<System>, evs: seq<Event>, i: nat, n: Did)
    requires GoodRun(cfg, correct, trace, evs) && i < |trace| && n in correct
    ensures n in trace[i].nodes && HasChain(cfg, trace[i].nodes[n])
    ensures Chain.ChainOK(HashFn(cfg), Committed(cfg, trace[i].nodes[n])) <==> trace[i].nodes[n].cs.height > 1
  {
    HonestAlways(cfg, correct, trace, evs, i);
    assert ChainInv(cfg, trace[i].nodes[n], trace[i].votes, trace[i].proposals);
    ChainHolds(cfg, trace[i].nodes[n], trace[i].votes, trace[i].proposals);
  }

  lemma SameRow(cfg: Config, correct: set<Did>, sys: System, a: Node, b: Node, k: int)
    requires FaultBound(cfg, correct) && VoteInv(cfg, correct, sys) && HashInjective(cfg, sys.proposals)
    requires RowOK(cfg, a, sys.votes, sys.proposals, k) && RowOK(cfg, b, sys.votes, sys.proposals, k)
    ensures var key := BlockKey(cfg.threadId, k);
            a.blocks[key].blockHash == b.blocks[key].blockHash && ContentOf(a.blocks[key]) == ContentOf(b.blocks[key])
  {
    var x, y := a.blocks[BlockKey(cfg.threadId, k)], b.blocks[BlockKey(cfg.threadId, k)];
    SameDecision(cfg, correct, sys, k, x.blockHash, y.blockHash);
    var p :| p in sys.proposals && p.block.Some? && ContentOf(p.block.value) == ContentOf(x);
    var q :| q in sys.proposals && q.block.Some? && ContentOf(q.block.value) == ContentOf(y);
  }

  /** Prefix agreement: at any two moments of the run, the committed chain of one correct validator is a
      prefix of the chain of the other, in every field that the hash covers. */
  lemma PrefixAgreement(cfg: Config, correct: set<Did>, trace: seq<System>, evs: seq<Event>,
                        i: nat, m: Did, j: nat, n: Did)
    requires GoodRun(cfg, correct, trace, evs) && i < |trace| && j < |trace| && m in correct && n in correct
    ensures m in trace[i].nodes && n in trace[j].nodes
    ensures HasChain(cfg, trace[i].nodes[m]) && HasChain(cfg, trace[j].nodes[n])
    ensures var a := Chain.Contents(ContentOf, Committed(cfg, trace[i].nodes[m]));
            var b := Chain.Contents(ContentOf, Committed(cfg, trace[j].nodes[n]));
            a <= b || b <= a
  {
    CommittedChainVerifies(cfg, correct, trace, evs, i, m);
    CommittedChainVerifies(cfg, correct, trace, evs, j, n);
    var s, t := trace[i].nodes[m], trace[j].nodes[n];
    forall k | 1 <= k < s.cs.height && k < t.cs.height
      ensures ContentOf(s.blocks[BlockKey(cfg.threadId, k)]) == ContentOf(t.blocks[BlockKey(cfg.threadId, k)])
    {
      SameRowInRun(cfg, correct, trace, evs, i, m, j, n, k);
    }
    ContentsPrefix(cfg, s, t);
  }

  lemma ContentsPrefix(cfg: Config, s: Node, t: Node)
    requires HasChain(cfg, s) && HasChain(cfg, t)
    requires forall k :: 1 <= k < s.cs.height && k < t.cs.height ==>
               ContentOf(s.blocks[BlockKey(cfg.threadId, k)]) == ContentOf(t.blocks[BlockKey(cfg.threadId, k)])
    ensures var a := Chain.Contents(ContentOf, Committed(cfg, s));
            var b := Chain.Contents(ContentOf, Committed(cfg, t));
            a <= b || b <= a
  {
    var a := Chain.Contents(ContentOf, Committed(cfg, s));
    var b := Chain.Contents(ContentOf, Committed(cfg, t));
    if |a| <= |b| {
      assert a == b[..|a|];
    } else {
      assert b == a[..|b|];
    }
  }

  lemma SameRowInRun(cfg: Config, correct: set<Did>, trace: seq<System>, evs: seq<Event>,
                     i: nat, m: Did, j: nat, n: Did, k: int)
    requires GoodRun(cfg, correct, trace, evs) && i < |trace| && j < |trace| && m in correct && n in correct
    requires m in trace[i].nodes && n in trace[j].nodes
    requires 1 <= k < trace[i].nodes[m].cs.height && k < trace[j].nodes[n].cs.height
    ensures var key := BlockKey(cfg.threadId, k);
            && key in trace[i].nodes[m].blocks && key in trace[j].nodes[n].blocks
            && ContentOf(trace[i].nodes[m].blocks[key]) == ContentOf(trace[j].nodes[n].blocks[key])
  {
    RowAtEnd(cfg, correct, trace, evs, i, m, k);
    RowAtEnd(cfg, correct, trace, evs, j, n, k);
    HonestAlways(cfg, correct, trace, evs, |trace| - 1);
    SameRow(cfg, correct, trace[|trace| - 1], trace[i].nodes[m], trace[j].nodes[n], k);
  }

  lemma RowAtEnd(cfg: Config, correct: set<Did>, trace: seq<System>, evs: seq<Event>, i: nat, n: Did, k: int)
    requires GoodRun(cfg, correct, trace, evs) && i < |trace| && n in correct
    requires n in trace[i].nodes && 1 <= k < trace[i].nodes[n].cs.height
    ensures var last := trace[|trace| - 1]; RowOK(cfg, trace[i].nodes[n], last.votes, last.proposals, k)
  {
    var last := trace[|trace| - 1];
    HonestAlways(cfg, correct, trace, evs, i);
    MessagesStay(cfg, correct, trace, evs, i, |trace| - 1);
    var s := trace[i].nodes[n];
    assert ChainInv(cfg, s, trace[i].votes, trace[i].proposals);
    ChainGrows(cfg, s, trace[i].votes, last.votes, trace[i].proposals, last.proposals);
  }
}
