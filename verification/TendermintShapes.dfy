/** Every handler does one of a few kinds of step. The kinds are stated without reference to
    the handlers' bodies, and all later proofs about runs use only the kinds. */
module TendermintShapes {
  import opened ThreadTypes
  import opened TendermintNode
  import Quorums

  datatype Kind =
    | Idle
    | TimeoutPrevote
    | ProposalPrevote(p: Proposal)
    | PrecommitNil
    | Lock(hash: Hash)
    | NextRound
    | Commit(b: Block, now: int)
    | ShortCommit(b: Block, now: int)
    | Overwrite

  /** The votes a step may write to the store besides its own: buffered ones and the delivered one. */
  function Buffered(s: Node): set<Vote> {
    set r, v | r in s.future && v in s.future[r] :: v
  }

  /** Rows are only added, and each added row of the thread is one of `inbox`. */
  ghost predicate VotesGrow(cfg: Config, s: Node, s': Node, inbox: set<Vote>) {
    && (forall k :: k in s.votes ==> k in s'.votes && s'.votes[k] == s.votes[k])
    && (forall k :: k in s'.votes && k !in s.votes && k.threadId == cfg.threadId ==>
          Vote(k.threadId, k.height, k.round, k.vtype, s'.votes[k], k.voter) in inbox)
  }

  /** The block rows of the thread are the same. */
  ghost predicate BlocksSame(cfg: Config, s: Node, s': Node) {
    forall k: BlockKey :: k.threadId == cfg.threadId ==>
      && (k in s'.blocks <==> k in s.blocks)
      && (k in s.blocks ==> s'.blocks[k] == s.blocks[k])
  }

  /** `b` is the block of the accepted proposal. */
  ghost predicate Holds(s: Node, b: Block) {
    s.proposal.Some? && s.proposal.value.block == Some(b)
  }

  function OwnVote(cfg: Config, self: Did, s: Node, vtype: VoteType, hash: Hash): Vote {
    Vote(cfg.threadId, s.cs.height, s.cs.round, vtype, hash, self)
  }

  /** How a prevote on proposal `p` treats the lock. */
  ghost predicate PrevoteRule(cs: ConsensusState, p: Proposal, hash: Hash, cs': ConsensusState) {
    && p.block.Some?
    && p.height == cs.height && p.round == cs.round
    && var offered := p.block.value.blockHash;
       if cs.lockedRound >= 0 && cs.lockedHash != offered && p.polRound <= cs.lockedRound then
         hash == NIL && cs' == cs.(step := StepPrevote)
       else if cs.lockedRound >= 0 && cs.lockedHash != offered then
         hash == offered && cs' == cs.(step := StepPrevote, lockedRound := -1, lockedHash := NIL)
       else
         hash == offered && cs' == cs.(step := StepPrevote)
  }

  /** Where the step leaves (height, round, step, lock, valid) and what it votes. */
  ghost predicate Moves(cfg: Config, self: Did, s: Node, e: Effect, kind: Kind) {
    var cs, cs' := s.cs, e.node.cs;
    match kind
    case Idle =>
      cs' == cs && e.vote == None && e.decided == None && BlocksSame(cfg, s, e.node)
    case TimeoutPrevote =>
      && cs.step == StepPropose && cs' == cs.(step := StepPrevote)
      && e.vote == Some(OwnVote(cfg, self, s, Prevote, NIL)) && e.decided == None && BlocksSame(cfg, s, e.node)
    case ProposalPrevote(p) =>
      && cs.step == StepPropose
      && e.vote.Some? && e.vote.value == OwnVote(cfg, self, s, Prevote, e.vote.value.blockHash)
      && PrevoteRule(cs, p, e.vote.value.blockHash, cs')
      && e.decided == None && BlocksSame(cfg, s, e.node)
    case PrecommitNil =>
      && cs.step == StepPrevote && cs' == cs.(step := StepPrecommit)
      && e.vote == Some(OwnVote(cfg, self, s, Precommit, NIL)) && e.decided == None && BlocksSame(cfg, s, e.node)
    case Lock(hash) =>
      && cs.step == StepPrevote && hash != NIL
      && cs' == cs.(step := StepPrecommit, lockedRound := cs.round, lockedHash := hash,
                    validRound := cs.round, validHash := hash)
      && Tally(cfg, e.node, cs.height, cs.round, Prevote, hash) >= QuorumSize(cfg)
      && e.vote == Some(OwnVote(cfg, self, s, Precommit, hash)) && e.decided == None && BlocksSame(cfg, s, e.node)
    case NextRound =>
      && cs'.round > cs.round && cs' == cs.(round := cs'.round, step := StepPropose)
      && e.vote == None && e.decided == None && BlocksSame(cfg, s, e.node)
    case Commit(b, now) =>
      && CommitGuard(cfg, self, s, e, b, now) && |b.blockHash| >= SHORT_HASH
      && cs' == FreshState(b.height + 1)
    case ShortCommit(b, now) =>
      && CommitGuard(cfg, self, s, e, b, now) && |b.blockHash| < SHORT_HASH
      && cs' == cs
    case Overwrite =>
      cs' == cs && e.vote == None && e.decided == None
  }

  ghost predicate CommitGuard(cfg: Config, self: Did, s: Node, e: Effect, b: Block, now: int) {
    && s.cs.step == StepPrecommit && b.blockHash != NIL && Holds(s, b)
    && Tally(cfg, e.node, s.cs.height, s.cs.round, Precommit, b.blockHash) >= QuorumSize(cfg)
    && e.node.blocks == s.blocks[BlockKey(b.threadId, b.height) := Stored(b.(committedAt := now))]
    && e.vote == None
    && e.decided == Some(Decision(self, s.cs.height, s.cs.round, b.blockHash))
  }

  /** A broadcast proposal was built from the state the step ends in. */
  ghost predicate ProposalFrom(cfg: Config, self: Did, e: Effect) {
    e.proposal.Some? ==>
      exists entries :: e.proposal.value == BuildProposal(cfg, self, e.node, entries)
                        && |e.proposal.value.block.value.blockHash| >= SHORT_HASH
  }

  /** The held proposal after the step: the same, the newly accepted one, or none. */
  ghost predicate ProposalKept(s: Node, e: Effect, kind: Kind) {
    && (e.node.proposal.Some? ==>
          || (kind.ProposalPrevote? && e.node.proposal.value == kind.p)
          || e.node.proposal == s.proposal)
    && (kind.Commit? ==> e.node.proposal == None)
  }

  ghost predicate Shape(cfg: Config, self: Did, s: Node, e: Effect, inbox: set<Vote>, kind: Kind) {
    && Moves(cfg, self, s, e, kind)
    && VotesGrow(cfg, s, e.node, inbox + (if e.vote.Some? then {e.vote.value} else {}))
    && Buffered(e.node) <= inbox
    && ProposalFrom(cfg, self, e)
    && ProposalKept(s, e, kind)
  }

  // ----- each handler has a shape

  lemma SaveVoteGrows(cfg: Config, s: Node, v: Vote)
    ensures VotesGrow(cfg, s, SaveVote(s, v), {v})
    ensures SaveVote(s, v).(votes := s.votes) == s
  {
  }

  lemma {:induction false} SaveVotesGrows(cfg: Config, s: Node, vs: seq<Vote>)
    ensures VotesGrow(cfg, s, SaveVotes(s, vs), set v | v in vs)
    ensures SaveVotes(s, vs).(votes := s.votes) == s
    decreases vs
  {
    if vs != [] {
      SaveVoteGrows(cfg, s, vs[0]);
      SaveVotesGrows(cfg, SaveVote(s, vs[0]), vs[1..]);
    }
  }

  /** A tally only grows. */
  lemma TallyGrows(cfg: Config, s: Node, s': Node, h: int, r: int, t: VoteType, x: Hash)
    requires forall k :: k in s.votes ==> k in s'.votes && s'.votes[k] == s.votes[k]
    ensures Tally(cfg, s, h, r, t, x) <= Tally(cfg, s', h, r, t, x)
  {
    Quorums.SubsetCard(StoreVoters(cfg, s, h, r, t, x), StoreVoters(cfg, s', h, r, t, x));
  }

  lemma EnterProposeShape(cfg: Config, self: Did, s: Node)
    ensures var e := EnterPropose(cfg, self, s);
            && e.node.(pending := s.pending) == s && e.vote == None && e.decided == None
            && ProposalFrom(cfg, self, e)
  {
    var e := EnterPropose(cfg, self, s);
    if e.proposal.Some? {
      var n := if |s.pending| < MAX_PENDING_PER_BLOCK then |s.pending| else MAX_PENDING_PER_BLOCK;
      assert e.proposal.value == BuildProposal(cfg, self, e.node, s.pending[..n]);
    }
  }

  lemma StartShape(cfg: Config, self: Did, s: Node, now: int) returns (kind: Kind)
    ensures Shape(cfg, self, s, Start(cfg, self, s, now), Buffered(s), kind)
    ensures !kind.ProposalPrevote? && !kind.Commit? && !kind.ShortCommit? && !kind.Overwrite?
  {
    kind := Idle;
    EnterProposeShape(cfg, self, s.(started := true));
    var e := EnterPropose(cfg, self, s.(started := true));
    ArmKeepsProposal(cfg, self, e, now);
  }

  lemma ArmKeepsProposal(cfg: Config, self: Did, e: Effect, now: int)
    requires ProposalFrom(cfg, self, e)
    ensures ProposalFrom(cfg, self, ArmPropose(cfg, e, now))
  {
    if e.proposal.Some? {
      var entries :| e.proposal.value == BuildProposal(cfg, self, e.node, entries);
      assert e.proposal.value == BuildProposal(cfg, self, ArmPropose(cfg, e, now).node, entries);
    }
  }

  lemma TickProposeShape(cfg: Config, self: Did, s: Node, now: int) returns (kind: Kind)
    ensures Shape(cfg, self, s, TickPropose(cfg, self, s, now), Buffered(s), kind)
    ensures !kind.ProposalPrevote? && !kind.Commit? && !kind.ShortCommit? && !kind.Overwrite?
  {
    kind := if TickPropose(cfg, self, s, now).vote.Some? then TimeoutPrevote else Idle;
  }

  lemma TickPrevoteShape(cfg: Config, self: Did, s: Node, now: int) returns (kind: Kind)
    ensures Shape(cfg, self, s, TickPrevote(cfg, self, s, now), Buffered(s), kind)
    ensures !kind.ProposalPrevote? && !kind.Commit? && !kind.ShortCommit? && !kind.Overwrite?
  {
    kind := if TickPrevote(cfg, self, s, now).vote.Some? then PrecommitNil else Idle;
  }

  lemma TickPrecommitShape(cfg: Config, self: Did, s: Node, now: int) returns (kind: Kind)
    ensures Shape(cfg, self, s, TickPrecommit(cfg, self, s, now), Buffered(s), kind)
    ensures !kind.ProposalPrevote? && !kind.Commit? && !kind.ShortCommit? && !kind.Overwrite?
  {
    kind := if s.started && Elapsed(s.timers.precommitAt, now) && s.cs.step == StepPrecommit then NextRound else Idle;
    var s2 := s.(timers := s.timers.(precommitAt := None),
                 cs := s.cs.(round := s.cs.round + 1, step := StepPropose));
    EnterProposeShape(cfg, self, s2);
    ArmKeepsProposal(cfg, self, EnterPropose(cfg, self, s2), now);
  }

  lemma HandleProposalMoves(cfg: Config, self: Did, s: Node, p: Proposal, now: int)
    requires Accepts(cfg, s, p, true)
    ensures Moves(cfg, self, s, HandleProposal(cfg, self, s, p, true, now), ProposalPrevote(p))
  {
  }

  lemma AcceptedShape(cfg: Config, self: Did, s: Node, p: Proposal, now: int)
    requires Accepts(cfg, s, p, true)
    ensures Shape(cfg, self, s, HandleProposal(cfg, self, s, p, true, now), Buffered(s), ProposalPrevote(p))
  {
    HandleProposalMoves(cfg, self, s, p, now);
    var e := HandleProposal(cfg, self, s, p, true, now);
    SaveVoteGrows(cfg, s, e.vote.value);
    assert e.node.votes == SaveVote(s, e.vote.value).votes;
    ShapeOf(cfg, self, s, e, {}, ProposalPrevote(p));
  }

  lemma HandleProposalShape(cfg: Config, self: Did, s: Node, p: Proposal, sigOk: bool, now: int) returns (kind: Kind)
    ensures Shape(cfg, self, s, HandleProposal(cfg, self, s, p, sigOk, now), Buffered(s), kind)
    ensures kind.ProposalPrevote? ==> kind.p == p && Accepts(cfg, s, p, sigOk)
    ensures !kind.Commit? && !kind.ShortCommit? && !kind.Overwrite?
  {
    if Accepts(cfg, s, p, sigOk) {
      kind := ProposalPrevote(p);
      AcceptedShape(cfg, self, s, p, now);
    } else {
      kind := Idle;
    }
  }

  lemma RestartShape(cfg: Config, self: Did, s: Node)
    ensures Shape(cfg, self, s, Quiet(Restart(s)), Buffered(s), Idle)
  {
  }

  lemma SubmitShape(cfg: Config, self: Did, s: Node, entry: Entry)
    ensures Shape(cfg, self, s, Quiet(s.(pending := s.pending + [entry])), Buffered(s), Idle)
  {
  }

  /** A row written by another thread of the daemon. */
  lemma ForeignVoteShape(cfg: Config, self: Did, s: Node, v: Vote)
    ensures Shape(cfg, self, s, Quiet(SaveVote(s, v)), Buffered(s) + {v}, Idle)
  {
    SaveVoteGrows(cfg, s, v);
  }

  lemma ForeignBlockShape(cfg: Config, self: Did, s: Node, b: Block, now: int) returns (kind: Kind)
    ensures Shape(cfg, self, s, Quiet(SaveBlock(s, b, now)), Buffered(s), kind)
    ensures kind == if b.threadId == cfg.threadId then Overwrite else Idle
  {
    kind := if b.threadId == cfg.threadId then Overwrite else Idle;
  }

  lemma BufferShape(s: Node, v: Vote)
    ensures Buffered(BufferFutureVote(s, v)) <= Buffered(s) + {v}
    ensures BufferFutureVote(s, v).(future := s.future) == s
  {
  }

  lemma SkipShape(cfg: Config, self: Did, s: Node, v: Vote, now: int) returns (kind: Kind)
    requires v.round > s.cs.round
    ensures Shape(cfg, self, s, CheckFutureRoundSkip(cfg, self, BufferFutureVote(s, v), v.round, now),
                  Buffered(s) + {v}, kind)
    ensures kind.Idle? || kind.NextRound?
  {
    BufferShape(s, v);
    var b := BufferFutureVote(s, v);
    if |FutureVoters(b, v.round)| < QuorumSize(cfg) {
      kind := Idle;
    } else {
      kind := NextRound;
      assert v.round in b.future;
      var flushed := SaveVotes(b, b.future[v.round]);
      SaveVotesGrows(cfg, b, b.future[v.round]);
      forall u | u in b.future[v.round] ensures u in Buffered(b) {}
      assert (set u | u in b.future[v.round]) <= Buffered(s) + {v};
      var s1 := flushed.(timers := DISARMED, future := flushed.future - {v.round},
                         cs := flushed.cs.(round := v.round, step := StepPropose));
      assert Buffered(s1) <= Buffered(b);
      EnterProposeShape(cfg, self, s1);
      ArmKeepsProposal(cfg, self, EnterPropose(cfg, self, s1), now);
    }
  }

  lemma OnPrevoteMoves(cfg: Config, self: Did, s: Node, s1: Node, now: int, pick: Pick) returns (kind: Kind)
    requires s1.(votes := s.votes) == s
    requires pick.count == Tally(cfg, s1, s.cs.height, s.cs.round, Prevote, pick.hash)
    ensures Moves(cfg, self, s, OnPrevote(cfg, self, s1, now, pick), kind)
    ensures ProposalKept(s, OnPrevote(cfg, self, s1, now, pick), kind)
    ensures OnPrevote(cfg, self, s1, now, pick).node.future == s.future
    ensures OnPrevote(cfg, self, s1, now, pick).proposal == None
    ensures !kind.ProposalPrevote? && !kind.Commit? && !kind.ShortCommit? && !kind.Overwrite?
  {
    var e := OnPrevote(cfg, self, s1, now, pick);
    if e.vote.None? {
      kind := Idle;
    } else if e.vote.value.blockHash == NIL {
      kind := PrecommitNil;
    } else {
      kind := Lock(pick.hash);
      SaveVoteGrows(cfg, s1, e.vote.value);
      TallyGrows(cfg, s1, e.node, s.cs.height, s.cs.round, Prevote, pick.hash);
    }
  }

  lemma OnPrevoteVotes(cfg: Config, self: Did, s: Node, v: Vote, now: int, pick: Pick)
    ensures var e := OnPrevote(cfg, self, SaveVote(s, v), now, pick);
            VotesGrow(cfg, s, e.node, {v} + (if e.vote.Some? then {e.vote.value} else {}))
  {
    var s1 := SaveVote(s, v);
    var e := OnPrevote(cfg, self, s1, now, pick);
    SaveVoteGrows(cfg, s, v);
    if e.vote.Some? {
      assert e.node.votes == SaveVote(s1, e.vote.value).votes;
    }
  }

  lemma ShapeOf(cfg: Config, self: Did, s: Node, e: Effect, inbox: set<Vote>, kind: Kind)
    requires Moves(cfg, self, s, e, kind) && ProposalKept(s, e, kind)
    requires VotesGrow(cfg, s, e.node, inbox + (if e.vote.Some? then {e.vote.value} else {}))
    requires e.node.future == s.future && e.proposal == None
    ensures Shape(cfg, self, s, e, Buffered(s) + inbox, kind)
  {
  }

  lemma OnPrevoteShape(cfg: Config, self: Did, s: Node, v: Vote, now: int, pick: Pick) returns (kind: Kind)
    requires pick.count == Tally(cfg, SaveVote(s, v), s.cs.height, s.cs.round, Prevote, pick.hash)
    ensures Shape(cfg, self, s, OnPrevote(cfg, self, SaveVote(s, v), now, pick), Buffered(s) + {v}, kind)
    ensures !kind.ProposalPrevote? && !kind.Commit? && !kind.ShortCommit? && !kind.Overwrite?
  {
    kind := OnPrevoteMoves(cfg, self, s, SaveVote(s, v), now, pick);
    OnPrevoteVotes(cfg, self, s, v, now, pick);
    ShapeOf(cfg, self, s, OnPrevote(cfg, self, SaveVote(s, v), now, pick), {v}, kind);
  }

  lemma CommitBlockShape(cfg: Config, self: Did, s: Node, b: Block, now: int)
    ensures var e := CommitBlock(cfg, self, s, b, now);
            && e.node.votes == s.votes && Buffered(e.node) == {} && e.vote == None
            && e.node.blocks == s.blocks[BlockKey(b.threadId, b.height) := Stored(b.(committedAt := now))]
            && e.decided == Some(Decision(self, s.cs.height, s.cs.round, b.blockHash))
            && e.node.proposal == None
            && e.node.cs == (if |b.blockHash| < SHORT_HASH then s.cs else FreshState(b.height + 1))
            && ProposalFrom(cfg, self, e)
  {
    if |b.blockHash| >= SHORT_HASH {
      var s2 := Advance(cfg, SaveBlock(s, b, now), b, now);
      EnterProposeShape(cfg, self, s2);
      var d := EnterPropose(cfg, self, s2);
      if d.proposal.Some? {
        var entries :| d.proposal.value == BuildProposal(cfg, self, d.node, entries);
        assert CommitBlock(cfg, self, s, b, now).proposal.value == BuildProposal(cfg, self, d.node, entries);
      }
    }
  }

  /** The commit arm: the tally that decided is still in the store, and so is the vote that came in. */
  lemma CommitArmShape(cfg: Config, self: Did, s: Node, s1: Node, v: Vote, b: Block, now: int)
    returns (kind: Kind)
    requires VotesGrow(cfg, s, s1, {v}) && s1.(votes := s.votes) == s
    requires s.cs.step == StepPrecommit && b.blockHash != NIL && Holds(s, b)
    requires Tally(cfg, s1, s.cs.height, s.cs.round, Precommit, b.blockHash) >= QuorumSize(cfg)
    ensures var s2 := s1.(timers := s1.timers.(precommitAt := None));
            Shape(cfg, self, s, CommitBlock(cfg, self, s2, b, now), Buffered(s) + {v}, kind)
    ensures kind == if |b.blockHash| < SHORT_HASH then ShortCommit(b, now) else Commit(b, now)
  {
    var s2 := s1.(timers := s1.timers.(precommitAt := None));
    kind := if |b.blockHash| < SHORT_HASH then ShortCommit(b, now) else Commit(b, now);
    CommitBlockShape(cfg, self, s2, b, now);
    TallyGrows(cfg, s1, CommitBlock(cfg, self, s2, b, now).node, s.cs.height, s.cs.round, Precommit, b.blockHash);
  }

  lemma OnPrecommitShape(cfg: Config, self: Did, s: Node, v: Vote, now: int, pick: Pick) returns (kind: Kind)
    requires pick.count == Tally(cfg, SaveVote(s, v), s.cs.height, s.cs.round, Precommit, pick.hash)
    ensures Shape(cfg, self, s, OnPrecommit(cfg, self, SaveVote(s, v), now, pick), Buffered(s) + {v}, kind)
    ensures kind.Commit? || kind.ShortCommit? ==> kind.now == now
    ensures !kind.ProposalPrevote? && !kind.Overwrite?
  {
    var s1 := SaveVote(s, v);
    SaveVoteGrows(cfg, s, v);
    if OnPrecommit(cfg, self, s1, now, pick).decided.None? {
      kind := Idle;
    } else {
      kind := CommitArmShape(cfg, self, s, s1, v, s.proposal.value.block.value, now);
    }
  }

  lemma HandleVoteShape(cfg: Config, self: Did, s: Node, v: Vote, sigOk: bool, now: int, pick: Pick)
    returns (kind: Kind)
    requires IsMajority(cfg, SaveVote(s, v), v.height, v.round, v.vtype, pick)
    ensures Shape(cfg, self, s, HandleVote(cfg, self, s, v, sigOk, now, pick),
                  Buffered(s) + (if VoteCounts(cfg, s, v, sigOk) then {v} else {}), kind)
    ensures kind.Commit? || kind.ShortCommit? ==> kind.now == now
    ensures !kind.ProposalPrevote? && !kind.Overwrite?
  {
    SaveVoteGrows(cfg, s, v);
    if !VoteCounts(cfg, s, v, sigOk) {
      kind := Idle;
    } else if v.round > s.cs.round {
      kind := SkipShape(cfg, self, s, v, now);
    } else if v.round < s.cs.round || v.vtype == Unspecified {
      kind := Idle;
    } else if v.vtype == Prevote {
      kind := OnPrevoteShape(cfg, self, s, v, now, pick);
    } else {
      kind := OnPrecommitShape(cfg, self, s, v, now, pick);
    }
  }
}
