/** What each handler answers, in terms of the state and the message alone: when it acts, what it sends and where it
    leaves the validator. */
module TendermintOutcomes {
  import opened ThreadTypes
  import opened TendermintNode
  import opened TendermintShapes
  import opened TendermintSystem
  import Quorums

  // ----- the proposer

  /** The replica list is taken in turn: position 0 proposes first, the next position in the next round, and a height
      counts like a round. */
  lemma ProposersTakeTurns(cfg: Config, did: Did, h: int, r: int)
    requires h + r >= 0 && cfg.replicas != []
    ensures h + r < |cfg.replicas| ==> (IsProposerAt(cfg, did, h, r) <==> did == cfg.replicas[h + r])
    ensures IsProposerAt(cfg, did, h, r + |cfg.replicas|) <==> IsProposerAt(cfg, did, h, r)
    ensures IsProposerAt(cfg, did, h + 1, r) <==> IsProposerAt(cfg, did, h, r + 1)
  {
    OneRoundTrip(h + r, |cfg.replicas|);
    assert h + (r + |cfg.replicas|) == h + r + |cfg.replicas|;
    assert h + 1 + r == h + (r + 1);
  }

  lemma OneRoundTrip(a: nat, n: nat)
    requires n > 0
    ensures (a + n) % n == a % n && (a < n ==> a % n == a)
  {
    Remainder(a + n, n, a / n + 1, a % n);
    if a < n {
      Remainder(a, n, 0, a);
    }
  }

  lemma Remainder(x: nat, n: nat, q: nat, r: nat)
    requires r < n && x == n * q + r
    ensures x % n == r
  {
    var k := x / n;
    if k > q {
      Apart(n, q, k);
      assert false;
    } else if k < q {
      Apart(n, k, q);
      assert false;
    }
  }

  lemma {:induction false} Apart(n: nat, a: nat, b: nat)
    requires a < b
    ensures n * a + n <= n * b
    decreases b
  {
    assert n * b == n * (b - 1) + n;
    if b > a + 1 {
      Apart(n, a, b - 1);
    }
  }

  // ----- what a validator proposes

  function Least(a: nat, b: nat): nat {
    if a < b then a else b
  }

  /** The hash of the committed block below, nil if there is none. */
  ghost predicate IsParent(cfg: Config, s: Node, x: Hash) {
    var key := BlockKey(cfg.threadId, s.cs.height - 1);
    if s.cs.height > 1 && key in s.blocks && s.blocks[key].committedAt > 0 then x == s.blocks[key].blockHash
    else x == NIL
  }

  /** A proposal of n for its position in state s, with the proof-of-lock round of its valid value. */
  ghost predicate IsProposalOf(cfg: Config, n: Did, s: Node, p: Proposal) {
    && p.threadId == cfg.threadId && p.height == s.cs.height && p.round == s.cs.round && p.proposerDid == n
    && p.polRound == (if s.cs.validRound >= 0 && s.cs.validHash != NIL then s.cs.validRound else -1)
    && p.block.Some?
    && var b := p.block.value;
       && b.threadId == cfg.threadId && b.height == s.cs.height && b.round == s.cs.round && b.proposerDid == n
       && IsParent(cfg, s, b.parentHash) && b.committedAt == 0
       && b.blockHash == cfg.hash(Content(b.threadId, b.height, b.round, b.parentHash, StripAll(b.entries), n))
  }

  /** From `waiting` entries to those of state s: what was taken is in the proposal, oldest first and 64 at most. */
  ghost predicate Takes(waiting: seq<Entry>, s: Node, p: Proposal) {
    && p.block.Some? && p.block.value.entries + s.pending == waiting
    && |p.block.value.entries| == Least(|waiting|, 64)
  }

  /** What entering the propose step with `waiting` entries does. */
  ghost predicate Entered(cfg: Config, n: Did, waiting: seq<Entry>, e: Effect) {
    && (e.proposal.Some? ==>
          && IsProposerAt(cfg, n, e.node.cs.height, e.node.cs.round) && IsProposalOf(cfg, n, e.node, e.proposal.value)
          && Takes(waiting, e.node, e.proposal.value) && |e.proposal.value.block.value.blockHash| >= 8)
    && (!IsProposerAt(cfg, n, e.node.cs.height, e.node.cs.round) ==> e.proposal == None && e.node.pending == waiting)
    && (IsProposerAt(cfg, n, e.node.cs.height, e.node.cs.round) && e.proposal == None ==>
          exists c: Content :: |cfg.hash(c)| < 8)
  }

  lemma EnterProposeOutcome(cfg: Config, n: Did, s: Node)
    ensures Entered(cfg, n, s.pending, EnterPropose(cfg, n, s))
  {
    var k := Least(|s.pending|, 64);
    assert s.pending[..k] + s.pending[k..] == s.pending;
    var e := EnterPropose(cfg, n, s);
    if IsProposerAt(cfg, n, s.cs.height, s.cs.round) {
      var b := BuildBlock(cfg, n, s, s.pending[..k]);
      assert b.blockHash == cfg.hash(ContentOf(b));
    }
  }

  /** The entries that wait once the event has brought in its own. */
  function Waiting(s: Node, ev: Event): seq<Entry> {
    s.pending + if ev.Submit? then [ev.entry] else []
  }

  predicate AtNode(ev: Event) {
    !ev.FaultyVote? && !ev.FaultyProposal?
  }

  /** What every event does with the waiting entries: they are in the proposal it broadcasts, or they go on waiting. */
  ghost predicate Flows(cfg: Config, n: Did, waiting: seq<Entry>, e: Effect) {
    && (e.proposal.Some? ==>
          && IsProposerAt(cfg, n, e.node.cs.height, e.node.cs.round) && IsProposalOf(cfg, n, e.node, e.proposal.value)
          && Takes(waiting, e.node, e.proposal.value))
    && (e.proposal == None ==> e.node.pending == waiting || exists c: Content :: |cfg.hash(c)| < 8)
  }

  lemma {:induction false} SaveVotesKeep(s: Node, vs: seq<Vote>)
    ensures SaveVotes(s, vs).(votes := s.votes) == s
    decreases vs
  {
    if vs != [] {
      SaveVotesKeep(SaveVote(s, vs[0]), vs[1..]);
    }
  }

  lemma VoteFlows(cfg: Config, s: Node, ev: Event)
    requires ev.DeliverVote?
    ensures Flows(cfg, ev.n, s.pending, NodeEffect(cfg, s, ev))
  {
    var v, s1 := ev.v, SaveVote(s, ev.v);
    if VoteCounts(cfg, s, v, ev.sigOk) && v.round > s.cs.round {
      SkipFlows(cfg, ev.n, BufferFutureVote(s, v), v.round, ev.now);
    } else if NodeEffect(cfg, s, ev).decided.Some? {
      var s2 := s1.(timers := s1.timers.(precommitAt := None));
      CommitFlows(cfg, ev.n, s2, s.proposal.value.block.value, ev.now);
    }
  }

  lemma SkipFlows(cfg: Config, self: Did, s: Node, round: int, now: int)
    ensures Flows(cfg, self, s.pending, CheckFutureRoundSkip(cfg, self, s, round, now))
  {
    if |FutureVoters(s, round)| >= QuorumSize(cfg) {
      assert round in s.future;
      SaveVotesKeep(s, s.future[round]);
      var flushed := SaveVotes(s, s.future[round]);
      EnterProposeOutcome(cfg, self, flushed.(timers := DISARMED, future := flushed.future - {round},
                                              cs := flushed.cs.(round := round, step := StepPropose)));
    }
  }

  lemma CommitFlows(cfg: Config, self: Did, s: Node, b: Block, now: int)
    ensures Flows(cfg, self, s.pending, CommitBlock(cfg, self, s, b, now))
  {
    if |b.blockHash| >= SHORT_HASH {
      EnterProposeOutcome(cfg, self, Advance(cfg, SaveBlock(s, b, now), b, now));
    }
  }

  lemma StartFlows(cfg: Config, self: Did, s: Node, now: int)
    ensures Flows(cfg, self, s.pending, Start(cfg, self, s, now))
  {
    if !s.started {
      EnterProposeOutcome(cfg, self, s.(started := true));
    }
  }

  lemma TimeoutFlows(cfg: Config, self: Did, s: Node, now: int)
    ensures Flows(cfg, self, s.pending, TickPropose(cfg, self, s, now))
    ensures Flows(cfg, self, s.pending, TickPrevote(cfg, self, s, now))
  {
  }

  lemma NextRoundFlows(cfg: Config, self: Did, s: Node, now: int)
    ensures Flows(cfg, self, s.pending, TickPrecommit(cfg, self, s, now))
  {
    EnterProposeOutcome(cfg, self, s.(timers := s.timers.(precommitAt := None),
                                      cs := s.cs.(round := s.cs.round + 1, step := StepPropose)));
  }

  lemma LocalFlows(cfg: Config, s: Node, ev: Event)
    requires AtNode(ev) && !ev.DeliverVote?
    ensures Flows(cfg, ev.n, Waiting(s, ev), NodeEffect(cfg, s, ev))
  {
    assert !ev.Submit? ==> Waiting(s, ev) == s.pending;
    match ev {
      case StartUp(n, now) => StartFlows(cfg, n, s, now);
      case ProposeTimeout(n, now) => TimeoutFlows(cfg, n, s, now);
      case PrevoteTimeout(n, now) => TimeoutFlows(cfg, n, s, now);
      case PrecommitTimeout(n, now) => NextRoundFlows(cfg, n, s, now);
      case _ =>
    }
  }

  /** For every state and every event: a proposal that is broadcast is one of the validator for the position it is then
      in, and holds the oldest waiting entries, 64 at most; the others, and all of them without a proposal, go on
      waiting. Only a block hash of fewer than eight characters would lose entries. */
  lemma ProposalContents(cfg: Config, s: Node, ev: Event)
    requires AtNode(ev)
    ensures Flows(cfg, ev.n, Waiting(s, ev), NodeEffect(cfg, s, ev))
  {
    if ev.DeliverVote? {
      VoteFlows(cfg, s, ev);
    } else {
      LocalFlows(cfg, s, ev);
    }
  }

  // ----- proposals

  /** The proposal is for the current position, from whose turn it is, with a block and a good signature, and the
      validator is waiting for one. */
  predicate Awaited(cfg: Config, s: Node, p: Proposal, sigOk: bool) {
    && s.started && s.cs.step == StepPropose && p.height == s.cs.height && p.round == s.cs.round
    && cfg.replicas != [] && p.height + p.round >= 0
    && p.proposerDid == cfg.replicas[(p.height + p.round) % |cfg.replicas|]
    && p.block.Some? && sigOk
  }

  /** A row is added unless its key is taken; nothing else changes in the table. */
  ghost predicate RowSaved(votes: map<VoteKey, Hash>, v: Vote, votes': map<VoteKey, Hash>) {
    && votes'.Keys == votes.Keys + {VoteKey(v.threadId, v.height, v.round, v.vtype, v.voter)}
    && (forall k :: k in votes ==> votes'[k] == votes[k])
    && (VoteKey(v.threadId, v.height, v.round, v.vtype, v.voter) !in votes ==>
          votes'[VoteKey(v.threadId, v.height, v.round, v.vtype, v.voter)] == v.blockHash)
  }

  lemma SaveVoteRow(s: Node, v: Vote)
    ensures RowSaved(s.votes, v, SaveVote(s, v).votes) && SaveVote(s, v).(votes := s.votes) == s
  {
  }

  /** A validator prevotes on a proposal if and only if it is awaited: under the lock rule, with its own row stored and
      half a second for the prevotes. Otherwise nothing changes. */
  lemma ProposalOutcome(cfg: Config, self: Did, s: Node, p: Proposal, sigOk: bool, now: int)
    ensures var e := HandleProposal(cfg, self, s, p, sigOk, now);
            && (e.vote.Some? <==> Awaited(cfg, s, p, sigOk)) && e.proposal == None && e.decided == None
            && (e.vote == None ==> e.node == s)
            && (e.vote.Some? ==>
                  var v := e.vote.value;
                  && v == Vote(cfg.threadId, s.cs.height, s.cs.round, Prevote, v.blockHash, self)
                  && PrevoteRule(s.cs, p, v.blockHash, e.node.cs) && RowSaved(s.votes, v, e.node.votes)
                  && e.node == s.(proposal := Some(p), cs := e.node.cs, votes := e.node.votes,
                                  timers := s.timers.(prevoteAt := Some(now + 500))))
  {
    if Awaited(cfg, s, p, sigOk) {
      var e := HandleProposal(cfg, self, s, p, sigOk, now);
      SaveVoteRow(s, e.vote.value);
      assert e.node.votes == SaveVote(s, e.vote.value).votes;
    }
  }

  // ----- votes

  /** The vote is looked at: it is for the current height, from a replica and signed. */
  predicate Counted(cfg: Config, s: Node, v: Vote, sigOk: bool) {
    s.started && v.height == s.cs.height && v.voter in cfg.replicas && sigOk
  }

  /** Any other vote changes nothing, and a vote of an earlier round is stored and changes nothing else. */
  lemma OldVoteOutcome(cfg: Config, self: Did, s: Node, v: Vote, sigOk: bool, now: int, pick: Pick)
    ensures var e := HandleVote(cfg, self, s, v, sigOk, now, pick);
            && (!Counted(cfg, s, v, sigOk) ==> e == Effect(s, None, None, None))
            && (Counted(cfg, s, v, sigOk) && v.round < s.cs.round ==>
                  RowSaved(s.votes, v, e.node.votes) && e == Effect(s.(votes := e.node.votes), None, None, None))
  {
    SaveVoteRow(s, v);
  }

  /** 2f+1 rows of the slot are for x. */
  ghost predicate HasQuorum(cfg: Config, s: Node, t: VoteType, x: Hash) {
    |StoreVoters(cfg, s, s.cs.height, s.cs.round, t, x)| >= 2 * cfg.f + 1
  }

  /** A prevote of the current round is stored. The validator then precommits if and only if it was waiting for prevotes
      and some hash has 2f+1 of them: the block it holds, on which it locks, or nil. */
  lemma PrevoteOutcome(cfg: Config, self: Did, s: Node, v: Vote, now: int, pick: Pick)
    requires Counted(cfg, s, v, true) && v.round == s.cs.round && v.vtype == Prevote
    requires IsMajority(cfg, SaveVote(s, v), v.height, v.round, Prevote, pick)
    ensures var e := HandleVote(cfg, self, s, v, true, now, pick);
            && KeyOf(v) in e.node.votes && e.proposal == None && e.decided == None
            && (e.vote.Some? <==> s.cs.step == StepPrevote && exists x :: HasQuorum(cfg, SaveVote(s, v), Prevote, x))
            && (e.vote == None ==> e.node.cs == s.cs && e.node.timers == s.timers)
            && (e.vote.Some? ==>
                  var x := e.vote.value.blockHash;
                  && e.vote.value == Vote(cfg.threadId, s.cs.height, s.cs.round, Precommit, x, self)
                  && e.node.timers == s.timers.(prevoteAt := None, precommitAt := Some(now + 500))
                  && if x == NIL then e.node.cs == s.cs.(step := StepPrecommit)
                     else && HasQuorum(cfg, SaveVote(s, v), Prevote, x) && HoldsHash(s, x)
                          && e.node.cs == ConsensusState(s.cs.height, s.cs.round, StepPrecommit,
                                                         s.cs.round, x, s.cs.round, x))
            && (e.vote.Some? && e.vote.value.blockHash == NIL ==> !HoldsHash(s, pick.hash) || pick.hash == NIL)
  {
    SaveVoteRow(s, v);
    assert VoteCounts(cfg, s, v, true);
    PickIsQuorum(cfg, SaveVote(s, v), Prevote, pick);
  }

  ghost predicate HoldsHash(s: Node, x: Hash) {
    s.proposal.Some? && s.proposal.value.block.Some? && s.proposal.value.block.value.blockHash == x
  }

  /** The majority's count reaches 2f+1 if and only if some hash has 2f+1 rows. */
  lemma PickIsQuorum(cfg: Config, s: Node, t: VoteType, pick: Pick)
    requires IsMajority(cfg, s, s.cs.height, s.cs.round, t, pick)
    ensures pick.count >= 2 * cfg.f + 1 <==> exists x :: HasQuorum(cfg, s, t, x)
    ensures pick.count >= 2 * cfg.f + 1 <==> HasQuorum(cfg, s, t, pick.hash)
  {
    if x :| HasQuorum(cfg, s, t, x) {
      assert Tally(cfg, s, s.cs.height, s.cs.round, t, x) <= pick.count;
    }
    if pick.count >= 2 * cfg.f + 1 {
      assert HasQuorum(cfg, s, t, pick.hash);
    }
  }

  /** A precommit of the current round is stored. The validator then decides if and only if it was waiting for
      precommits and the block it holds is what `majority` answers with 2f+1 of them. */
  lemma PrecommitOutcome(cfg: Config, self: Did, s: Node, v: Vote, now: int, pick: Pick)
    requires Counted(cfg, s, v, true) && v.round == s.cs.round && v.vtype == Precommit
    requires IsMajority(cfg, SaveVote(s, v), v.height, v.round, Precommit, pick)
    ensures var e := HandleVote(cfg, self, s, v, true, now, pick);
            var decides := && s.cs.step == StepPrecommit && pick.hash != NIL && HoldsHash(s, pick.hash)
                           && HasQuorum(cfg, SaveVote(s, v), Precommit, pick.hash);
            && KeyOf(v) in e.node.votes && e.vote == None
            && e.decided == (if decides then Some(Decision(self, s.cs.height, s.cs.round, pick.hash)) else None)
            && (!decides ==> e.node.cs == s.cs && e.node.blocks == s.blocks && e.proposal == None)
  {
    SaveVoteRow(s, v);
    assert VoteCounts(cfg, s, v, true);
    PickIsQuorum(cfg, SaveVote(s, v), Precommit, pick);
    var e := HandleVote(cfg, self, s, v, true, now, pick);
    if e.decided.Some? {
      var s1 := SaveVote(s, v);
      CommitBlockShape(cfg, self, s1.(timers := s1.timers.(precommitAt := None)), s.proposal.value.block.value, now);
    }
  }

  // ----- votes of later rounds

  /** The votes of the round of v that have arrived: the buffered ones and v. */
  function Arrived(s: Node, v: Vote): seq<Vote> {
    (if v.round in s.future then s.future[v.round] else []) + [v]
  }

  /** The voters with a prevote among them. */
  function Prevoters(s: Node, v: Vote): set<Did> {
    set u | u in Arrived(s, v) && u.vtype == Prevote :: u.voter
  }

  /** A vote of the same voter and type is buffered for the round of v. */
  predicate BufferedAlready(s: Node, v: Vote) {
    v.round in s.future && exists u :: u in s.future[v.round] && u.voter == v.voter && u.vtype == v.vtype
  }

  lemma BufferedVoters(s: Node, v: Vote)
    ensures FutureVoters(BufferFutureVote(s, v), v.round) == Prevoters(s, v)
    ensures v.round in BufferFutureVote(s, v).future
  {
    var b := BufferFutureVote(s, v);
    if v.round in s.future {
      forall u | u in s.future[v.round] ensures u in b.future[v.round] {
      }
    }
    assert v in b.future[v.round] || exists u :: u in b.future[v.round] && u.voter == v.voter && u.vtype == v.vtype;
    forall d | d in Prevoters(s, v) ensures d in FutureVoters(b, v.round) {
    }
  }

  lemma {:induction false} AllSaved(s: Node, vs: seq<Vote>)
    ensures forall u :: u in vs ==> KeyOf(u) in SaveVotes(s, vs).votes
    ensures forall k :: k in s.votes ==> k in SaveVotes(s, vs).votes && SaveVotes(s, vs).votes[k] == s.votes[k]
    decreases vs
  {
    if vs != [] {
      AllSaved(SaveVote(s, vs[0]), vs[1..]);
      assert forall u :: u in vs ==> u == vs[0] || u in vs[1..];
    }
  }

  /** A vote of a later round takes the validator to the propose step of that round if and only if 2f+1 distinct voters
      have a prevote of that round among the buffered votes and this one. Then every buffered vote of the round is
      stored, or its key was taken; otherwise the vote is buffered, unless one of the same voter and type is, and
      nothing else changes. */
  lemma SkipIff(cfg: Config, self: Did, s: Node, v: Vote, now: int, pick: Pick)
    requires Counted(cfg, s, v, true) && v.round > s.cs.round
    ensures var e := HandleVote(cfg, self, s, v, true, now, pick);
            && (e.node.cs.round == v.round <==> |Prevoters(s, v)| >= 2 * cfg.f + 1)
            && (if |Prevoters(s, v)| >= 2 * cfg.f + 1 then
                  && e.node.cs == s.cs.(round := v.round, step := StepPropose) && v.round !in e.node.future
                  && (v.round in s.future ==> forall u :: u in s.future[v.round] ==> KeyOf(u) in e.node.votes)
                  && (!BufferedAlready(s, v) ==> KeyOf(v) in e.node.votes)
                  && e.node.timers == Timers(Some(now + cfg.epochMs), None, None)
                else
                  && e == Effect(s.(future := e.node.future), None, None, None) && v.round in e.node.future
                  && exists u :: u in e.node.future[v.round] && u.voter == v.voter && u.vtype == v.vtype)
  {
    assert VoteCounts(cfg, s, v, true);
    var b := BufferFutureVote(s, v);
    BufferedVoters(s, v);
    if |Prevoters(s, v)| >= 2 * cfg.f + 1 {
      SaveVotesKeep(b, b.future[v.round]);
      AllSaved(b, b.future[v.round]);
      var flushed := SaveVotes(b, b.future[v.round]);
      EnterProposeShape(cfg, self, flushed.(timers := DISARMED, future := flushed.future - {v.round},
                                            cs := flushed.cs.(round := v.round, step := StepPropose)));
    } else {
      assert v in b.future[v.round] || exists u :: u in b.future[v.round] && u.voter == v.voter && u.vtype == v.vtype;
    }
  }

  // ----- timeouts

  predicate Due(at: Option<int>, now: int) {
    at.Some? && at.value <= now
  }

  /** A timeout acts if and only if its deadline has come and the validator is in its step: a nil prevote, a nil
      precommit, or the next round. */
  lemma TimeoutIff(cfg: Config, self: Did, s: Node, now: int)
    ensures var e := TickPropose(cfg, self, s, now);
            if s.started && Due(s.timers.proposeAt, now) && s.cs.step == StepPropose then
              && e.vote == Some(Vote(cfg.threadId, s.cs.height, s.cs.round, Prevote, NIL, self))
              && e.node.cs == s.cs.(step := StepPrevote)
              && e.node.timers == s.timers.(proposeAt := None, prevoteAt := Some(now + 500))
            else e.vote == None && e.node.cs == s.cs
    ensures var e := TickPrevote(cfg, self, s, now);
            if s.started && Due(s.timers.prevoteAt, now) && s.cs.step == StepPrevote then
              && e.vote == Some(Vote(cfg.threadId, s.cs.height, s.cs.round, Precommit, NIL, self))
              && e.node.cs == s.cs.(step := StepPrecommit)
              && e.node.timers == s.timers.(prevoteAt := None, precommitAt := Some(now + 500))
            else e.vote == None && e.node.cs == s.cs
  {
  }

  lemma NextRoundIff(cfg: Config, self: Did, s: Node, now: int)
    ensures var e := TickPrecommit(cfg, self, s, now);
            && e.vote == None
            && if s.started && Due(s.timers.precommitAt, now) && s.cs.step == StepPrecommit then
                 && e.node.cs == s.cs.(round := s.cs.round + 1, step := StepPropose)
                 && e.node.timers == s.timers.(precommitAt := None, proposeAt := Some(now + cfg.epochMs))
               else e.node.cs == s.cs && e.proposal == None
  {
    EnterProposeShape(cfg, self, s.(timers := s.timers.(precommitAt := None),
                                    cs := s.cs.(round := s.cs.round + 1, step := StepPropose)));
  }
}
