/** What follows from the outcomes for whole runs, with any rows from other threads: no entry is lost or reordered on
    its way into proposals, a round is skipped only on sent prevotes, and exactly when a validator is left without a
    deadline. */
module TendermintFlow {
  import opened ThreadTypes
  import opened TendermintNode
  import opened TendermintShapes
  import opened TendermintSystem
  import opened TendermintOutcomes
  import Quorums

  // ----- runs

  lemma {:induction false} TypedAlways(cfg: Config, correct: set<Did>, trace: seq<System>, evs: seq<Event>, i: nat)
    requires IsRun(cfg, correct, trace, evs) && i < |trace|
    ensures Typed(correct, trace[i])
  {
    if i > 0 {
      assert IsPossibleStep(cfg, correct, trace, evs, i - 1);
    }
  }

  /** Event ev is at validator n. */
  predicate IsAt(ev: Event, n: Did) {
    AtNode(ev) && ev.n == n
  }

  /** What a step does to one validator: the effect of its own events, and nothing otherwise. */
  lemma NodeAfter(cfg: Config, correct: set<Did>, trace: seq<System>, evs: seq<Event>, i: nat, n: Did)
    requires IsRun(cfg, correct, trace, evs) && i < |evs| && n in correct
    ensures n in trace[i].nodes && n in trace[i + 1].nodes
    ensures trace[i + 1].nodes[n] == if IsAt(evs[i], n) then NodeEffect(cfg, trace[i].nodes[n], evs[i]).node
                                     else trace[i].nodes[n]
  {
    TypedAlways(cfg, correct, trace, evs, i);
    assert IsPossibleStep(cfg, correct, trace, evs, i);
  }

  // ----- entries

  /** The entries submitted to validator n in the first i events, in order. */
  function Submitted(evs: seq<Event>, n: Did, i: nat): seq<Entry>
    requires i <= |evs|
  {
    if i == 0 then []
    else Submitted(evs, n, i - 1) + if evs[i - 1].Submit? && evs[i - 1].n == n then [evs[i - 1].entry] else []
  }

  /** The entries of the proposal that step i broadcasts at n, if any. */
  ghost function ProposedAt(cfg: Config, trace: seq<System>, evs: seq<Event>, n: Did, i: nat): seq<Entry>
    requires i < |evs| && i < |trace|
  {
    if IsAt(evs[i], n) && n in trace[i].nodes then
      var p := NodeEffect(cfg, trace[i].nodes[n], evs[i]).proposal;
      if p.Some? && p.value.block.Some? then p.value.block.value.entries else []
    else []
  }

  /** The entries of all proposals of n in the first i steps, in order. */
  ghost function Proposed(cfg: Config, trace: seq<System>, evs: seq<Event>, n: Did, i: nat): seq<Entry>
    requires i <= |evs| && i < |trace|
  {
    if i == 0 then [] else Proposed(cfg, trace, evs, n, i - 1) + ProposedAt(cfg, trace, evs, n, i - 1)
  }

  /** As hexadecimal SHA-256 texts are. */
  ghost predicate LongHashes(cfg: Config) {
    forall c: Content :: |cfg.hash(c)| >= 8
  }

  lemma FlowStep(cfg: Config, s: Node, ev: Event)
    requires AtNode(ev) && LongHashes(cfg)
    ensures var e := NodeEffect(cfg, s, ev);
            var p := e.proposal;
            var out := if p.Some? && p.value.block.Some? then p.value.block.value.entries else [];
            out + e.node.pending == Waiting(s, ev)
  {
    ProposalContents(cfg, s, ev);
    assert forall c: Content :: !(|cfg.hash(c)| < 8);
  }

  lemma Reassociate(a: seq<Entry>, b: seq<Entry>, c: seq<Entry>, d: seq<Entry>, x: seq<Entry>, y: seq<Entry>)
    requires a == b + c && d + y == c + x
    ensures a + x == (b + d) + y
  {
    assert a + x == b + (c + x) == b + (d + y);
  }

  /** In every run, the entries submitted to a validator are those it has proposed so far, in the same order,
      followed by those that still wait: none is lost, doubled or overtaken before it is proposed. */
  lemma {:induction false} EntriesInOrder(cfg: Config, correct: set<Did>, trace: seq<System>, evs: seq<Event>, n: Did,
                                          i: nat)
    requires IsRun(cfg, correct, trace, evs) && LongHashes(cfg) && n in correct && i < |trace|
    ensures n in trace[i].nodes
    ensures Submitted(evs, n, i) == Proposed(cfg, trace, evs, n, i) + trace[i].nodes[n].pending
  {
    if i > 0 {
      EntriesInOrder(cfg, correct, trace, evs, n, i - 1);
      NodeAfter(cfg, correct, trace, evs, i - 1, n);
      var s, ev := trace[i - 1].nodes[n], evs[i - 1];
      if IsAt(ev, n) {
        FlowStep(cfg, s, ev);
        Reassociate(Submitted(evs, n, i - 1), Proposed(cfg, trace, evs, n, i - 1), s.pending,
                    ProposedAt(cfg, trace, evs, n, i - 1), if ev.Submit? then [ev.entry] else [],
                    trace[i].nodes[n].pending);
      }
    }
  }

  // ----- skipped rounds

  /** The buffered votes are for the round they are kept under and the current height, from replicas, and name the
      thread, where they were sent. */
  ghost predicate BufferOK(cfg: Config, s: Node, votes: set<Vote>) {
    && s.cs.round >= 0
    && forall r, u :: r in s.future && u in s.future[r] ==> IsBuffered(cfg, s.cs, votes, r, u)
  }

  ghost predicate IsBuffered(cfg: Config, cs: ConsensusState, votes: set<Vote>, r: int, u: Vote) {
    && u.round == r && u.height == cs.height && u.voter in cfg.replicas && u.threadId == cfg.threadId && u in votes
  }

  /** The vote a step may buffer. */
  predicate Buffers(cfg: Config, s: Node, ev: Event) {
    ev.DeliverVote? && Counted(cfg, s, ev.v, ev.sigOk) && ev.v.round > s.cs.round
  }

  /** A step keeps buffered votes of the height, adds at most the vote it delivers, or clears the buffer. */
  ghost predicate BufferMoves(cfg: Config, s: Node, ev: Event, s': Node) {
    && (s'.cs.height == s.cs.height || s'.future == map[])
    && (s'.cs.round >= s.cs.round || s'.cs.round >= 0)
    && forall r, u :: r in s'.future && u in s'.future[r] ==>
         (r in s.future && u in s.future[r]) || (Buffers(cfg, s, ev) && r == ev.v.round && u == ev.v)
  }

  lemma LocalBuffer(cfg: Config, s: Node, ev: Event)
    requires AtNode(ev) && !ev.DeliverVote?
    ensures BufferMoves(cfg, s, ev, NodeEffect(cfg, s, ev).node)
  {
    match ev {
      case StartUp(n, now) => StartBuffer(cfg, n, s, now);
      case DeliverProposal(n, p, sigOk, now) => ProposalOutcome(cfg, n, s, p, sigOk, now);
      case ProposeTimeout(n, now) => TimeoutBuffer(cfg, n, s, now);
      case PrevoteTimeout(n, now) => TimeoutBuffer(cfg, n, s, now);
      case PrecommitTimeout(n, now) => NextRoundBuffer(cfg, n, s, now);
      case _ =>
    }
  }

  /** Nothing is buffered, and the height and round stay. */
  predicate SameBuffer(s: Node, s': Node) {
    s'.future == s.future && s'.cs.height == s.cs.height && s'.cs.round == s.cs.round
  }

  lemma StartBuffer(cfg: Config, self: Did, s: Node, now: int)
    ensures SameBuffer(s, Start(cfg, self, s, now).node)
  {
    EnterProposeShape(cfg, self, s.(started := true));
  }

  lemma TimeoutBuffer(cfg: Config, self: Did, s: Node, now: int)
    ensures SameBuffer(s, TickPropose(cfg, self, s, now).node) && SameBuffer(s, TickPrevote(cfg, self, s, now).node)
  {
  }

  lemma NextRoundBuffer(cfg: Config, self: Did, s: Node, now: int)
    ensures TickPrecommit(cfg, self, s, now).node.future == s.future
    ensures TickPrecommit(cfg, self, s, now).node.cs.height == s.cs.height
    ensures TickPrecommit(cfg, self, s, now).node.cs.round >= s.cs.round
  {
    EnterProposeShape(cfg, self, s.(timers := s.timers.(precommitAt := None),
                                    cs := s.cs.(round := s.cs.round + 1, step := StepPropose)));
  }

  lemma VoteBuffer(cfg: Config, s: Node, ev: Event)
    requires ev.DeliverVote?
    ensures BufferMoves(cfg, s, ev, NodeEffect(cfg, s, ev).node)
  {
    if Buffers(cfg, s, ev) {
      SkipBuffer(cfg, ev.n, s, ev.v, ev.now);
    } else {
      PrevoteBuffer(cfg, ev.n, SaveVote(s, ev.v), ev.now, ev.pick);
      PrecommitBuffer(cfg, ev.n, SaveVote(s, ev.v), ev.now, ev.pick);
    }
  }

  lemma PrevoteBuffer(cfg: Config, self: Did, s: Node, now: int, pick: Pick)
    ensures SameBuffer(s, OnPrevote(cfg, self, s, now, pick).node)
  {
  }

  lemma PrecommitBuffer(cfg: Config, self: Did, s: Node, now: int, pick: Pick)
    ensures var s' := OnPrecommit(cfg, self, s, now, pick).node;
            SameBuffer(s, s') || (s'.future == map[] && (s'.cs == s.cs || s'.cs.round == 0))
  {
    if s.proposal.Some? && s.proposal.value.block.Some? {
      CommitBuffer(cfg, self, s.(timers := s.timers.(precommitAt := None)), s.proposal.value.block.value, now);
    }
  }

  lemma SkipBuffer(cfg: Config, self: Did, s: Node, v: Vote, now: int)
    requires v.round > s.cs.round
    ensures var s' := CheckFutureRoundSkip(cfg, self, BufferFutureVote(s, v), v.round, now).node;
            && s'.cs.height == s.cs.height && s'.cs.round >= s.cs.round
            && forall r, u :: r in s'.future && u in s'.future[r] ==>
                 (r in s.future && u in s.future[r]) || (r == v.round && u == v)
  {
    var b := BufferFutureVote(s, v);
    if |FutureVoters(b, v.round)| >= QuorumSize(cfg) {
      assert v.round in b.future;
      SaveVotesKeep(b, b.future[v.round]);
      var flushed := SaveVotes(b, b.future[v.round]);
      EnterProposeShape(cfg, self, flushed.(timers := DISARMED, future := flushed.future - {v.round},
                                            cs := flushed.cs.(round := v.round, step := StepPropose)));
    }
  }

  lemma CommitBuffer(cfg: Config, self: Did, s: Node, b: Block, now: int)
    ensures var s' := CommitBlock(cfg, self, s, b, now).node;
            s'.future == map[] && (s'.cs == s.cs || s'.cs.round == 0)
  {
    EnterProposeShape(cfg, self, Advance(cfg, SaveBlock(s, b, now), b, now));
  }

  lemma BufferStep(cfg: Config, s: Node, ev: Event, votes: set<Vote>, votes': set<Vote>)
    requires AtNode(ev) && BufferOK(cfg, s, votes) && votes <= votes'
    requires Buffers(cfg, s, ev) ==> ev.v.threadId == cfg.threadId && ev.v in votes
    ensures BufferOK(cfg, NodeEffect(cfg, s, ev).node, votes')
  {
    var s' := NodeEffect(cfg, s, ev).node;
    assert BufferMoves(cfg, s, ev, s') by {
      if ev.DeliverVote? {
        VoteBuffer(cfg, s, ev);
      } else {
        LocalBuffer(cfg, s, ev);
      }
    }
    forall r, u | r in s'.future && u in s'.future[r] ensures IsBuffered(cfg, s'.cs, votes', r, u) {
      if r in s.future && u in s.future[r] {
        assert IsBuffered(cfg, s.cs, votes, r, u);
      }
    }
  }

  /** Every vote that a validator looks at names this thread. No handler checks it: the signature covers the thread that
      the vote names, not the one whose message carries it. */
  ghost predicate NamesThread(cfg: Config, evs: seq<Event>, i: nat)
    requires i <= |evs|
  {
    forall k :: 0 <= k < i && evs[k].DeliverVote? && evs[k].sigOk ==> evs[k].v.threadId == cfg.threadId
  }

  lemma {:induction false} BufferAlways(cfg: Config, correct: set<Did>, trace: seq<System>, evs: seq<Event>, n: Did,
                                        i: nat)
    requires IsRun(cfg, correct, trace, evs) && n in correct && i < |trace| && NamesThread(cfg, evs, i)
    ensures n in trace[i].nodes && BufferOK(cfg, trace[i].nodes[n], trace[i].votes)
  {
    if i > 0 {
      BufferAlways(cfg, correct, trace, evs, n, i - 1);
      BufferNext(cfg, correct, trace, evs, n, i - 1);
    }
  }

  lemma BufferNext(cfg: Config, correct: set<Did>, trace: seq<System>, evs: seq<Event>, n: Did, i: nat)
    requires IsRun(cfg, correct, trace, evs) && n in correct && i < |evs| && NamesThread(cfg, evs, i + 1)
    requires n in trace[i].nodes && BufferOK(cfg, trace[i].nodes[n], trace[i].votes)
    ensures n in trace[i + 1].nodes && BufferOK(cfg, trace[i + 1].nodes[n], trace[i + 1].votes)
  {
    NodeAfter(cfg, correct, trace, evs, i, n);
    assert IsPossibleStep(cfg, correct, trace, evs, i);
    var s, s' := trace[i].nodes[n], trace[i + 1].nodes[n];
    if IsAt(evs[i], n) {
      BufferStep(cfg, s, evs[i], trace[i].votes, trace[i + 1].votes);
    } else {
      forall r, u | r in s'.future && u in s'.future[r] ensures IsBuffered(cfg, s'.cs, trace[i + 1].votes, r, u) {
        assert IsBuffered(cfg, s.cs, trace[i].votes, r, u);
      }
    }
  }

  /** The validators with a sent prevote for (h, r), for whatever block. */
  ghost function SentPrevoters(cfg: Config, votes: set<Vote>, h: int, r: int): set<Did> {
    set d | d in cfg.replicas && SentPrevote(cfg, votes, d, h, r)
  }

  ghost predicate SentPrevote(cfg: Config, votes: set<Vote>, d: Did, h: int, r: int) {
    exists x :: Vote(cfg.threadId, h, r, Prevote, x, d) in votes
  }

  lemma ArrivedWereSent(cfg: Config, s: Node, v: Vote, votes: set<Vote>)
    requires BufferOK(cfg, s, votes) && Counted(cfg, s, v, true) && v.threadId == cfg.threadId && v in votes
    ensures Prevoters(s, v) <= SentPrevoters(cfg, votes, s.cs.height, v.round)
  {
    forall d | d in Prevoters(s, v) ensures d in SentPrevoters(cfg, votes, s.cs.height, v.round) {
      var u :| u in Arrived(s, v) && u.vtype == Prevote && u.voter == d;
      if u != v {
        assert IsBuffered(cfg, s.cs, votes, v.round, u);
      }
      assert Vote(cfg.threadId, s.cs.height, v.round, Prevote, u.blockHash, d) in votes;
    }
  }

  /** A delivered vote takes a validator to a later round only by a skip. */
  lemma VoteRaisesRound(cfg: Config, s: Node, ev: Event)
    requires ev.DeliverVote? && s.cs.round >= 0 && NodeEffect(cfg, s, ev).node.cs.round > s.cs.round
    ensures Buffers(cfg, s, ev) && NodeEffect(cfg, s, ev).node.cs.round == ev.v.round
    ensures |Prevoters(s, ev.v)| >= 2 * cfg.f + 1
  {
    if Buffers(cfg, s, ev) {
      SkipIff(cfg, ev.n, s, ev.v, ev.now, ev.pick);
    } else {
      var s1 := SaveVote(s, ev.v);
      if NodeEffect(cfg, s, ev).decided.Some? {
        CommitBuffer(cfg, ev.n, s1.(timers := s1.timers.(precommitAt := None)), s.proposal.value.block.value, ev.now);
      }
      assert false;
    }
  }

  /** In every run whose votes name the thread, a validator that a vote takes to a later round is backed: 2f+1
      validators have sent a prevote for that height and round. */
  lemma SkipIsBacked(cfg: Config, correct: set<Did>, trace: seq<System>, evs: seq<Event>, i: nat)
    requires IsRun(cfg, correct, trace, evs) && i < |evs| && NamesThread(cfg, evs, i + 1)
    requires evs[i].DeliverVote? && evs[i].n in trace[i].nodes && evs[i].n in trace[i + 1].nodes
    requires trace[i + 1].nodes[evs[i].n].cs.round > trace[i].nodes[evs[i].n].cs.round
    ensures |SentPrevoters(cfg, trace[i].votes, trace[i].nodes[evs[i].n].cs.height,
                           trace[i + 1].nodes[evs[i].n].cs.round)| >= 2 * cfg.f + 1
  {
    var n, ev := evs[i].n, evs[i];
    assert IsPossibleStep(cfg, correct, trace, evs, i);
    var s := trace[i].nodes[n];
    NodeAfter(cfg, correct, trace, evs, i, n);
    BufferAlways(cfg, correct, trace, evs, n, i);
    VoteRaisesRound(cfg, s, ev);
    ArrivedWereSent(cfg, s, ev.v, trace[i].votes);
    Quorums.SubsetCard(Prevoters(s, ev.v), SentPrevoters(cfg, trace[i].votes, s.cs.height, ev.v.round));
  }

  // ----- deadlines

  /** The deadline for the step the validator is in. */
  function Deadline(s: Node): Option<int> {
    match s.cs.step
    case StepPropose => s.timers.proposeAt
    case StepPrevote => s.timers.prevoteAt
    case StepPrecommit => s.timers.precommitAt
  }

  /** A running validator has a deadline for its step; one that is not running has none at all. */
  predicate Watched(s: Node) {
    if s.started then Deadline(s).Some? else s.timers == Timers(None, None, None)
  }

  /** The two steps that leave a running validator without a deadline: a start in the middle of a round, and 2f+1
      precommits for a block that it does not hold. */
  predicate Strands(cfg: Config, s: Node, ev: Event) {
    || (ev.StartUp? && !s.started && s.cs.step != StepPropose)
    || (&& ev.DeliverVote? && Counted(cfg, s, ev.v, ev.sigOk) && ev.v.vtype == Precommit
        && ev.v.round == s.cs.round && s.cs.step == StepPrecommit
        && ev.pick.count >= 2 * cfg.f + 1 && ev.pick.hash != NIL
        && !(s.proposal.Some? && s.proposal.value.block.Some?
             && s.proposal.value.block.value.blockHash == ev.pick.hash))
  }

  lemma StartWatched(cfg: Config, self: Did, s: Node, now: int)
    requires Watched(s)
    ensures Watched(Start(cfg, self, s, now).node) <==> s.started || s.cs.step == StepPropose
  {
    EnterProposeShape(cfg, self, s.(started := true));
  }

  lemma TimeoutWatched(cfg: Config, self: Did, s: Node, now: int)
    requires Watched(s)
    ensures Watched(TickPropose(cfg, self, s, now).node) && Watched(TickPrevote(cfg, self, s, now).node)
  {
  }

  lemma NextRoundWatched(cfg: Config, self: Did, s: Node, now: int)
    requires Watched(s)
    ensures Watched(TickPrecommit(cfg, self, s, now).node)
  {
    EnterProposeShape(cfg, self, s.(timers := s.timers.(precommitAt := None),
                                    cs := s.cs.(round := s.cs.round + 1, step := StepPropose)));
  }

  lemma LocalWatched(cfg: Config, s: Node, ev: Event)
    requires AtNode(ev) && !ev.DeliverVote? && Watched(s)
    ensures Watched(NodeEffect(cfg, s, ev).node) <==> !Strands(cfg, s, ev)
  {
    match ev {
      case StartUp(n, now) => StartWatched(cfg, n, s, now);
      case ProposeTimeout(n, now) => TimeoutWatched(cfg, n, s, now);
      case PrevoteTimeout(n, now) => TimeoutWatched(cfg, n, s, now);
      case PrecommitTimeout(n, now) => NextRoundWatched(cfg, n, s, now);
      case _ =>
    }
  }

  lemma CommitWatched(cfg: Config, self: Did, s: Node, b: Block, now: int)
    requires s.started
    ensures Watched(CommitBlock(cfg, self, s, b, now).node)
  {
    EnterProposeShape(cfg, self, Advance(cfg, SaveBlock(s, b, now), b, now));
  }

  lemma PrecommitWatched(cfg: Config, self: Did, s: Node, now: int, pick: Pick)
    requires Watched(s) && s.started
    ensures Watched(OnPrecommit(cfg, self, s, now, pick).node) <==>
            !(&& s.cs.step == StepPrecommit && pick.count >= 2 * cfg.f + 1 && pick.hash != NIL
              && !(s.proposal.Some? && s.proposal.value.block.Some?
                   && s.proposal.value.block.value.blockHash == pick.hash))
  {
    if s.proposal.Some? && s.proposal.value.block.Some? {
      CommitWatched(cfg, self, s.(timers := s.timers.(precommitAt := None)), s.proposal.value.block.value, now);
    }
  }

  lemma VoteWatched(cfg: Config, s: Node, ev: Event)
    requires ev.DeliverVote? && Watched(s)
    ensures Watched(NodeEffect(cfg, s, ev).node) <==> !Strands(cfg, s, ev)
  {
    if Buffers(cfg, s, ev) {
      SkipIff(cfg, ev.n, s, ev.v, ev.now, ev.pick);
      SkipStays(cfg, ev.n, BufferFutureVote(s, ev.v), ev.v.round, ev.now);
    } else if Counted(cfg, s, ev.v, ev.sigOk) && ev.v.round == s.cs.round && ev.v.vtype == Precommit {
      PrecommitWatched(cfg, ev.n, SaveVote(s, ev.v), ev.now, ev.pick);
    }
  }

  lemma SkipStays(cfg: Config, self: Did, s: Node, round: int, now: int)
    ensures CheckFutureRoundSkip(cfg, self, s, round, now).node.started == s.started
  {
    if |FutureVoters(s, round)| >= QuorumSize(cfg) {
      assert round in s.future;
      SaveVotesKeep(s, s.future[round]);
      var flushed := SaveVotes(s, s.future[round]);
      EnterProposeShape(cfg, self, flushed.(timers := DISARMED, future := flushed.future - {round},
                                            cs := flushed.cs.(round := round, step := StepPropose)));
    }
  }

  /** For every watched state and every event: the validator is still watched if and only if the step is not one of the
      two. */
  lemma WatchedIff(cfg: Config, s: Node, ev: Event)
    requires AtNode(ev) && Watched(s)
    ensures Watched(NodeEffect(cfg, s, ev).node) <==> !Strands(cfg, s, ev)
  {
    if ev.DeliverVote? {
      VoteWatched(cfg, s, ev);
    } else {
      LocalWatched(cfg, s, ev);
    }
  }

  /** No step up to i strands validator n. */
  ghost predicate NotStranded(cfg: Config, trace: seq<System>, evs: seq<Event>, n: Did, i: nat)
    requires i <= |evs| && i < |trace|
  {
    forall k :: 0 <= k < i && IsAt(evs[k], n) && n in trace[k].nodes ==> !Strands(cfg, trace[k].nodes[n], evs[k])
  }

  /** In every run without such a step, a correct validator that runs has a deadline for the step it is in, so that it
      cannot wait for ever for messages. */
  lemma {:induction false} WatchedAlways(cfg: Config, correct: set<Did>, trace: seq<System>, evs: seq<Event>, n: Did,
                                         i: nat)
    requires IsRun(cfg, correct, trace, evs) && n in correct && i < |trace| && NotStranded(cfg, trace, evs, n, i)
    ensures n in trace[i].nodes && Watched(trace[i].nodes[n])
  {
    if i > 0 {
      WatchedAlways(cfg, correct, trace, evs, n, i - 1);
      NodeAfter(cfg, correct, trace, evs, i - 1, n);
      if IsAt(evs[i - 1], n) {
        WatchedIff(cfg, trace[i - 1].nodes[n], evs[i - 1]);
      }
    }
  }

  /** Without a deadline for its step, no timeout moves the validator or makes it vote, at any time. */
  lemma StrandedWaits(cfg: Config, self: Did, s: Node, now: int)
    requires s.started && Deadline(s) == None
    ensures var e1 := TickPropose(cfg, self, s, now);
            var e2 := TickPrevote(cfg, self, e1.node, now);
            var e3 := TickPrecommit(cfg, self, e2.node, now);
            && e1.vote == None && e2.vote == None && e3.vote == None && e3.proposal == None
            && e3.node.cs == s.cs && Deadline(e3.node) == None
  {
  }
}
