/** The Tendermint backend as it runs: one object whose methods update its fields in place.
    Each method is proved to do exactly the step of `TendermintNode` that it stands for. */
module TendermintBackend {
  import opened ThreadTypes
  import opened TendermintNode
  import Quorums

  // ----- counting votes

  function Count(votes: seq<Vote>, x: Hash): nat {
    if votes == [] then 0 else Count(votes[..|votes| - 1], x) + if votes[|votes| - 1].blockHash == x then 1 else 0
  }

  /** A best hash and its exact count; `majority` may return any of them. */
  ghost predicate IsBest(votes: seq<Vote>, best: Hash, max: nat) {
    && max == Count(votes, best)
    && (forall x :: Count(votes, x) <= max)
    && (max == 0 ==> best == NIL)
  }

  ghost predicate OnePerVoter(votes: seq<Vote>) {
    forall i, j :: 0 <= i < j < |votes| ==> votes[i].voter != votes[j].voter
  }

  function VotersFor(votes: seq<Vote>, x: Hash): set<Did> {
    set v | v in votes && v.blockHash == x :: v.voter
  }

  lemma CountSlice(votes: seq<Vote>, i: nat, x: Hash)
    requires i < |votes|
    ensures Count(votes[..i + 1], x) == Count(votes[..i], x) + if votes[i].blockHash == x then 1 else 0
  {
    assert votes[..i + 1][..i] == votes[..i];
  }

  /** `majority`: a counting loop, then a scan over a map in no particular order. */
  method Majority(votes: seq<Vote>) returns (best: Hash, max: nat)
    ensures IsBest(votes, best, max)
  {
    var counts: map<Hash, nat> := map[];
    for i := 0 to |votes|
      invariant forall x :: x in counts ==> counts[x] == Count(votes[..i], x) && counts[x] > 0
      invariant forall x :: x !in counts ==> Count(votes[..i], x) == 0
    {
      var x := votes[i].blockHash;
      forall y ensures Count(votes[..i + 1], y) == Count(votes[..i], y) + if votes[i].blockHash == y then 1 else 0 {
        CountSlice(votes, i, y);
      }
      counts := counts[x := (if x in counts then counts[x] else 0) + 1];
    }
    assert votes[..|votes|] == votes;
    best, max := NIL, 0;
    var rest := counts.Keys;
    while rest != {}
      invariant rest <= counts.Keys
      invariant forall x :: x in counts && x !in rest ==> counts[x] <= max
      invariant if max == 0 then best == NIL && rest == counts.Keys else best in counts && counts[best] == max
      decreases rest
    {
      var x :| x in rest;
      if counts[x] > max {
        best, max := x, counts[x];
      }
      rest := rest - {x};
    }
  }

  lemma VotersOfLast(init: seq<Vote>, last: Vote, x: Hash)
    ensures VotersFor(init + [last], x) == VotersFor(init, x) + if last.blockHash == x then {last.voter} else {}
  {
    var votes := init + [last];
    forall v | v in init ensures v in votes {
      var i :| 0 <= i < |init| && init[i] == v;
      assert votes[i] == v;
    }
    assert votes[|init|] == last;
  }

  lemma {:induction false} CountIsCard(votes: seq<Vote>, x: Hash)
    requires OnePerVoter(votes)
    ensures Count(votes, x) == |VotersFor(votes, x)|
  {
    if votes != [] {
      var init, last := votes[..|votes| - 1], votes[|votes| - 1];
      CountIsCard(init, x);
      assert votes == init + [last];
      VotersOfLast(init, last, x);
      assert last.voter !in VotersFor(init, x);
    }
  }

  /** The winner of a quorum does not depend on the iteration order: with one vote per voter from at most
      3f+1 validators, a hash with 2f+1 votes is the only best one. */
  lemma QuorumWinner(votes: seq<Vote>, validators: set<Did>, f: nat, x: Hash, best: Hash, max: nat)
    requires OnePerVoter(votes) && (forall v :: v in votes ==> v.voter in validators) && |validators| <= 3 * f + 1
    requires Count(votes, x) >= 2 * f + 1 && IsBest(votes, best, max)
    ensures best == x && max == Count(votes, x)
  {
    CountIsCard(votes, x);
    CountIsCard(votes, best);
    assert Count(votes, x) <= max;
    if best != x {
      var c := Quorums.CommonCorrect(validators, validators, VotersFor(votes, x), VotersFor(votes, best), f);
    }
  }

  lemma {:induction false} BestOf(cfg: Config, s: Node, h: int, r: int, t: VoteType, hashes: set<Hash>)
    returns (best: Hash)
    requires hashes != {}
    ensures best in hashes && forall x :: x in hashes ==> Tally(cfg, s, h, r, t, x) <= Tally(cfg, s, h, r, t, best)
    decreases hashes
  {
    var first :| first in hashes;
    var rest := hashes - {first};
    best := first;
    if rest != {} {
      var other := BestOf(cfg, s, h, r, t, rest);
      if Tally(cfg, s, h, r, t, other) > Tally(cfg, s, h, r, t, first) {
        best := other;
      }
    }
    forall x | x in hashes ensures Tally(cfg, s, h, r, t, x) <= Tally(cfg, s, h, r, t, best) {
      assert x == first || x in rest;
    }
  }

  /** `majority` always has an answer. */
  lemma SomeMajority(cfg: Config, s: Node, h: int, r: int, t: VoteType) returns (pick: Pick)
    ensures IsMajority(cfg, s, h, r, t, pick)
  {
    var hashes := s.votes.Values + {NIL};
    var best := BestOf(cfg, s, h, r, t, hashes);
    forall x ensures Tally(cfg, s, h, r, t, x) <= Tally(cfg, s, h, r, t, best) {
      if x !in hashes {
        assert StoreVoters(cfg, s, h, r, t, x) == {};
      }
    }
    pick := Pick(best, Tally(cfg, s, h, r, t, best));
    if pick.count == 0 {
      pick := Pick(NIL, 0);
      assert NIL in hashes;
    }
  }

  datatype Message = VoteMsg(v: Vote) | ProposalMsg(p: Proposal)

  /** What a step hands to the broadcast function. */
  function Messages(e: Effect): seq<Message> {
    (if e.vote.Some? then [VoteMsg(e.vote.value)] else []) +
    (if e.proposal.Some? then [ProposalMsg(e.proposal.value)] else [])
  }

  class Backend {
    const cfg: Config
    const self: Did
    var cs: ConsensusState
    var proposal: Option<Proposal>
    var future: map<int, seq<Vote>>
    var timers: Timers
    var started: bool
    var votes: map<VoteKey, Hash>
    var blocks: map<BlockKey, Block>
    var pending: seq<Entry>
    var broadcast: seq<Message>

    ghost function View(): Node
      reads this
    {
      Node(cs, proposal, future, timers, started, votes, blocks, pending)
    }

    /** `newTendermintBackend` over the tables of a store: `saved` is the persisted consensus state, if any. */
    constructor (cfg: Config, self: Did, saved: Option<ConsensusState>, votes: map<VoteKey, Hash>,
                 blocks: map<BlockKey, Block>, pending: seq<Entry>)
      ensures View() == Restart(Node(if saved.Some? then saved.value else FreshState(1),
                                     None, map[], DISARMED, false, votes, blocks, pending))
      ensures broadcast == [] && this.cfg == cfg && this.self == self
    {
      this.cfg, this.self := cfg, self;
      cs := if saved.Some? then saved.value else FreshState(1);
      proposal, future, timers, started := None, map[], DISARMED, false;
      this.votes, this.blocks, this.pending, broadcast := votes, blocks, pending, [];
    }

    /** An entry submitted to the thread waits in the store until a proposal takes it. */
    method Submit(entry: Entry)
      modifies `pending
      ensures View() == old(View()).(pending := old(pending) + [entry])
    {
      pending := pending + [entry];
    }

    method SaveVoteRow(v: Vote)
      modifies `votes
      ensures View() == SaveVote(old(View()), v)
    {
      if KeyOf(v) !in votes {
        votes := votes[KeyOf(v) := v.blockHash];
      }
    }

    method SaveBlockRow(b: Block, now: int)
      modifies `blocks
      ensures View() == SaveBlock(old(View()), b, now)
    {
      blocks := blocks[BlockKey(b.threadId, b.height) := Stored(b.(committedAt := now))];
    }

    /** `GetVotes`: the rows of one (height, round, type), in no particular order. */
    method GetVotes(height: int, round: int, vtype: VoteType) returns (rows: seq<Vote>)
      ensures OnePerVoter(rows)
      ensures forall v :: v in rows <==>
                v.threadId == cfg.threadId && v.height == height && v.round == round && v.vtype == vtype
                && KeyOf(v) in votes && votes[KeyOf(v)] == v.blockHash
      ensures forall x :: Count(rows, x) == Tally(cfg, View(), height, round, vtype, x)
    {
      rows := [];
      var rest := votes.Keys;
      while rest != {}
        invariant rest <= votes.Keys && OnePerVoter(rows)
        invariant forall v :: v in rows <==>
                    v.threadId == cfg.threadId && v.height == height && v.round == round && v.vtype == vtype
                    && KeyOf(v) in votes && KeyOf(v) !in rest && votes[KeyOf(v)] == v.blockHash
        decreases rest
      {
        var k :| k in rest;
        if k.threadId == cfg.threadId && k.height == height && k.round == round && k.vtype == vtype {
          rows := rows + [Vote(k.threadId, k.height, k.round, k.vtype, votes[k], k.voter)];
        }
        rest := rest - {k};
      }
      forall x ensures Count(rows, x) == Tally(cfg, View(), height, round, vtype, x) {
        CountIsCard(rows, x);
        RowsAreVoters(rows, height, round, vtype, x);
      }
    }

    lemma RowsAreVoters(rows: seq<Vote>, height: int, round: int, vtype: VoteType, x: Hash)
      requires forall v :: v in rows <==>
                 v.threadId == cfg.threadId && v.height == height && v.round == round && v.vtype == vtype
                 && KeyOf(v) in votes && votes[KeyOf(v)] == v.blockHash
      ensures VotersFor(rows, x) == StoreVoters(cfg, View(), height, round, vtype, x)
    {
      forall d | d in StoreVoters(cfg, View(), height, round, vtype, x) ensures d in VotersFor(rows, x) {
        assert Vote(cfg.threadId, height, round, vtype, x, d) in rows;
      }
    }

    method CastVote(vtype: VoteType, hash: Hash)
      modifies `votes, `broadcast
      ensures View() == SendVote(cfg, self, old(View()), vtype, hash).node
      ensures broadcast == old(broadcast) + Messages(SendVote(cfg, self, old(View()), vtype, hash))
    {
      var v := Vote(cfg.threadId, cs.height, cs.round, vtype, hash, self);
      SaveVoteRow(v);
      broadcast := broadcast + [VoteMsg(v)];
    }

    /** `enterPropose` with `buildProposal`: dequeue pending entries, hash the block, broadcast. */
    method Propose()
      modifies `pending, `broadcast
      ensures View() == EnterPropose(cfg, self, old(View())).node
      ensures broadcast == old(broadcast) + Messages(EnterPropose(cfg, self, old(View())))
    {
      if !IsProposerAt(cfg, self, cs.height, cs.round) {
        return;
      }
      var polRound := -1;
      if cs.validRound >= 0 && cs.validHash != NIL {
        polRound := cs.validRound;
      }
      var n := if |pending| < MAX_PENDING_PER_BLOCK then |pending| else MAX_PENDING_PER_BLOCK;
      var entries := pending[..n];
      pending := pending[n..];
      var parentHash := NIL;
      if cs.height > 1 {
        var key := BlockKey(cfg.threadId, cs.height - 1);
        if key in blocks && blocks[key].committedAt > 0 {
          parentHash := blocks[key].blockHash;
        }
      }
      var b := Block(cfg.threadId, cs.height, cs.round, parentHash, entries, self, "", NIL, 0);
      b := b.(blockHash := BlockHashOf(cfg, b));
      if |b.blockHash| < SHORT_HASH {
        return;
      }
      broadcast := broadcast + [ProposalMsg(Proposal(cfg.threadId, cs.height, cs.round, polRound, Some(b), self))];
    }

    method OnProposal(p: Proposal, sigOk: bool, now: int)
      modifies this
      ensures View() == HandleProposal(cfg, self, old(View()), p, sigOk, now).node
      ensures broadcast == old(broadcast) + Messages(HandleProposal(cfg, self, old(View()), p, sigOk, now))
    {
      if !started || p.height != cs.height || p.round != cs.round || cs.step != StepPropose
         || !IsProposerAt(cfg, p.proposerDid, p.height, p.round) || p.block.None? || !sigOk {
        return;
      }
      proposal := Some(p);
      var hash := p.block.value.blockHash;
      var lockedOnDifferent := cs.lockedRound >= 0 && cs.lockedHash != hash;
      var polcSupersedes := p.polRound > cs.lockedRound;
      if lockedOnDifferent && !polcSupersedes {
        CastVote(Prevote, NIL);
      } else {
        if lockedOnDifferent && polcSupersedes {
          cs := cs.(lockedRound := -1, lockedHash := NIL);
        }
        CastVote(Prevote, hash);
      }
      cs := cs.(step := StepPrevote);
      timers := timers.(prevoteAt := Some(now + TIMEOUT_MS));
    }

    method BufferVote(v: Vote)
      modifies `future
      ensures View() == BufferFutureVote(old(View()), v)
    {
      var buffered := if v.round in future then future[v.round] else [];
      for i := 0 to |buffered|
        invariant forall u :: u in buffered[..i] ==> u.voter != v.voter || u.vtype != v.vtype
      {
        if buffered[i].voter == v.voter && buffered[i].vtype == v.vtype {
          return;
        }
      }
      assert buffered[..|buffered|] == buffered;
      future := future[v.round := buffered + [v]];
    }

    /** The distinct voters of buffered prevotes. */
    method CountPrevoters(buffered: seq<Vote>) returns (seen: set<Did>)
      ensures seen == set v | v in buffered && v.vtype == Prevote :: v.voter
    {
      seen := {};
      for i := 0 to |buffered|
        invariant seen == set v | v in buffered[..i] && v.vtype == Prevote :: v.voter
      {
        assert buffered[..i + 1] == buffered[..i] + [buffered[i]];
        if buffered[i].vtype == Prevote {
          seen := seen + {buffered[i].voter};
        }
      }
      assert buffered[..|buffered|] == buffered;
    }

    method FlushVotes(buffered: seq<Vote>)
      modifies `votes
      ensures View() == SaveVotes(old(View()), buffered)
    {
      for i := 0 to |buffered|
        invariant SaveVotes(View(), buffered[i..]) == SaveVotes(old(View()), buffered)
      {
        assert buffered[i..][0] == buffered[i] && buffered[i..][1..] == buffered[i + 1..];
        SaveVoteRow(buffered[i]);
      }
    }

    /** The round change of a skip: timers off, the buffer of that round dropped, then a new propose step. */
    method EnterRound(round: int, now: int)
      modifies this
      ensures var s := old(View());
              var s1 := s.(timers := DISARMED, future := s.future - {round},
                           cs := s.cs.(round := round, step := StepPropose));
              var e := ArmPropose(cfg, EnterPropose(cfg, self, s1), now);
              View() == e.node && broadcast == old(broadcast) + Messages(e)
    {
      timers := DISARMED;
      future := future - {round};
      cs := cs.(round := round, step := StepPropose);
      Propose();
      timers := timers.(proposeAt := Some(now + cfg.epochMs));
    }

    method SkipToRound(round: int, now: int)
      modifies this
      ensures View() == CheckFutureRoundSkip(cfg, self, old(View()), round, now).node
      ensures broadcast == old(broadcast) + Messages(CheckFutureRoundSkip(cfg, self, old(View()), round, now))
    {
      var buffered := if round in future then future[round] else [];
      var seen := CountPrevoters(buffered);
      assert seen == FutureVoters(View(), round);
      if |seen| < QuorumSize(cfg) {
        return;
      }
      assert round in future;
      FlushVotes(buffered);
      EnterRound(round, now);
    }

    method Commit(b: Block, now: int)
      modifies this
      ensures View() == CommitBlock(cfg, self, old(View()), b, now).node
      ensures broadcast == old(broadcast) + Messages(CommitBlock(cfg, self, old(View()), b, now))
    {
      SaveBlockRow(b, now);
      if |b.blockHash| < SHORT_HASH {
        proposal, future, timers, started := None, map[], DISARMED, false;
        return;
      }
      cs := FreshState(b.height + 1);
      proposal := None;
      future := map[];
      timers := timers.(proposeAt := Some(now + cfg.epochMs));
      assert View() == Advance(cfg, SaveBlock(old(View()), b, now), b, now);
      Propose();
    }

    /** `handleVote`; `pick` is what `majority` answered, or would have been a possible answer where it is not asked. */
    method OnVote(v: Vote, sigOk: bool, now: int) returns (ghost pick: Pick)
      modifies this
      ensures IsMajority(cfg, SaveVote(old(View()), v), v.height, v.round, v.vtype, pick)
      ensures View() == HandleVote(cfg, self, old(View()), v, sigOk, now, pick).node
      ensures broadcast == old(broadcast) + Messages(HandleVote(cfg, self, old(View()), v, sigOk, now, pick))
    {
      pick := SomeMajority(cfg, SaveVote(View(), v), v.height, v.round, v.vtype);
      if !started || v.height != cs.height || v.voter !in cfg.replicas || !sigOk {
        return;
      }
      if v.round > cs.round {
        BufferVote(v);
        SkipToRound(v.round, now);
        return;
      }
      SaveVoteRow(v);
      if v.round < cs.round || v.vtype == Unspecified {
        return;
      }
      pick := CountVote(v, now);
    }

    /** The vote is stored and of the current round: count, then act on the winner. */
    method CountVote(v: Vote, now: int) returns (ghost pick: Pick)
      requires v.vtype != Unspecified
      modifies this
      ensures IsMajority(cfg, old(View()), v.height, v.round, v.vtype, pick)
      ensures var s := old(View());
              var e := if v.vtype == Prevote then OnPrevote(cfg, self, s, now, pick)
                       else OnPrecommit(cfg, self, s, now, pick);
              View() == e.node && broadcast == old(broadcast) + Messages(e)
    {
      var rows := GetVotes(v.height, v.round, v.vtype);
      var hash, count := Majority(rows);
      pick := Pick(hash, count);
      if v.vtype == Prevote {
        AfterPrevote(now, hash, count);
      } else {
        AfterPrecommit(now, hash, count);
      }
    }

    method AfterPrevote(now: int, hash: Hash, count: nat)
      modifies this
      ensures View() == OnPrevote(cfg, self, old(View()), now, Pick(hash, count)).node
      ensures broadcast == old(broadcast) + Messages(OnPrevote(cfg, self, old(View()), now, Pick(hash, count)))
    {
      if cs.step != StepPrevote || count < QuorumSize(cfg) {
        return;
      }
      timers := timers.(prevoteAt := None);
      if hash != NIL && proposal.Some? && proposal.value.block.Some? && proposal.value.block.value.blockHash == hash {
        cs := cs.(lockedRound := cs.round, lockedHash := hash, validRound := cs.round, validHash := hash);
        CastVote(Precommit, hash);
      } else {
        CastVote(Precommit, NIL);
      }
      cs := cs.(step := StepPrecommit);
      timers := timers.(precommitAt := Some(now + TIMEOUT_MS));
    }

    method AfterPrecommit(now: int, hash: Hash, count: nat)
      modifies this
      ensures View() == OnPrecommit(cfg, self, old(View()), now, Pick(hash, count)).node
      ensures broadcast == old(broadcast) + Messages(OnPrecommit(cfg, self, old(View()), now, Pick(hash, count)))
    {
      if cs.step != StepPrecommit || count < QuorumSize(cfg) || hash == NIL {
        return;
      }
      timers := timers.(precommitAt := None);
      if proposal.Some? && proposal.value.block.Some? && proposal.value.block.value.blockHash == hash {
        Commit(proposal.value.block.value, now);
      }
    }

    /** The first `Pump`. */
    method Begin(now: int)
      modifies this
      ensures View() == Start(cfg, self, old(View()), now).node
      ensures broadcast == old(broadcast) + Messages(Start(cfg, self, old(View()), now))
    {
      if !started {
        started := true;
        Propose();
        timers := timers.(proposeAt := Some(now + cfg.epochMs));
      }
    }

    /** `Tick`: the three timeouts in turn, and no more than one of them moves the step. */
    method Tick(now: int)
      modifies this
      ensures var e1 := TickPropose(cfg, self, old(View()), now);
              var e2 := TickPrevote(cfg, self, e1.node, now);
              var e3 := TickPrecommit(cfg, self, e2.node, now);
              View() == e3.node && broadcast == old(broadcast) + Messages(e1) + Messages(e2) + Messages(e3)
    {
      if !started {
        return;
      }
      FirePropose(now);
      FirePrevote(now);
      FirePrecommit(now);
    }

    method FirePropose(now: int)
      requires started
      modifies this
      ensures View() == TickPropose(cfg, self, old(View()), now).node
      ensures broadcast == old(broadcast) + Messages(TickPropose(cfg, self, old(View()), now))
      ensures started
    {
      if Elapsed(timers.proposeAt, now) {
        timers := timers.(proposeAt := None);
        if cs.step == StepPropose {
          CastVote(Prevote, NIL);
          cs := cs.(step := StepPrevote);
          timers := timers.(prevoteAt := Some(now + TIMEOUT_MS));
        }
      }
    }

    method FirePrevote(now: int)
      requires started
      modifies this
      ensures View() == TickPrevote(cfg, self, old(View()), now).node
      ensures broadcast == old(broadcast) + Messages(TickPrevote(cfg, self, old(View()), now))
      ensures started
    {
      if Elapsed(timers.prevoteAt, now) {
        timers := timers.(prevoteAt := None);
        if cs.step == StepPrevote {
          CastVote(Precommit, NIL);
          cs := cs.(step := StepPrecommit);
          timers := timers.(precommitAt := Some(now + TIMEOUT_MS));
        }
      }
    }

    method FirePrecommit(now: int)
      requires started
      modifies this
      ensures View() == TickPrecommit(cfg, self, old(View()), now).node
      ensures broadcast == old(broadcast) + Messages(TickPrecommit(cfg, self, old(View()), now))
    {
      if Elapsed(timers.precommitAt, now) {
        timers := timers.(precommitAt := None);
        if cs.step == StepPrecommit {
          cs := cs.(round := cs.round + 1, step := StepPropose);
          Propose();
          timers := timers.(proposeAt := Some(now + cfg.epochMs));
        }
      }
    }
  }

  /** One call of `Tick` moves (round, step) at most once: a deadline it arms lies ahead of it. */
  lemma TickMovesOnce(cfg: Config, self: Did, s: Node, now: int)
    ensures var e1 := TickPropose(cfg, self, s, now);
            var e2 := TickPrevote(cfg, self, e1.node, now);
            var e3 := TickPrecommit(cfg, self, e2.node, now);
            || (e1.node.cs == s.cs && e2.node.cs == s.cs)
            || (e1.node.cs == s.cs && e3.node.cs == e2.node.cs)
            || (e2.node.cs == e1.node.cs && e3.node.cs == e1.node.cs)
  {
  }
}
