/** One Tendermint validator as a value, and each handler as a function from a state to
    the next state and the messages it broadcasts. `TendermintBackend` runs these steps in place. */
module TendermintNode {
  import opened ThreadTypes

  datatype Step = StepPropose | StepPrevote | StepPrecommit

  datatype ConsensusState = ConsensusState(height: int, round: int, step: Step,
                                           lockedRound: int, lockedHash: Hash,
                                           validRound: int, validHash: Hash)

  /** What a height starts from. */
  function FreshState(height: int): ConsensusState {
    ConsensusState(height, 0, StepPropose, -1, NIL, -1, NIL)
  }

  datatype Config = Config(threadId: string, replicas: seq<Did>, f: nat, epochMs: int, hash: Content -> Hash)

  function BlockHashOf(cfg: Config, b: Block): Hash {
    cfg.hash(ContentOf(b))
  }

  function Validators(cfg: Config): set<Did> {
    set d | d in cfg.replicas
  }

  function QuorumSize(cfg: Config): nat {
    2 * cfg.f + 1
  }

  /** Primary key of `thread_votes`; a row maps it to the block hash voted for. */
  datatype VoteKey = VoteKey(threadId: string, height: int, round: int, vtype: VoteType, voter: Did)

  function KeyOf(v: Vote): VoteKey {
    VoteKey(v.threadId, v.height, v.round, v.vtype, v.voter)
  }

  /** Deadlines; `None` is disarmed. */
  datatype Timers = Timers(proposeAt: Option<int>, prevoteAt: Option<int>, precommitAt: Option<int>)

  const DISARMED := Timers(None, None, None)
  const TIMEOUT_MS := 500
  const MAX_PENDING_PER_BLOCK := 64
  const SHORT_HASH := 8

  /** `cs`, `votes`, `blocks` and `pending` are durable; the other fields are lost on restart. */
  datatype Node = Node(cs: ConsensusState, proposal: Option<Proposal>, future: map<int, seq<Vote>>,
                       timers: Timers, started: bool,
                       votes: map<VoteKey, Hash>, blocks: map<BlockKey, Block>, pending: seq<Entry>)

  const INIT_NODE := Node(FreshState(1), None, map[], DISARMED, false, map[], map[], [])

  /** A validator decided on `hash` at (height, round). */
  datatype Decision = Decision(node: Did, height: int, round: int, hash: Hash)

  /** The result of one step: the new state, and what was broadcast or decided. */
  datatype Effect = Effect(node: Node, vote: Option<Vote>, proposal: Option<Proposal>, decided: Option<Decision>)

  function Quiet(s: Node): Effect {
    Effect(s, None, None, None)
  }

  // ----- votes

  /** `INSERT OR IGNORE`: the first vote under a key stays. */
  function SaveVote(s: Node, v: Vote): Node {
    if KeyOf(v) in s.votes then s else s.(votes := s.votes[KeyOf(v) := v.blockHash])
  }

  function SaveVotes(s: Node, vs: seq<Vote>): Node
    decreases vs
  {
    if vs == [] then s else SaveVotes(SaveVote(s, vs[0]), vs[1..])
  }

  /** The voters whose row at (thread, height, round, type) is for `hash`. `GetVotes` selects by these
      columns only, so the voter of a row need not be a replica of the thread. */
  function StoreVoters(cfg: Config, s: Node, height: int, round: int, vtype: VoteType, hash: Hash): set<Did> {
    set k | k in s.votes && k == VoteKey(cfg.threadId, height, round, vtype, k.voter) && s.votes[k] == hash
         :: k.voter
  }

  function Tally(cfg: Config, s: Node, height: int, round: int, vtype: VoteType, hash: Hash): nat {
    |StoreVoters(cfg, s, height, round, vtype, hash)|
  }

  datatype Pick = Pick(hash: Hash, count: nat)

  /** A possible answer of `majority` on the stored votes: which of the best hashes it
      returns depends on the iteration order of a Go map. */
  ghost predicate IsMajority(cfg: Config, s: Node, height: int, round: int, vtype: VoteType, pick: Pick) {
    && pick.count == Tally(cfg, s, height, round, vtype, pick.hash)
    && (forall x :: Tally(cfg, s, height, round, vtype, x) <= pick.count)
    && (pick.count == 0 ==> pick.hash == NIL)
  }

  /** `sendVote`: sign at the current (height, round), persist, broadcast. */
  function SendVote(cfg: Config, self: Did, s: Node, vtype: VoteType, hash: Hash): Effect {
    var v := Vote(cfg.threadId, s.cs.height, s.cs.round, vtype, hash, self);
    Effect(SaveVote(s, v), Some(v), None, None)
  }

  // ----- proposing

  /** Go's `%` on a negative sum is negative and the index panics; here nobody is the proposer then. */
  predicate IsProposerAt(cfg: Config, did: Did, height: int, round: int) {
    |cfg.replicas| > 0 && height + round >= 0 && cfg.replicas[(height + round) % |cfg.replicas|] == did
  }

  /** `GetBlock`: only committed rows are visible. */
  function GetBlock(s: Node, threadId: string, height: int): Option<Block> {
    var key := BlockKey(threadId, height);
    if key in s.blocks && s.blocks[key].committedAt > 0 then Some(s.blocks[key]) else None
  }

  function ParentHash(cfg: Config, s: Node): Hash {
    if s.cs.height > 1 then
      match GetBlock(s, cfg.threadId, s.cs.height - 1)
      case Some(b) => b.blockHash
      case None => NIL
    else NIL
  }

  function PolRound(s: Node): int {
    if s.cs.validRound >= 0 && s.cs.validHash != NIL then s.cs.validRound else -1
  }

  function BuildBlock(cfg: Config, self: Did, s: Node, entries: seq<Entry>): Block {
    var b := Block(cfg.threadId, s.cs.height, s.cs.round, ParentHash(cfg, s), entries, self, "", NIL, 0);
    b.(blockHash := BlockHashOf(cfg, b))
  }

  function BuildProposal(cfg: Config, self: Did, s: Node, entries: seq<Entry>): Proposal {
    Proposal(cfg.threadId, s.cs.height, s.cs.round, PolRound(s), Some(BuildBlock(cfg, self, s, entries)), self)
  }

  function EnterPropose(cfg: Config, self: Did, s: Node): Effect {
    if !IsProposerAt(cfg, self, s.cs.height, s.cs.round) then
      Quiet(s)
    else
      var n := if |s.pending| < MAX_PENDING_PER_BLOCK then |s.pending| else MAX_PENDING_PER_BLOCK;
      var p := BuildProposal(cfg, self, s, s.pending[..n]);
      var s' := s.(pending := s.pending[n..]);
      if |p.block.value.blockHash| < SHORT_HASH then Quiet(s') else Effect(s', None, Some(p), None)
  }

  function ArmPropose(cfg: Config, e: Effect, now: int): Effect {
    e.(node := e.node.(timers := e.node.timers.(proposeAt := Some(now + cfg.epochMs))))
  }

  // ----- inbound messages

  predicate Accepts(cfg: Config, s: Node, p: Proposal, sigOk: bool) {
    && s.started
    && p.height == s.cs.height && p.round == s.cs.round
    && s.cs.step == StepPropose
    && IsProposerAt(cfg, p.proposerDid, p.height, p.round)
    && p.block.Some?
    && sigOk
  }

  predicate LockedOnDifferent(s: Node, hash: Hash) {
    s.cs.lockedRound >= 0 && s.cs.lockedHash != hash
  }

  function HandleProposal(cfg: Config, self: Did, s: Node, p: Proposal, sigOk: bool, now: int): Effect {
    if !Accepts(cfg, s, p, sigOk) then
      Quiet(s)
    else
      var hash := p.block.value.blockHash;
      var s1 := s.(proposal := Some(p));
      var e :=
        if LockedOnDifferent(s, hash) && p.polRound <= s.cs.lockedRound then
          SendVote(cfg, self, s1, Prevote, NIL)
        else if LockedOnDifferent(s, hash) then
          SendVote(cfg, self, s1.(cs := s1.cs.(lockedRound := -1, lockedHash := NIL)), Prevote, hash)
        else
          SendVote(cfg, self, s1, Prevote, hash);
      e.(node := e.node.(cs := e.node.cs.(step := StepPrevote),
                         timers := e.node.timers.(prevoteAt := Some(now + TIMEOUT_MS))))
  }

  /** `bufferFutureVote`: one buffered vote per (round, voter, type). */
  function BufferFutureVote(s: Node, v: Vote): Node {
    var buffered := if v.round in s.future then s.future[v.round] else [];
    if exists u :: u in buffered && u.voter == v.voter && u.vtype == v.vtype
    then s
    else s.(future := s.future[v.round := buffered + [v]])
  }

  function FutureVoters(s: Node, round: int): set<Did> {
    if round in s.future then set v | v in s.future[round] && v.vtype == Prevote :: v.voter else {}
  }

  function CheckFutureRoundSkip(cfg: Config, self: Did, s: Node, round: int, now: int): Effect {
    if |FutureVoters(s, round)| < QuorumSize(cfg) then
      Quiet(s)
    else
      var flushed := if round in s.future then SaveVotes(s, s.future[round]) else s;
      var s1 := flushed.(timers := DISARMED, future := flushed.future - {round},
                         cs := flushed.cs.(round := round, step := StepPropose));
      ArmPropose(cfg, EnterPropose(cfg, self, s1), now)
  }

  /** Fields lost when the process goes away. */
  function Restart(s: Node): Node {
    s.(proposal := None, future := map[], timers := DISARMED, started := false)
  }

  /** The block is saved as committed. */
  function SaveBlock(s: Node, b: Block, now: int): Node {
    s.(blocks := s.blocks[BlockKey(b.threadId, b.height) := Stored(b.(committedAt := now))])
  }

  /** The height above a committed block, with lock, valid value, proposal and buffer cleared. */
  function Advance(cfg: Config, s: Node, b: Block, now: int): Node {
    s.(cs := FreshState(b.height + 1), proposal := None, future := map[],
       timers := s.timers.(proposeAt := Some(now + cfg.epochMs)))
  }

  /** `commitBlock`. Logging the first eight characters of a shorter hash panics, after the
      block was saved and before the height advances. */
  function CommitBlock(cfg: Config, self: Did, s: Node, b: Block, now: int): Effect {
    var decided := Some(Decision(self, s.cs.height, s.cs.round, b.blockHash));
    if |b.blockHash| < SHORT_HASH then
      Effect(Restart(SaveBlock(s, b, now)), None, None, decided)
    else
      EnterPropose(cfg, self, Advance(cfg, SaveBlock(s, b, now), b, now)).(decided := decided)
  }

  predicate VoteCounts(cfg: Config, s: Node, v: Vote, sigOk: bool) {
    s.started && v.height == s.cs.height && v.voter in cfg.replicas && sigOk
  }

  /** The prevote arm of `handleVote`, once the vote is stored. */
  function OnPrevote(cfg: Config, self: Did, s: Node, now: int, pick: Pick): Effect {
    if s.cs.step != StepPrevote || pick.count < QuorumSize(cfg) then
      Quiet(s)
    else
      var e :=
        if pick.hash != NIL && s.proposal.Some? && s.proposal.value.block.Some?
           && s.proposal.value.block.value.blockHash == pick.hash then
          SendVote(cfg, self,
                   s.(cs := s.cs.(lockedRound := s.cs.round, lockedHash := pick.hash,
                                  validRound := s.cs.round, validHash := pick.hash)),
                   Precommit, pick.hash)
        else
          SendVote(cfg, self, s, Precommit, NIL);
      e.(node := e.node.(cs := e.node.cs.(step := StepPrecommit),
                         timers := e.node.timers.(prevoteAt := None, precommitAt := Some(now + TIMEOUT_MS))))
  }

  /** The precommit arm of `handleVote`, once the vote is stored. */
  function OnPrecommit(cfg: Config, self: Did, s: Node, now: int, pick: Pick): Effect {
    if s.cs.step != StepPrecommit || pick.count < QuorumSize(cfg) || pick.hash == NIL then
      Quiet(s)
    else
      var s1 := s.(timers := s.timers.(precommitAt := None));
      if s.proposal.Some? && s.proposal.value.block.Some? && s.proposal.value.block.value.blockHash == pick.hash
      then CommitBlock(cfg, self, s1, s.proposal.value.block.value, now)
      else Quiet(s1)
  }

  function HandleVote(cfg: Config, self: Did, s: Node, v: Vote, sigOk: bool, now: int, pick: Pick): Effect {
    if !VoteCounts(cfg, s, v, sigOk) then
      Quiet(s)
    else if v.round > s.cs.round then
      CheckFutureRoundSkip(cfg, self, BufferFutureVote(s, v), v.round, now)
    else if v.round < s.cs.round then
      Quiet(SaveVote(s, v))
    else
      match v.vtype
      case Prevote => OnPrevote(cfg, self, SaveVote(s, v), now, pick)
      case Precommit => OnPrecommit(cfg, self, SaveVote(s, v), now, pick)
      case Unspecified => Quiet(SaveVote(s, v))
  }

  // ----- start and timeouts

  function Start(cfg: Config, self: Did, s: Node, now: int): Effect {
    if s.started then Quiet(s) else ArmPropose(cfg, EnterPropose(cfg, self, s.(started := true)), now)
  }

  predicate Elapsed(at: Option<int>, now: int) {
    at.Some? && at.value <= now
  }

  function TickPropose(cfg: Config, self: Did, s: Node, now: int): Effect {
    if !s.started || !Elapsed(s.timers.proposeAt, now) then
      Quiet(s)
    else
      var s1 := s.(timers := s.timers.(proposeAt := None));
      if s.cs.step != StepPropose then
        Quiet(s1)
      else
        var e := SendVote(cfg, self, s1, Prevote, NIL);
        e.(node := e.node.(cs := e.node.cs.(step := StepPrevote),
                           timers := e.node.timers.(prevoteAt := Some(now + TIMEOUT_MS))))
  }

  function TickPrevote(cfg: Config, self: Did, s: Node, now: int): Effect {
    if !s.started || !Elapsed(s.timers.prevoteAt, now) then
      Quiet(s)
    else
      var s1 := s.(timers := s.timers.(prevoteAt := None));
      if s.cs.step != StepPrevote then
        Quiet(s1)
      else
        var e := SendVote(cfg, self, s1, Precommit, NIL);
        e.(node := e.node.(cs := e.node.cs.(step := StepPrecommit),
                           timers := e.node.timers.(precommitAt := Some(now + TIMEOUT_MS))))
  }

  function TickPrecommit(cfg: Config, self: Did, s: Node, now: int): Effect {
    if !s.started || !Elapsed(s.timers.precommitAt, now) then
      Quiet(s)
    else
      var s1 := s.(timers := s.timers.(precommitAt := None));
      if s.cs.step != StepPrecommit then
        Quiet(s1)
      else
        var s2 := s1.(cs := s1.cs.(round := s1.cs.round + 1, step := StepPropose));
        ArmPropose(cfg, EnterPropose(cfg, self, s2), now)
  }
}
