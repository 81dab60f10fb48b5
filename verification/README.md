# MoltMesh: verified models

Dafny models of the parts of the MoltMesh daemon that have to be right over whole runs, and proofs about them:

- **Threads under Tendermint** (`Quorums`, `TendermintNode`, `TendermintShapes`, `TendermintSystem`,
  `TendermintOutcomes`, `TendermintFlow`, `TendermintSafety`, `TendermintAgreement`, `TendermintRuns`,
  `TendermintExamples`, `TendermintDisagreement`, `TendermintBackend`, `TendermintMember`, `TendermintHash`,
  `BlockHash`): each validator holds a height, round, step,
  lock and valid value, a vote store, the current proposal, votes buffered for later rounds and three deadlines.
  `TendermintNode` gives the handlers as functions of that state, `TendermintBackend` the same handlers as methods of
  an object that updates its fields, proved equal step by step; `TendermintMember` shows that whatever is done with
  such an object is part of a run. `TendermintSystem` puts any number of validators together with the set of all
  messages ever sent; messages may be lost, repeated, delayed and reordered, validators crash and restart, up to f of
  them send whatever votes they like, and other threads of a daemon write vote rows and block rows into the store
  that all its threads share.
- **The hash chain** (`Chain`): the forward verifier, and the backward walk from a published head over arbitrary
  lookups.
- **The write-ahead queue under Raft** (`PendingQueue`, `RaftReplica`, `RaftOutcomes`): claim, release, propose, and the
  transaction that appends a block and acknowledges its rows.
- **Tasks** (`Tasks`, `TaskRuns`, `TaskOutcomes`, `TaskDelivery`, `TaskLedger`, `TaskFeed`): the status machine, leases
  with tokens, retry budget, deadlines, requeueing, and the delivery log that workers read by cursor.
- **The outbox** (`Outbox`, `OutboxRuns`, `OutboxOutcomes`, `OutboxMailbox`): durable outgoing messages, retries, and reopening after a
  crash.
- **Encodings** (`Text`, `HeaderCodec`, `Base64Url`, `RecoveryHandle`): the signed entry header, the block hash
  text, and the printed recovery handle.

`dafny verify dfyconfig.toml` checks everything.

## How to read it

A *run* is a sequence of states from the initial one, each the result of one enabled event; theorems about runs
quantify over all of them. Database tables are maps, and time, fresh tokens, signature results, delivery results and
database faults are parameters of the events. In the task and outbox models every SQL statement or transaction is a
step of its own, and other steps may come in between; in the Tendermint model a handler is one step.

The modules named `…Outcomes` say what each operation answers and does, in terms of the state and the input alone:
when it acts, as an if-and-only-if, and what it then stores and sends, with the constants written out.

Hypotheses of the Tendermint theorems, all of them explicit:

- `FaultBound`: the replica list has at most 3f+1 distinct entries and at most f of them are faulty. The quorum is
  the constant 2f+1, and `QuorumsMeetIff` shows that this bound is exactly what it needs. Thread creation
  (`daemon/thread/manager.go:149-160`) only asks for *at least* 3f+1 replicas; `TooManyValidators` is a run of two
  validators with f = 0 that meets every other hypothesis and disagrees.
- A vote of the thread that verifies and names a correct validator was sent by it. A step is atomic with its
  persistence.
- `OwnVotes`: a vote row that another thread of a daemon writes under this thread's id is a vote sent by a validator of
  this thread. One store serves all threads of a daemon (`cmd/moltmesh/daemon.go:333`), `handleVote` files a vote under
  the thread the vote names (`daemon/thread/tendermint.go:343-371`), and `GetVotes` counts every row of a thread, so
  nothing in the code enforces this; the missing guard is a comparison of the vote's thread with the own one.
  `ForeignVoteIff` shows for every state and row that the condition is exact: the rows stay votes of validators if and
  only if it holds or the row is a duplicate. `ForeignVotesBreakAgreement` is a run of four correct validators that
  meets every other hypothesis, in which votes of strangers to the thread make two of them decide differently.
- Only for claims across rounds, `GoodRun`: every proposal, also of a faulty proposer, is one that `buildProposal`
  could have built (`Justified`), no other thread of a daemon writes a block row under this thread's id, and the block
  hash has no collision among the blocks proposed in the run. `commitBlock` saves a block under the thread the block
  names (`daemon/thread/tendermint.go:528`), so the code does not enforce the second either: `ForeignBlockBreaksChain`
  is such a row after a good run, and `OverwriteIff` says exactly which rows leave a verified chain verified.
  `ConcreteRunIsGood` reduces the last part to SHA-256 digests and JSON encodings of that run.
  `HonestRunDecides` shows that the hypotheses can be met by a run that decides a block.

What turned out not to hold in general is stated with the exact condition:

- `commitBlock` takes the next height from the block, and `handleProposal` compares heights with the proposal and
  not with the block inside. A block of a lower height takes the validator back (`LowBlockGoesBack`), and then it
  prevotes twice in one round (`PrevotesTwiceAfterGoingBack`). In these runs one replica of four is faulty and
  proposes such a block, under its own signature, when it is its turn. `PositionIff` says for every state and input that the position goes back exactly when
  such a block is committed, and `HighBlocksGoForward` that it never does if accepted proposals hold blocks of at
  least their own height. Safety within a round survives even that (`SameRoundSafety`).
- A running validator has a deadline for the step it is in, so that it does not wait for ever for messages, except
  after two kinds of step: a start in the middle of a round, which arms only the propose deadline, and 2f+1 precommits
  for a block that it does not hold, which disarm the precommit deadline. `WatchedIff` says for every state and event
  that it loses its deadline exactly then, `WatchedAlways` that otherwise it never does, `StrandedWaits` that no timeout
  moves it afterwards, and `RestartStrands` is a run that ends so.
- Votes buffered for a later round are not compared with the thread either: `ElsewhereSkips` is a run in which prevotes
  that name another thread take a validator to round 5. In runs whose votes name the thread, a skip is backed by 2f+1
  sent prevotes (`SkipIsBacked`).
- `SetMaxAttempts` is documented as a setting made before work is claimed, but nothing enforces it
  (`BudgetMovesMeasure`, `RaisedBudgetLeasesAgain`); the bounds on leases hold while the budget is left alone.
- The table of blocks keeps five fields of an entry, while the Raft hash covers all of them
  (`StoredBlockVerifiesIff`).
- A walk from a head of height 0 succeeds with no blocks, which the forward verifier rejects (`WalkRefinesVerify`).
- A recovery handle whose thread ID holds a colon prints but does not parse (`RecoveryHandle.RoundTripIff`).
- Header fields of 2^32 bytes or more do not survive the 32-bit length (`DecodeEncodeIff`).
- The block hash text is ambiguous for parent hashes with colons (`ColonInParentIsAmbiguous`), which no verified
  chain has (`VerifiedParents`).

The comments in `daemon/thread/tendermint.go` say that a proposer re-proposes its valid value. `buildProposal` sets
the proof-of-lock round but always builds a block from new entries; the model follows the code.

## Model

| member | source | states |
|---|---|---|
| Quorums.QuorumsMeetIff | daemon/thread/manager.go:149-160 | any two sets of 2f+1 validators share one outside every faulty set of f, if and only if there are at most 3f+1 distinct validators |
| Quorums.CommonCorrect | daemon/thread/tendermint.go:593-597 | two quorums among at most 3f+1 validators have a correct validator in common, which the lemma returns |
| Quorums.CorrectInQuorum | daemon/thread/tendermint.go:593-597 | a quorum holds at least f+1 correct validators |
| TendermintBackend.Majority | daemon/thread/tendermint.go:750-762 | for every order of the counting map: a hash with the most votes and its exact count, nil only if there are no votes |
| TendermintBackend.CountIsCard | daemon/thread/store.go:87-97 | with one row per voter, the count of a hash is the number of distinct voters for it |
| TendermintBackend.QuorumWinner | daemon/thread/tendermint.go:750-762 | with one vote per voter from at most 3f+1 validators, a hash with 2f+1 votes is the only answer `majority` can give, in every iteration order |
| TendermintBackend.Backend.constructor | daemon/thread/tendermint.go:71-99 | over the tables of a store: the persisted consensus state, or height 1 if there is none, with everything that is not persisted at its start value |
| TendermintBackend.Backend.Submit | daemon/thread/store_pending.go:13-24 | the entry waits behind those already pending |
| TendermintBackend.SomeMajority | daemon/thread/tendermint.go:750-762 | the counting always has an answer, whatever is stored |
| TendermintBackend.Backend.CountVote | daemon/thread/tendermint.go:381-459 | counts the stored votes of the slot and runs the arm of the vote's type on the winner, equal to the model step |
| TendermintBackend.Backend.SaveVoteRow | daemon/thread/store_consensus.go:17-26 | the first vote of a voter for a (height, round, type) stays; a second is ignored |
| TendermintBackend.Backend.GetVotes | daemon/thread/store_consensus.go:29-51 | returns exactly the rows of the thread's (height, round, type), one per voter, whoever the voter is |
| TendermintBackend.Backend.RowsAreVoters | daemon/thread/store_consensus.go:29-51 | counting the returned rows for a hash is counting the stored voters for it, validators or not |
| TendermintBackend.Backend.SaveBlockRow | daemon/thread/store_blocks.go:11-26 | the row of the thread and height that the block names is replaced |
| TendermintBackend.Backend.CastVote | daemon/thread/tendermint.go:665-684 | stores and broadcasts the vote, as the model step does |
| TendermintBackend.Backend.Propose | daemon/thread/tendermint.go:246-272 | equal to the model step, of which `EnterProposeOutcome` says what it takes from the queue and broadcasts |
| TendermintBackend.Backend.OnProposal | daemon/thread/tendermint.go:274-335 | the guards, the lock rule with the proof-of-lock round, the prevote and the new deadline, equal to the model step |
| TendermintBackend.Backend.BufferVote | daemon/thread/tendermint.go:510-519 | one buffered vote per (round, voter, type) |
| TendermintBackend.Backend.CountPrevoters | daemon/thread/tendermint.go:466-486 | the loop collects exactly the distinct prevoters among the buffered votes |
| TendermintBackend.Backend.FlushVotes | daemon/thread/tendermint.go:487-493 | the loop stores all buffered votes in order |
| TendermintBackend.Backend.EnterRound | daemon/thread/tendermint.go:487-503 | clears the deadlines and the buffer of the round and starts its propose step |
| TendermintBackend.Backend.SkipToRound | daemon/thread/tendermint.go:466-504 | equal to the model step, of which `SkipIff` says that it moves exactly on 2f+1 distinct prevoters |
| TendermintBackend.Backend.Commit | daemon/thread/tendermint.go:521-569 | saves the block as committed, then starts the height above it with lock, valid value, proposal and buffer cleared |
| TendermintBackend.Backend.OnVote | daemon/thread/tendermint.go:337-460 | the whole vote handler equals the model step, for an answer that the counting can give on the votes then stored |
| TendermintBackend.Backend.AfterPrevote | daemon/thread/tendermint.go:381-422 | the prevote arm: lock and precommit the held block on 2f+1 prevotes, else precommit nil |
| TendermintBackend.Backend.AfterPrecommit | daemon/thread/tendermint.go:424-459 | the precommit arm: commit the held block on 2f+1 precommits for it |
| TendermintBackend.Backend.Begin | daemon/thread/tendermint.go:121-144 | the first pump starts the propose step once |
| TendermintBackend.Backend.Tick | daemon/thread/tendermint.go:163-218 | the three timeouts in turn, equal to the composition of the three model steps |
| TendermintBackend.TickMovesOnce | daemon/thread/tendermint.go:163-218 | of the three timeouts in one call at most one changes the consensus state |
| TendermintMember.Member.constructor | daemon/thread/tendermint.go:71-99 | a new object is at the start of a run |
| TendermintMember.Member.StartUp | daemon/thread/tendermint.go:121-144 | the call extends the run by its event, and the object is in the state the run has it in |
| TendermintMember.Member.DeliverProposal | daemon/thread/tendermint.go:274-335 | likewise |
| TendermintMember.Member.DeliverVote | daemon/thread/tendermint.go:337-460 | likewise, for a vote that was sent if it verifies and names the thread |
| TendermintMember.Member.Tick | daemon/thread/tendermint.go:163-218 | likewise, by three events |
| TendermintMember.Member.Submit | daemon/thread/store_pending.go:13-24 | likewise |
| TendermintMember.Member.Crash | daemon/thread/store_consensus.go:223-236 | a new object over the store of the old one continues the run |
| TendermintMember.Member.ForeignVote | daemon/thread/tendermint.go:343-371 | likewise, for any vote that another thread of the daemon stores, also one of a stranger to the thread |
| TendermintMember.Member.ForeignBlock | daemon/thread/store_blocks.go:11-26 | likewise, for any block that another thread of the daemon saves |
| TendermintMember.Member.Others | daemon/thread/tendermint.go:147-159 | any step of another validator and any message of a faulty one leaves the object where the run has it |
| TendermintMember.Member.ChainAgrees | daemon/thread/tendermint.go:274-569 | after any calls and foreign rows whatever, if the run is good: the object's committed chain passes `VerifyChain`, and it and that of any correct validator at any moment are prefixes one of the other |
| TendermintShapes.HandleProposalShape | daemon/thread/tendermint.go:274-335 | an accepted proposal leads to one prevote under the lock rule and to nothing else; a refused one changes nothing |
| TendermintShapes.HandleVoteShape | daemon/thread/tendermint.go:337-460 | a vote leads to at most one precommit, round change or commit, each with the stored quorum that allows it |
| TendermintShapes.SkipShape | daemon/thread/tendermint.go:466-504 | a round skip only adds buffered votes to the store and only moves the round up |
| TendermintShapes.CommitBlockShape | daemon/thread/tendermint.go:521-569 | a commit only adds the block's row and resets the state to the height above the block |
| TendermintOutcomes.ProposersTakeTurns | daemon/thread/tendermint.go:573-583 | the replicas propose in the order of the list, round after round; a height counts like a round |
| TendermintOutcomes.EnterProposeOutcome | daemon/thread/tendermint.go:246-272 | only the proposer proposes; its block holds the oldest waiting entries, 64 at most, in order, and the rest goes on waiting; height, round, parent, proposer, hash and proof-of-lock round are those of its state |
| TendermintOutcomes.ProposalContents | daemon/thread/tendermint.go:599-663 | the same of every proposal that any event makes a validator broadcast; without a proposal all entries go on waiting, unless a block hash had fewer than eight characters |
| TendermintOutcomes.ProposalOutcome | daemon/thread/tendermint.go:274-335 | a prevote is sent if and only if the proposal is for the current position, from whose turn it is, signed, with a block, and awaited; then the lock rule, the stored row and the deadline; otherwise nothing changes |
| TendermintOutcomes.OldVoteOutcome | daemon/thread/tendermint.go:343-371 | a vote of another height, from no replica or badly signed changes nothing; one of an earlier round is only stored |
| TendermintOutcomes.PrevoteOutcome | daemon/thread/tendermint.go:381-422 | a precommit follows if and only if prevotes are awaited and some hash has 2f+1 of them: for the held block, with the lock on it, or nil |
| TendermintOutcomes.PrecommitOutcome | daemon/thread/tendermint.go:424-459 | a decision follows if and only if precommits are awaited and the held block is the answer with 2f+1 of them; otherwise state and blocks stay |
| TendermintOutcomes.SkipIff | daemon/thread/tendermint.go:466-519 | a vote of a later round moves the validator to that round if and only if 2f+1 distinct voters have a prevote of it among the buffered votes and this one; then the buffered votes are stored or their keys were taken; otherwise the vote is buffered |
| TendermintOutcomes.TimeoutIff | daemon/thread/tendermint.go:163-199 | the propose and prevote timeouts act if and only if their deadline has come in their step, with a nil vote and the next deadline |
| TendermintOutcomes.NextRoundIff | daemon/thread/tendermint.go:201-218 | the precommit timeout moves to the next round if and only if its deadline has come in its step |
| TendermintFlow.EntriesInOrder | daemon/thread/tendermint.go:599-643 | in every run, the entries submitted to a validator are those it has proposed, in the same order, followed by those that wait |
| TendermintFlow.SkipIsBacked | daemon/thread/tendermint.go:466-504 | in every run whose votes name the thread, a validator that a vote takes to a later round has 2f+1 validators with sent prevotes for that round behind it |
| TendermintFlow.WatchedIff | daemon/thread/tendermint.go:121-218 | for every state and event, a validator with a deadline for its step still has one unless it starts in the middle of a round or sees 2f+1 precommits for a block it does not hold, and exactly then |
| TendermintFlow.WatchedAlways | daemon/thread/tendermint.go:121-218 | in every run without such a step, a running validator has a deadline for its step at every moment |
| TendermintFlow.StrandedWaits | daemon/thread/tendermint.go:163-218 | without a deadline for its step no timeout moves a validator, at any time |
| TendermintSystem.KindOf | daemon/thread/tendermint.go:147-218 | every event at a correct validator is one of the step shapes, fed in this thread only by votes that were sent |
| TendermintSystem.TraceIff | daemon/thread/tendermint.go:343-371 | the runs of the theorems are exactly the runs of the code in which every foreign vote row of the thread is a vote sent by a validator |
| TendermintSystem.ForeignVoteIff | daemon/thread/tendermint.go:343-371 | for every state and foreign vote: stored rows remain votes sent by validators if and only if the vote is one or its key is taken |
| TendermintSafety.SafeAlways | daemon/thread/tendermint.go:337-460 | in every run whose foreign vote rows are votes of validators, with arbitrary foreign block rows: every precommit for a block has 2f+1 prevotes in its sender's store, every decision has 2f+1 sent precommits, and locks are backed |
| TendermintSafety.OnePrecommitQuorum | daemon/thread/tendermint.go:381-459 | two quorums of precommits at one (height, round) are for one block, for arbitrary proposals |
| TendermintSafety.SameRoundSafety | daemon/thread/tendermint.go:381-459 | in every such run with up to f arbitrary voters and arbitrary proposals, no two correct validators decide differently at one (height, round) |
| TendermintSafety.LockDiscipline | daemon/thread/tendermint.go:394-421 | in every such run, a lock equals the valid value, its round is reached, and the validator's own store holds 2f+1 prevotes for it |
| TendermintSafety.PositionIff | daemon/thread/tendermint.go:542-552 | for every state and input, (height, round, step) does not go back if and only if the step does not commit a block of a lower height |
| TendermintSafety.PositionForward | daemon/thread/tendermint.go:163-218 | in every run without such a commit, (height, round, step) never goes back between any two moments |
| TendermintSafety.OneVotePerSlot | daemon/thread/tendermint.go:299-334 | in such runs a correct validator sends at most one prevote and one precommit per (height, round) |
| TendermintSafety.OnePrevoteQuorum | daemon/thread/tendermint.go:381-422 | in such runs no two hashes both reach 2f+1 prevotes at one (height, round) |
| TendermintSafety.HighBlocksGoForward | daemon/thread/tendermint.go:299-334 | for arbitrary proposals: if every accepted proposal holds a block of at least its own height, the run contains no such commit |
| TendermintRuns.Decide | daemon/thread/tendermint.go:381-459 | in any run, a validator whose store holds 2f other votes of each type for a proposal decides it in three steps |
| TendermintRuns.LocksOn | daemon/thread/tendermint.go:381-422 | in any run, the prevote that completes 2f+1 for the held proposal makes the validator lock and precommit it |
| TendermintRuns.CommitsOn | daemon/thread/tendermint.go:424-459 | in any run, the precommit that completes 2f+1 makes it decide and work on the height above the block |
| TendermintExamples.HonestRunDecides | daemon/thread/tendermint.go:521-569 | the hypotheses of the agreement theorems are met by a run that decides a block |
| TendermintExamples.RestartStrands | daemon/thread/tendermint.go:121-144 | a run with honest proposals that ends with a running validator that has no deadline for its step |
| TendermintExamples.ElsewhereSkips | daemon/thread/tendermint.go:343-364 | a run in which a vote that names another thread takes a validator to round 5, although nobody has sent a vote in this thread |
| TendermintExamples.ForeignBlockBreaksChain | daemon/thread/tendermint.go:521-530 | a good run and one block row that another thread writes after it: the committed chain no longer verifies |
| TendermintExamples.LowBlockGoesBack | daemon/thread/tendermint.go:542-552 | a run of four replicas with real signatures in which the faulty one proposes a block of height 0 and a correct one goes from (1, 0, precommit) back to (1, 0, propose) |
| TendermintExamples.PrevotesTwiceAfterGoingBack | daemon/thread/tendermint.go:299-334 | that run continued: two correct validators are back, the faulty one proposes again, and two hashes have a prevote quorum at (1, 0) with both prevotes of a correct validator |
| TendermintDisagreement.TooManyValidators | daemon/thread/manager.go:149-160 | a run with one validator more than 3f+1, nobody faulty, honest proposals and no hash collision, in which two validators decide differently at height 1 |
| TendermintDisagreement.ForeignVotesBreakAgreement | daemon/thread/tendermint.go:343-371 | a run of four correct validators, honest proposals and no hash collision in which vote rows of strangers, written by another thread, make two of them decide differently at height 1 |
| TendermintDisagreement.Outsiders | daemon/thread/store_consensus.go:17-51 | in any run, rows of any set of strangers can be put into the store of a validator and count there |
| TendermintAgreement.BuiltIsJustified | daemon/thread/tendermint.go:599-663 | what a correct validator builds is justified: its proof-of-lock round had 2f+1 prevotes, its parent 2f+1 precommits, and its hash is its own |
| TendermintAgreement.PrevoteExcused | daemon/thread/tendermint.go:311-329 | a correct validator that precommitted a block prevotes a block again only after 2f+1 prevotes in a later round |
| TendermintAgreement.PrecommitQuorumEndsHeight | daemon/thread/tendermint.go:404-409 | 2f+1 precommits at (height, r) leave too few validators for 2f+1 prevotes in any later round |
| TendermintAgreement.LockPersistence | daemon/thread/tendermint.go:311-329 | in every good run, once 2f+1 precommits for a block exist at (height, r), no later round of that height has 2f+1 prevotes for any block at any moment |
| TendermintAgreement.OneDecision | daemon/thread/tendermint.go:424-459 | at most one block of a height can gather 2f+1 precommits, and in one round only |
| TendermintAgreement.HeightAgreement | daemon/thread/tendermint.go:424-459 | in every good run, two correct validators never decide differently at a height, and they decide in the same round |
| TendermintAgreement.HonestRunsGoForward | daemon/thread/tendermint.go:542-552 | no good run contains a commit of a lower height, so the position discipline applies |
| TendermintAgreement.CommittedChainVerifies | daemon/thread/verify.go:26-49 | in every good run, the committed blocks of a correct validator from height 1 up pass `VerifyChain` as soon as there is one |
| TendermintAgreement.PrefixAgreement | daemon/thread/tendermint.go:274-569 | in every good run, of the committed chains of two correct validators at any two moments one is a prefix of the other, in every hashed field |
| TendermintAgreement.OverwriteIff | daemon/thread/store_blocks.go:11-26 | a block row written over a committed one leaves a verified chain verified if and only if the block carries its own hash and fits the hashes below and above |
| TendermintHash.ConcreteRunIsGood | daemon/thread/tendermint.go:732-742 | with `computeBlockHash`, a run is good unless two of its hashed texts share a digest or two of its entry lists share an encoding |
| TendermintHash.DecidedIsColonFree | daemon/thread/tendermint.go:732-742 | whatever 2f+1 precommits decide is the hex hash of a proposed block and holds no colon |
| TendermintHash.VerifiedParents | daemon/thread/verify.go:33-46 | every parent hash in a chain that verifies under `computeBlockHash` is free of colons |
| TendermintHash.TipFixesContents | daemon/thread/verify.go:26-59 | two verified chains of one thread with one length and one last hash agree in every hashed field, unless digests or encodings collide |
| TendermintHash.TextPieces | daemon/thread/tendermint.go:732-742 | the text of a block at its colons: thread, height, round, parent, hex entries, proposer |
| BlockHash.PreimagePieces | daemon/thread/tendermint.go:735-738 | the same, piece by piece, for every input, also with colons inside the fields |
| BlockHash.PreimageInjective | daemon/thread/tendermint.go:732-742 | for blocks of one thread with colon-free parents, equal texts mean equal height, round, parent, encoded entries and proposer |
| BlockHash.ColonInParentIsAmbiguous | daemon/thread/tendermint.go:732-742 | two different blocks with one text, for every thread, once a parent hash holds a colon |
| BlockHash.HashInjectiveUnlessDigestsCollide | daemon/thread/tendermint.go:732-742 | block hashes are colon-free, and with colon-free parents they are equal exactly for equal blocks or colliding digests |
| Text.DecimalBack | daemon/thread/tendermint.go:735-738 | decimal rendering is undone by reading the digits, and holds no colon |
| Text.DecimalDigits | daemon/thread/tendermint.go:735-738 | decimal texts hold digits only, without leading zeros |
| Text.HexAt | daemon/thread/tendermint.go:737-741 | byte i is characters 2i and 2i+1, high half first |
| Text.HexInjective | daemon/thread/tendermint.go:737-741 | hexadecimal rendering is injective |
| Chain.VerifyChain | daemon/thread/verify.go:26-49 | accepts exactly the non-empty linked chains with their own hashes, and otherwise names the first bad block |
| Chain.VerifyChainFromHead | daemon/thread/verify.go:78-132 | for arbitrary lookups: a result is the linked chain the lookups serve from the head to genesis, and an error means that they serve none |
| Chain.HopError | daemon/thread/verify.go:94-124 | no error of a hop exactly when pointer, thread, height and hash all agree |
| Chain.ReplacedIff | daemon/thread/verify.go:26-49 | one block of a verified chain can be replaced if and only if the new one has its height, its own hash, the parent below and the hash named above |
| Chain.WalkRefinesVerify | daemon/thread/verify.go:78-132 | a walked chain has head.Height blocks of the thread, ends in the head's hash, and passes the forward check if and only if the head's height is at least 1 |
| Chain.TipFixesChain | daemon/thread/verify.go:26-49 | linked chains of one length that end in one hash agree in every hashed field, absent a collision among their blocks |
| Chain.TwoWalksAgree | daemon/thread/verify.go:78-132 | two successful walks from one head height and hash, over any two networks, return chains equal in every hashed field |
| PendingQueue.PendingStore.EnqueueEntry | daemon/thread/store_pending.go:13-24 | adds one row under an id never used before |
| PendingQueue.PendingStore.ClaimPendingEntries | daemon/thread/store_pending.go:67-109 | claims the oldest free rows up to the limit and returns their entries in order; nothing else changes |
| PendingQueue.PendingStore.ReleasePendingClaims | daemon/thread/store_pending.go:111-114 | gives up exactly the claims on rows of the thread |
| PendingQueue.PendingStore.ReleasePendingClaimIDs | daemon/thread/store_pending.go:116-128 | the loop gives up exactly the listed claims |
| PendingQueue.PendingStore.AppendBlockAndAckPending | daemon/thread/store_pending.go:147-199 | allocates the next height and parent, inserts the block unless the height is taken, deletes the acknowledged rows; all or nothing |
| PendingQueue.AllocateSlot | daemon/thread/store_pending.go:153-170 | the height above the greatest committed one and that block's hash, or 1 and the empty hash |
| PendingQueue.SelectBatch | daemon/thread/store_pending.go:74-97 | distinct free rows, oldest first, as many as there are up to the limit |
| RaftReplica.ClaimReleaseUndo | daemon/thread/store_pending.go:116-128 | releasing a batch just claimed restores the queue |
| RaftReplica.SlotIsNext | daemon/thread/store_pending.go:153-170 | the slot allocated is the height after the returned chain, on its last hash |
| RaftReplica.CommitOutcome | daemon/thread/raft.go:569-588 | a commit appends a block with the entries, owner, term and time of its log entry on top of the chain; the rows that the replica's own proposal names leave the queue, and no others |
| RaftOutcomes.ChainIsLog | daemon/thread/raft.go:712-732 | in every run the chain is the committed log: one block per commit, in order, with its entries, owner, term and time |
| RaftOutcomes.ProposeOutcome | daemon/thread/raft.go:660-683 | a proposal names its rows and their entries in order, at most 64 and all free rows if they are fewer, under the replica's name; a refused one leaves the queue as it was |
| RaftOutcomes.AcceptOutcome | daemon/thread/store_pending.go:13-24 | one more free row, under an id that no row, claim or own proposal has had |
| RaftOutcomes.NoRowStranded | daemon/thread/store_pending.go:111-128 | in every run a pending row can be claimed or belongs to a batch proposed since the last release, and after a restart every row can be claimed |
| RaftReplica.RowLeavesIntoBlock | daemon/thread/raft.go:569-588 | a pending row disappears only in the step that appends a block with its entry |
| RaftReplica.LeftRowsAreInChain | daemon/thread/store_pending.go:147-199 | over every run of enqueues, claims, releases, restarts and commits, with multiplicity: the rows with one entry that have left the queue are matched by as many new occurrences of the entry in the chain |
| RaftReplica.EntryNeverLost | daemon/thread/store_pending.go:147-199 | in particular each accepted row is still pending, unchanged, or its entry is in the chain |
| RaftReplica.BatchesDisjoint | daemon/thread/raft.go:660-683 | between releases the claimed batches are pairwise disjoint |
| RaftReplica.ReturnedChainVerifies | daemon/thread/raft.go:712-732 | after every run the returned blocks have heights 1 to k and pass `VerifyChain`, and the table holds exactly them |
| RaftReplica.ChainIsAppendOnly | daemon/thread/store_pending.go:147-199 | no block is ever overwritten or dropped |
| RaftReplica.StoredBlockVerifiesIff | daemon/thread/store.go:152-172 | a Raft block read back from the table carries its own hash if and only if its entries have no fields beyond the five stored |
| RaftReplica.RaftBackend.AcceptEntry | daemon/thread/store_pending.go:13-24 | accepting an entry extends the run of the object by that event |
| RaftReplica.RaftBackend.Rebuild | daemon/thread/raft.go:184 | rebuilding releases the thread's claims: a restart in the run of the object |
| RaftReplica.RaftBackend.ProposePending | daemon/thread/raft.go:660-683 | without a leader nothing; else claims a batch and proposes it, and releases it if the library refused, which does not keep the proposal out of the log: a step of the run; the proposal holds the entries of its rows |
| RaftReplica.RaftBackend.CommitEntry | daemon/thread/raft.go:712-758 | appends the block for a committed entry, with its entries, owner, term and time, and acknowledges rows only of the replica's own proposals: a step of the run |
| RaftReplica.RaftBackend.ChainVerifies | daemon/thread/raft.go:712-732 | after any calls whatever, the blocks the object has returned pass `VerifyChain` |
| Tasks.RequeueRowsAt | daemon/tasks/tasks.go:580-616 | the requeueing loop treats each listed row once, and leaves the others |
| Tasks.LatestIsMax | daemon/tasks/tasks.go:538-578 | the latest delivery of a task is the greatest sequence that names it |
| TaskStores.SelectPage | daemon/tasks/tasks.go:538-578 | the page holds exactly the selected deliveries after the cursor, ascending, cut at the limit |
| TaskStores.TaskStore.CreateTask | daemon/tasks/tasks.go:211-266 | a new task and its delivery, an existing task for a repeated key, or an error; the two inserts are separate |
| TaskStores.TaskStore.ClaimLease | daemon/tasks/tasks.go:407-469 | idempotent for the holder, a fresh lease otherwise, and the failures past deadline and past the budget |
| TaskStores.TaskStore.RequeueExpired | daemon/tasks/tasks.go:580-616 | the loop requeues or fails exactly the expired leases, with one new delivery per requeue |
| TaskStores.TaskStore.ListDeliveries | daemon/tasks/tasks.go:538-578 | requeues first, then returns a page of the new log |
| TaskStores.TaskStore.Transition | daemon/tasks/tasks.go:320-366 | changes a status exactly along the allowed transitions |
| TaskStores.TaskStore.Renew | daemon/tasks/tasks.go:492-509 | extends a lease only for its worker and live token |
| TaskStores.TaskStore.Finish | daemon/tasks/tasks.go:511-529 | ends a task only for its worker and live token, in the status asked for |
| TaskStores.TaskStore.SetBudget | daemon/tasks/tasks.go:473-482 | sets the budget, whatever the task's state |
| TaskStores.TaskStore.SetDeadline | daemon/tasks/tasks.go:484-490 | a positive timeout sets the deadline, clock plus timeout in whole milliseconds, whatever the task's state |
| TaskFeed.Subscription.constructor | daemon/rpc/server_tasks.go:117-122 | a stream from sequence 0 is at the start of a run |
| TaskFeed.Subscription.Poll | daemon/rpc/server_tasks.go:124-142 | asks for a page of at most 100 after the cursor and sends it in order; a failed send leaves the cursor at the last one sent; the object stays in a run |
| TaskFeed.Subscription.SendOne | daemon/rpc/server_tasks.go:130-135 | one delivery goes out, the cursor is its sequence, and the run is extended by that turn |
| TaskFeed.Follow | daemon/tasks/tasks.go:538-616 | whatever the store did since a stream last looked is a sequence of turns of its run |
| TaskFeed.Subscription.NothingMissedNow | daemon/rpc/server_tasks.go:117-142 | after any calls on store and stream: a submitted task of the worker whose latest delivery is at or below the cursor was received with exactly that one |
| TaskFeed.Subscription.ReceivedOnce | daemon/rpc/server_tasks.go:117-142 | after any calls, no sequence was received twice |
| TaskLedger.Ledger.DeadTokenIsRefused | daemon/tasks/tasks.go:492-529 | after any calls on the store whatever: a token that was once drawn and not live neither renews nor finishes |
| TaskLedger.Ledger.TerminalNow | daemon/tasks/tasks.go:53-73 | after any calls on the store whatever: a task that was once terminal has that status now |
| TaskLedger.Ledger.Create | daemon/tasks/tasks.go:211-266 | the call extends the run of the store by one event for each of its two inserts |
| TaskLedger.Ledger.Update | daemon/tasks/tasks.go:320-366 | likewise |
| TaskLedger.Ledger.Claim | daemon/tasks/tasks.go:407-469 | likewise, for a token not drawn before |
| TaskLedger.Ledger.Renew | daemon/tasks/tasks.go:492-509 | likewise, and the answer is that of the run |
| TaskLedger.Ledger.Finish | daemon/tasks/tasks.go:511-529 | likewise, and the answer is that of the run |
| TaskLedger.Ledger.ListDeliveries | daemon/tasks/tasks.go:538-578 | likewise, by the expiry, and the answer is a page of the log after it |
| TaskLedger.Ledger.Requeue | daemon/tasks/tasks.go:580-616 | likewise |
| TaskLedger.Ledger.SetMaxAttempts | daemon/tasks/tasks.go:473-482 | likewise |
| TaskLedger.Ledger.SetTimeout | daemon/tasks/tasks.go:484-490 | likewise |
| TaskOutcomes.CreateOutcome | daemon/tasks/tasks.go:211-250 | when a creation inserts a row, finds an existing task or refuses, each as an if-and-only-if, and the columns of the new row |
| TaskOutcomes.OneTaskPerKey | daemon/tasks/tasks.go:238-250 | in every run, also with racing creations, an initiator has at most one task per idempotency key |
| TaskOutcomes.UpdateOutcome | daemon/tasks/tasks.go:320-366 | the status asked for is stored if and only if it is one of the six transitions |
| TaskOutcomes.SettingOutcome | daemon/tasks/tasks.go:473-490 | the deadline and the budget that a setting stores |
| TaskOutcomes.ClaimIff | daemon/tasks/tasks.go:407-469 | a claim is granted if and only if the task is the worker's, its deadline not over, and either the worker holds the lease or the task is submitted or expired with budget left; the row and the answer in each case |
| TaskOutcomes.ClaimOutcome | daemon/tasks/tasks.go:407-469 | the same by task id; no other row changes |
| TaskOutcomes.RenewIff | daemon/tasks/tasks.go:492-509 | a renewal succeeds if and only if the worker holds the lease under the token; only the expiry moves, by the duration asked for |
| TaskOutcomes.FinishIff | daemon/tasks/tasks.go:511-529 | a finish succeeds if and only if it asks for completed or failed and the worker holds the lease under the token; it stores the status asked for and clears the lease |
| TaskOutcomes.FinishedForEver | daemon/tasks/tasks.go:511-529 | the status that a successful finish asked for is the task's status from then on, at every point of the run |
| TaskOutcomes.PassOutcome | daemon/tasks/tasks.go:580-616 | a pass over expired leases: which rows fail, which are offered again and which stay, and one new delivery for each that is offered again and for no other |
| TaskRuns.RowChange | daemon/tasks/tasks.go:53-73 | everything that one event of any kind can do to a task's row |
| TaskRuns.TerminalForEver | daemon/tasks/tasks.go:53-73 | in every run a terminal task keeps its status |
| TaskRuns.TerminalOnce | daemon/tasks/tasks.go:134-136 | in every run a task enters a terminal status at most once |
| TaskRuns.DeadForEver | daemon/tasks/tasks.go:407-529 | a token that was drawn and is not live, by expiry, replacement or the end of its task, is never live again |
| TaskRuns.Fencing | daemon/tasks/tasks.go:492-529 | from then on no renewal and no finish with it succeeds or changes anything |
| TaskRuns.TokenSurvivesIff | daemon/tasks/tasks.go:407-469 | a live token outlives a step exactly when the step leaves the task working in the same attempt with an expiry ahead |
| TaskRuns.FinishOnce | daemon/tasks/tasks.go:511-529 | at most one finish succeeds per task |
| TaskRuns.MeasureFalls | daemon/tasks/tasks.go:320-366 | with the budget fixed, the measure falls on every status change and fresh lease, and on nothing else |
| TaskRuns.BudgetRun | daemon/tasks/tasks.go:407-469 | over any stretch of a run: the moves are bounded by the fall of the measure, attempts count fresh leases, and requeues never outnumber leases |
| TaskRuns.LeasesBounded | daemon/tasks/tasks.go:407-469 | with the budget fixed before the first claim, fresh leases number at most max_attempts |
| TaskRuns.RequeuesBounded | daemon/tasks/tasks.go:580-616 | and requeues at most max_attempts - 1 |
| TaskRuns.BudgetMovesMeasure | daemon/tasks/tasks.go:473-482 | setting the budget moves the measure by four per attempt, so it rises exactly for a larger budget |
| TaskRuns.RaisedBudgetLeasesAgain | daemon/tasks/tasks.go:407-469 | an exhausted task is leased again exactly if its budget was raised, or cleared, before the claim |
| TaskDelivery.SubmittedNeedsDelivery | daemon/tasks/tasks.go:580-616 | a task becomes submitted only with a new delivery, or without any while the second insert of its creation has not happened |
| TaskDelivery.NoMissedDelivery | daemon/rpc/server_tasks.go:117-142 | in every run, with store steps also between the expiry, the query and the sends of a poll: a submitted task of the worker whose latest delivery is at or below the cursor was received with exactly that sequence |
| TaskDelivery.NoDeliveryTwice | daemon/rpc/server_tasks.go:117-142 | no sequence is received twice |
| TaskDelivery.CaughtUp | daemon/tasks/tasks.go:538-578 | once a page not cut at the limit was sent in full, every submitted task of the worker with a delivery was received with its latest one |
| HeaderCodec.Canonical | pkg/threadcrypto/envelope.go:52-76 | a wrong nonce size is the only error; otherwise the field by field encoding, with lengths cut to 32 bits |
| HeaderCodec.DecodeEncodeIff | pkg/threadcrypto/envelope.go:52-76 | a decoder recovers header and following ciphertext exactly when every field is shorter than 2^32 bytes |
| HeaderCodec.SignedBytesFixBoth | pkg/threadcrypto/envelope.go:52-76 | the encoding is injective and prefix-free: equal signed bytes mean equal headers and ciphertexts |
| HeaderCodec.Sign | pkg/threadcrypto/envelope.go:16-25 | key size, then nonce size, then a signature over header encoding and ciphertext |
| HeaderCodec.Verify | pkg/threadcrypto/envelope.go:27-36 | key size, then nonce size, then the verdict on header encoding and ciphertext |
| HeaderCodec.Refusals | pkg/threadcrypto/envelope.go:16-36 | signing and verifying refuse a key of the wrong size first, then a nonce of the wrong size, and nothing else |
| HeaderCodec.SignatureBindsBoth | pkg/threadcrypto/envelope.go:16-36 | a signature is accepted for another header and ciphertext exactly when they are the same, or the scheme accepts it for different bytes |
| Base64Url.RoundTrip | pkg/threadcrypto/recovery.go:61-63 | decoding undoes unpadded base64url for byte strings of every length, and no symbol is a colon |
| Base64Url.Vectors | pkg/threadcrypto/recovery.go:61-63 | vectors of section 10 of RFC 4648 and one for the URL-safe symbols |
| Base64Url.EncodedLength | pkg/threadcrypto/recovery.go:61-63 | n bytes take the least number of symbols that hold 8n bits |
| RecoveryHandle.RoundTripIff | pkg/threadcrypto/recovery.go:57-85 | a valid handle prints and parses back to itself if and only if its thread ID holds no colon |
| RecoveryHandle.ParseIff | pkg/threadcrypto/recovery.go:66-85 | a text parses to a handle if and only if its four pieces are the prefix, the thread ID, the 32-byte secret and the first four digest bytes of what stands before the last colon |
| RecoveryHandle.PrintedPieces | pkg/threadcrypto/recovery.go:57-64 | the printed form at its colons: prefix, thread ID, secret, checksum |
| RecoveryHandle.ParsedPrints | pkg/threadcrypto/recovery.go:66-85 | whatever parses is a valid handle whose own printed form parses back to it |
| RecoveryHandle.PrintedInjective | pkg/threadcrypto/recovery.go:57-64 | two valid handles with one printed form are equal, even with colons in the thread ID |
| OutboxStores.OutboxStore.constructor | daemon/outbox/outbox.go:311-344 | opening returns processing rows to pending and marks old wake messages durable, reviving expired and failed ones |
| OutboxStores.OutboxStore.Enqueue | daemon/outbox/outbox.go:80-101 | a new id is inserted as pending with its time to live; a known id changes nothing |
| OutboxStores.OutboxStore.ClaimBatch | daemon/outbox/outbox.go:176-219 | expire, reclaim, then claim at most 50 rows due for a try |
| OutboxStores.OutboxStore.DeliverItem | daemon/outbox/outbox.go:221-254 | the outcome of one item, equal to the model step |
| OutboxStores.OutboxStore.DeliverItems | daemon/outbox/outbox.go:221-254 | the loop's outcome per item: failed, delivered, pending again or dead letter, with lost updates |
| OutboxStores.OutboxStore.Flush | daemon/outbox/outbox.go:175-255 | one flush is the claim followed by the outcome of every claimed item |
| OutboxStores.SelectBatch | daemon/outbox/outbox.go:190-198 | distinct claimable rows, all of them up to 50 |
| OutboxOutcomes.ItemOutcome | daemon/outbox/outbox.go:221-254 | the row after an item: delivered after a success; after a failure pending, or dead letter on the tenth try of a message that need not be kept; failed if corrupt |
| OutboxOutcomes.CallOutcome | daemon/outbox/outbox.go:231-254 | in every run, a call whose result is stored counts one attempt and decides the status in that way; one whose result is not stored changes nothing |
| OutboxOutcomes.SuccessIsFinal | daemon/outbox/outbox.go:235-240 | in every run, a stored success makes the row delivered from then on, and the message is never sent again |
| OutboxOutcomes.OneStoredSuccess | daemon/outbox/outbox.go:235-240 | in every run a message has at most one stored success |
| OutboxOutcomes.StatementOutcome | daemon/outbox/outbox.go:178-198 | which rows expiry, reclaiming and a claim change, and how |
| OutboxOutcomes.ClaimOutcome | daemon/outbox/outbox.go:190-219 | in every run a claim takes rows not tried in the last five seconds, 50 at most and all if fewer, and hands exactly them to the flush |
| OutboxOutcomes.EnqueueOutcome | daemon/outbox/outbox.go:80-101 | the columns of an accepted message; a known id changes nothing |
| OutboxOutcomes.ReopenOutcome | daemon/outbox/outbox.go:311-344 | the row after opening, column by column |
| OutboxOutcomes.NoneStuck | daemon/outbox/outbox.go:182-187 | at every point of every run, a row in processing says when it was claimed, and is pending again after a reclaim exactly if that was more than a minute ago, and after a restart at once |
| OutboxRuns.HandleItems | daemon/outbox/outbox.go:221-254 | handling the items one step at a time leaves the table that the delivery loop leaves |
| OutboxMailbox.Mailbox.constructor | daemon/outbox/outbox.go:311-344 | an opened outbox is at the start of a run |
| OutboxMailbox.Mailbox.Enqueue | daemon/outbox/outbox.go:80-101 | the call extends the run of the object by its event, also while a flush is at work |
| OutboxMailbox.Mailbox.Begin | daemon/outbox/outbox.go:176-219 | likewise, by one event for each statement that the database carried out |
| OutboxMailbox.Mailbox.HandleNext | daemon/outbox/outbox.go:221-254 | likewise, for one item |
| OutboxMailbox.Mailbox.Flush | daemon/outbox/outbox.go:175-255 | a whole flush is a stretch of the run that leaves no item in flight |
| OutboxMailbox.Mailbox.Restart | daemon/outbox/outbox.go:311-344 | a new object over the database of the dead one continues the run |
| OutboxMailbox.Mailbox.WakeIsKept | daemon/outbox/outbox.go:175-255 | after any calls: a durable-kind message that was once pending or processing is so now, or a deliver call for it has succeeded since |
| OutboxMailbox.Mailbox.DeliveredIsKept | daemon/outbox/outbox.go:235-240 | after any calls: a row that was once delivered is unchanged |
| OutboxRuns.OneStep | daemon/outbox/outbox.go:175-255 | everything one step, each statement of a flush being one, can do to a well-formed message |
| OutboxRuns.WakeSurvives | daemon/outbox/outbox.go:175-255 | over every run with crashes and failed updates, a durable-kind message stays pending or processing until a deliver call for it succeeds; it never expires and is never dead-lettered |
| OutboxRuns.AcceptedWakeSurvives | daemon/outbox/outbox.go:80-101 | in particular from the moment it is accepted |
| OutboxRuns.FateOfAccepted | daemon/outbox/outbox.go:80-101 | every accepted message is at any later time active, delivered by a call that succeeded, expired by a flush after its time to live, or dead-lettered after at least ten calls; the last two never for durable kinds |
| OutboxRuns.DeliveredForEver | daemon/outbox/outbox.go:235-240 | a row once delivered never changes, through every crash, and its message is not sent again |
| OutboxRuns.ReopenRescues | daemon/outbox/outbox.go:316-343 | opening revives an old wake message exactly when it was neither delivered nor dead-lettered |
| OutboxRuns.TriesBounded | daemon/outbox/outbox.go:231-254 | over every run, another message is tried at most ten times plus once per try whose result was not stored |
| OutboxRuns.TenTries | daemon/outbox/outbox.go:231-254 | at most ten times where every result is stored |

## Left out

- Tendermint liveness, and agreement across rounds when a faulty proposer sends what `buildProposal` could not build: the code does not check the proof of lock behind a proposal.
- Entries drained by a Tendermint proposer whose block is not committed: they are deleted before the commit, so nothing is conserved there.
- The Raft library itself, its log, snapshots and membership changes, and equality of different Raft replicas; a replica is only known to be handed proposals that were made.
- Blocks applied by observers of a Raft thread, imported history, and blocks that a Tendermint thread of the same daemon commits under the id of a Raft thread: they are saved at whatever height arrives.
- String-level injectivity of the Raft block hash; it is an abstract function of the block's content.
- Failures of the database in the Tendermint, chain and task models, other than the second insert of task creation; failing row scans in the outbox, and pending entries whose stored bytes do not decode, which a claim skips.
- Integer widths other than header lengths and counters: heights, rounds and times are unbounded. A negative height plus round, for which the Go index panics, has no proposer in the model; logging a block hash shorter than eight characters, which panics, is a crash in the model.
- Cryptography: SHA-256, Ed25519 and JSON appear as arbitrary functions, ChaCha20-Poly1305 and its use in Encrypt and Decrypt not at all.
- The constant-time comparison of recovery checksums, recovery commitments, and the random secret of a new handle.
- TaskFeed.Subscription.Poll: one turn of the subscription, of a stream that starts at sequence 0 and resumes where it stopped; the endless loop around it is the sequence of turns of a run, and waiting on the ticker is not modelled.
- OutboxStores.OutboxStore.Flush: no message is accepted while the method runs; the run model interleaves messages with every step.
- OutboxRuns.TriesBounded: asks that a message left over from an earlier run had tries left; direct marking as delivered, which only tests call, is not an event.
- TendermintBackend.Backend.OnVote: the answer of the counting is returned as a ghost value, because it may be any best hash.
- Artifacts, task events, thread membership, networking, discovery, the actor runtime, RPC plumbing, names, registry, inbox, webhooks and user interfaces: thin tables or input and output, which would add only easy members.
