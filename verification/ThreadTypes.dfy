/** The records that the thread subsystem stores and exchanges. */
module ThreadTypes {

  datatype Option<+T> = None | Some(value: T)

  type Did = string

  /** A block hash as the hex text the daemon stores; the empty string is the nil vote. */
  type Hash = string

  const NIL: Hash := ""

  /** A thread entry. The first five fields are the ones `thread_blocks` keeps;
      `envelope` stands for the encrypted-entry fields 6 to 12 of the message. */
  datatype Entry = Entry(authorDid: Did, payload: string, kind: string, authorSig: string,
                         submittedAt: int, envelope: string)

  /** The part of an entry that survives the store. */
  function Strip(e: Entry): Entry {
    e.(envelope := "")
  }

  function StripAll(es: seq<Entry>): seq<Entry> {
    seq(|es|, i requires 0 <= i < |es| => Strip(es[i]))
  }

  datatype Block = Block(threadId: string, height: int, round: int, parentHash: Hash, entries: seq<Entry>,
                         proposerDid: Did, proposerSig: string, blockHash: Hash, committedAt: int)

  /** A block as a row of `thread_blocks`. */
  function Stored(b: Block): Block {
    b.(entries := StripAll(b.entries))
  }

  /** The fields of a block that a block hash covers. */
  datatype Content = Content(threadId: string, height: int, round: int, parentHash: Hash,
                             entries: seq<Entry>, proposerDid: Did)

  /** What `computeBlockHash` hashes: entries as `marshalEntries` keeps them. */
  function ContentOf(b: Block): Content {
    Content(b.threadId, b.height, b.round, b.parentHash, StripAll(b.entries), b.proposerDid)
  }

  /** What `raftBlockHash` hashes: whole entries. */
  function RaftContentOf(b: Block): Content {
    Content(b.threadId, b.height, b.round, b.parentHash, b.entries, b.proposerDid)
  }

  datatype VoteType = Unspecified | Prevote | Precommit

  datatype Vote = Vote(threadId: string, height: int, round: int, vtype: VoteType, blockHash: Hash, voter: Did)

  datatype Proposal = Proposal(threadId: string, height: int, round: int, polRound: int,
                               block: Option<Block>, proposerDid: Did)

  /** Primary key of `thread_blocks`. */
  datatype BlockKey = BlockKey(threadId: string, height: int)
}
