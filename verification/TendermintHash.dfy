/** The agreement theorems with the concrete block hash: the hypothesis on hashes becomes one on the
    digests of the texts and the encodings of the entries that occur in the run. */
module TendermintHash {
  import opened ThreadTypes
  import opened TendermintNode
  import opened TendermintShapes
  import opened TendermintSystem
  import opened TendermintSafety
  import opened TendermintAgreement
  import opened Text
  import BlockHash
  import Chain
  import Quorums

  /** The digest and the JSON encoding of stored entries. */
  datatype Encoding = Encoding(sha: string -> seq<byte>, json: seq<Entry> -> seq<byte>)

  function FieldsOf(enc: Encoding, c: Content): BlockHash.Fields {
    BlockHash.Fields(c.height, c.round, c.parentHash, enc.json(c.entries), c.proposerDid)
  }

  function TextOf(enc: Encoding, c: Content): string {
    BlockHash.Preimage(c.threadId, FieldsOf(enc, c))
  }

  /** The text of a block at its colons. */
  lemma TextPieces(enc: Encoding, c: Content)
    ensures Split(TextOf(enc, c)) ==
              Split(c.threadId) + ([Signed(c.height)] + ([Signed(c.round)] + (Split(c.parentHash)
              + ([Hex(enc.json(c.entries))] + Split(c.proposerDid)))))
  {
    BlockHash.PreimagePieces(c.threadId, FieldsOf(enc, c));
  }

  function ContentHash(enc: Encoding, c: Content): Hash {
    BlockHash.ComputeBlockHash(enc.sha, c.threadId, FieldsOf(enc, c))
  }

  /** `computeBlockHash` */
  function BlockHasher(enc: Encoding): Block -> Hash {
    b => ContentHash(enc, ContentOf(b))
  }

  /** The thread hashes blocks by `computeBlockHash`. */
  ghost predicate UsesBlockHash(cfg: Config, enc: Encoding) {
    forall c :: cfg.hash(c) == ContentHash(enc, c)
  }

  /** The two texts do not collide, nor do the encodings of the two entry lists. */
  predicate Apart(enc: Encoding, a: Content, b: Content) {
    && (enc.sha(TextOf(enc, a)) == enc.sha(TextOf(enc, b)) ==> TextOf(enc, a) == TextOf(enc, b))
    && (enc.json(a.entries) == enc.json(b.entries) ==> a.entries == b.entries)
  }

  /** No two texts hashed in the run have one digest, and no two entry lists in it have one encoding. */
  ghost predicate EncodingInjective(enc: Encoding, proposals: set<Proposal>) {
    forall p, q {:trigger p in proposals, q in proposals} ::
      p in proposals && q in proposals && p.block.Some? && q.block.Some? ==>
        Apart(enc, ContentOf(p.block.value), ContentOf(q.block.value))
  }

  /** What a correct validator precommitted is the hash of a proposed block, so it holds no colon. */
  lemma DecidedIsColonFree(cfg: Config, enc: Encoding, correct: set<Did>, sys: System, h: int, x: Hash)
    requires FaultBound(cfg, correct) && BoundLocks(cfg, correct, sys) && UsesBlockHash(cfg, enc)
    requires Decidable(cfg, sys.votes, h, x)
    ensures ColonFree(x)
  {
    var r :| Quorum(cfg, sys.votes, h, r, Precommit, x);
    var voters := SentVoters(cfg, sys.votes, h, r, Precommit, x);
    Quorums.CorrectInQuorum(Validators(cfg), correct, voters, cfg.f);
    var c :| c in voters * correct;
    assert Vote(cfg.threadId, h, r, Precommit, x, c) in sys.votes;
    assert NodeAuth(cfg, sys.nodes[c], sys.votes);
    StoreToSent(cfg, sys.nodes[c], sys.votes, h, r, Prevote, x);
    PrevotedIsColonFree(cfg, enc, correct, sys, h, r, x);
  }

  lemma PrevotedIsColonFree(cfg: Config, enc: Encoding, correct: set<Did>, sys: System, h: int, r: int, x: Hash)
    requires FaultBound(cfg, correct) && PrevotesOffered(correct, sys) && AllJustified(cfg, sys)
    requires UsesBlockHash(cfg, enc)
    requires x != NIL && Quorum(cfg, sys.votes, h, r, Prevote, x)
    ensures ColonFree(x)
  {
    var voters := SentVoters(cfg, sys.votes, h, r, Prevote, x);
    Quorums.CorrectInQuorum(Validators(cfg), correct, voters, cfg.f);
    var c :| c in voters * correct;
    assert Vote(cfg.threadId, h, r, Prevote, x, c) in sys.votes;
    assert Offered(sys.proposals, h, r, x);
    var p :| p in sys.proposals && p.block.Some? && p.height == h && p.round == r && p.block.value.blockHash == x;
    assert Justified(cfg, sys.votes, p);
    HexColonFree(enc.sha(TextOf(enc, ContentOf(p.block.value))));
  }

  lemma ParentColonFree(cfg: Config, enc: Encoding, correct: set<Did>, sys: System, p: Proposal)
    requires FaultBound(cfg, correct) && BoundLocks(cfg, correct, sys) && UsesBlockHash(cfg, enc) && p in sys.proposals
    ensures p.block.Some? && ColonFree(p.block.value.parentHash) && p.block.value.threadId == cfg.threadId
  {
    assert Justified(cfg, sys.votes, p);
    if p.height > 1 {
      DecidedIsColonFree(cfg, enc, correct, sys, p.height - 1, p.block.value.parentHash);
    }
  }

  lemma ContentFromHash(enc: Encoding, a: Content, b: Content)
    requires a.threadId == b.threadId && ColonFree(a.parentHash) && ColonFree(b.parentHash) && Apart(enc, a, b)
    requires ContentHash(enc, a) == ContentHash(enc, b)
    ensures a == b
  {
    BlockHash.HashInjectiveUnlessDigestsCollide(enc.sha, a.threadId, FieldsOf(enc, a), FieldsOf(enc, b));
  }

  /** In an honest state, injective encodings make the block hash injective. */
  lemma HashInjectiveFromEncoding(cfg: Config, enc: Encoding, correct: set<Did>, sys: System)
    requires FaultBound(cfg, correct) && BoundLocks(cfg, correct, sys) && UsesBlockHash(cfg, enc)
    requires EncodingInjective(enc, sys.proposals)
    ensures HashInjective(cfg, sys.proposals)
  {
    forall p, q | p in sys.proposals && q in sys.proposals && p.block.Some? && q.block.Some?
                  && BlockHashOf(cfg, p.block.value) == BlockHashOf(cfg, q.block.value)
      ensures ContentOf(p.block.value) == ContentOf(q.block.value)
    {
      ParentColonFree(cfg, enc, correct, sys, p);
      ParentColonFree(cfg, enc, correct, sys, q);
      ContentFromHash(enc, ContentOf(p.block.value), ContentOf(q.block.value));
    }
  }

  lemma EncodingOnFewer(enc: Encoding, a: set<Proposal>, b: set<Proposal>)
    requires a <= b && EncodingInjective(enc, b)
    ensures EncodingInjective(enc, a)
  {
  }

  lemma EncodingAt(cfg: Config, enc: Encoding, correct: set<Did>, trace: seq<System>, evs: seq<Event>, i: nat)
    requires IsTrace(cfg, correct, trace, evs) && EncodingInjective(enc, trace[|trace| - 1].proposals) && i < |trace|
    ensures EncodingInjective(enc, trace[i].proposals)
  {
    MessagesStay(cfg, correct, trace, evs, i, |trace| - 1);
    EncodingOnFewer(enc, trace[i].proposals, trace[|trace| - 1].proposals);
  }

  lemma {:induction false} HonestWithEncoding(cfg: Config, enc: Encoding, correct: set<Did>, trace: seq<System>,
                                              evs: seq<Event>, i: nat)
    requires FaultBound(cfg, correct) && IsTrace(cfg, correct, trace, evs) && HonestEvents(cfg, trace, evs)
    requires UsesBlockHash(cfg, enc) && EncodingInjective(enc, trace[|trace| - 1].proposals) && i < |trace|
    ensures Honest(cfg, correct, trace[i]) && HashInjective(cfg, trace[i].proposals)
  {
    if i == 0 {
      HonestInit(cfg, correct);
    } else {
      HonestWithEncoding(cfg, enc, correct, trace, evs, i - 1);
      HonestNext(cfg, correct, trace, evs, i);
    }
    EncodingAt(cfg, enc, correct, trace, evs, i);
    HashInjectiveFromEncoding(cfg, enc, correct, trace[i]);
  }

  /** With the concrete block hash, lock persistence and prefix agreement need no more than injective
      encodings on the run: such a run is a good run. */
  lemma ConcreteRunIsGood(cfg: Config, enc: Encoding, correct: set<Did>, trace: seq<System>, evs: seq<Event>)
    requires FaultBound(cfg, correct) && IsTrace(cfg, correct, trace, evs) && HonestEvents(cfg, trace, evs)
    requires UsesBlockHash(cfg, enc) && EncodingInjective(enc, trace[|trace| - 1].proposals)
    ensures GoodRun(cfg, correct, trace, evs)
  {
    HonestWithEncoding(cfg, enc, correct, trace, evs, |trace| - 1);
  }

  // ----- verified chains

  /** Every parent hash of a verified chain is free of colons: it is empty or a block hash. */
  lemma VerifiedParents(enc: Encoding, blocks: seq<Block>, b: Block)
    requires Chain.LinksOK(BlockHasher(enc), blocks) && b in blocks
    ensures ColonFree(b.parentHash)
  {
    var i: nat :| i < |blocks| && blocks[i] == b;
    assert Chain.LinkOK(BlockHasher(enc), blocks, i);
    if i > 0 {
      assert Chain.LinkOK(BlockHasher(enc), blocks, i - 1);
      HexColonFree(enc.sha(TextOf(enc, ContentOf(blocks[i - 1]))));
    }
  }

  /** Two verified chains of one thread, of one length and one last hash, agree in every hashed field of every
      block, unless two of the hashed texts or entry encodings collide. */
  lemma TipFixesContents(enc: Encoding, threadId: string, a: seq<Block>, b: seq<Block>)
    requires Chain.ChainOK(BlockHasher(enc), a) && Chain.ChainOK(BlockHasher(enc), b)
    requires forall x :: x in a || x in b ==> x.threadId == threadId
    requires forall x, y :: x in a && y in b ==> Apart(enc, ContentOf(x), ContentOf(y))
    requires |a| == |b| && a[|a| - 1].blockHash == b[|b| - 1].blockHash
    ensures Chain.Contents(ContentOf, a) == Chain.Contents(ContentOf, b)
  {
    forall x, y | x in a && y in b && BlockHasher(enc)(x) == BlockHasher(enc)(y) ensures ContentOf(x) == ContentOf(y) {
      VerifiedParents(enc, a, x);
      VerifiedParents(enc, b, y);
      ContentFromHash(enc, ContentOf(x), ContentOf(y));
    }
    Chain.TipFixesChain(BlockHasher(enc), ContentOf, a, b);
  }
}
