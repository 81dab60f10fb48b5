/** The text that `computeBlockHash` feeds to SHA-256. */
module BlockHash {
  import opened Text

  /** `entries` is the JSON encoding of the stored entry fields. */
  datatype Fields = Fields(height: int, round: int, parentHash: string, entries: seq<byte>, proposerDid: string)

  function Preimage(threadId: string, b: Fields): string {
    threadId + ":" + (Signed(b.height) + ":" + (Signed(b.round) + ":" +
    (b.parentHash + ":" + (Hex(b.entries) + ":" + b.proposerDid))))
  }

  /** What splitting the text at its colons returns, piece by piece and for every input: thread, height, round, parent,
      entries in hexadecimal, proposer. */
  lemma PreimagePieces(threadId: string, b: Fields)
    ensures Split(Preimage(threadId, b)) ==
              Split(threadId) + ([Signed(b.height)] + ([Signed(b.round)] + (Split(b.parentHash)
              + ([Hex(b.entries)] + Split(b.proposerDid)))))
  {
    SignedInjective(b.height, b.height);
    SignedInjective(b.round, b.round);
    HexColonFree(b.entries);
    SplitSix(threadId, Signed(b.height), Signed(b.round), b.parentHash, Hex(b.entries), b.proposerDid);
  }

  /** For blocks of one thread whose parent hashes hold no colon, the preimage determines every field. */
  lemma PreimageInjective(threadId: string, a: Fields, b: Fields)
    requires Preimage(threadId, a) == Preimage(threadId, b)
    requires ColonFree(a.parentHash) && ColonFree(b.parentHash)
    ensures a == b
  {
    var e1, e2 := Hex(a.entries) + ":" + a.proposerDid, Hex(b.entries) + ":" + b.proposerDid;
    var p1, p2 := a.parentHash + ":" + e1, b.parentHash + ":" + e2;
    var r1, r2 := Signed(a.round) + ":" + p1, Signed(b.round) + ":" + p2;
    var h1, h2 := Signed(a.height) + ":" + r1, Signed(b.height) + ":" + r2;
    assert h1 == Preimage(threadId, a)[|threadId| + 1..] && h2 == Preimage(threadId, b)[|threadId| + 1..];
    SignedInjective(b.height, a.height);
    SignedInjective(a.height, b.height);
    SplitOnce(Signed(a.height), r1, Signed(b.height), r2);
    SignedInjective(b.round, a.round);
    SignedInjective(a.round, b.round);
    SplitOnce(Signed(a.round), p1, Signed(b.round), p2);
    SplitOnce(a.parentHash, e1, b.parentHash, e2);
    HexColonFree(a.entries);
    HexColonFree(b.entries);
    SplitOnce(Hex(a.entries), a.proposerDid, Hex(b.entries), b.proposerDid);
    HexInjective(a.entries, b.entries);
  }

  /** A colon in the parent hash is enough to break it: two different blocks with one preimage. */
  lemma ColonInParentIsAmbiguous(threadId: string)
    ensures var a := Fields(2, 0, "p:00", [0x11], "z");
            var b := Fields(2, 0, "p", [0x00], "11:z");
            a != b && Preimage(threadId, a) == Preimage(threadId, b)
  {
    assert Hex([0x11]) == "11" by { assert Hex([0x11]) == [Digit(1), Digit(1)] + Hex([]); }
    assert Hex([0x00]) == "00" by { assert Hex([0x00]) == [Digit(0), Digit(0)] + Hex([]); }
    var a := Fields(2, 0, "p:00", [0x11], "z");
    var b := Fields(2, 0, "p", [0x00], "11:z");
    assert a.parentHash + ":" + (Hex(a.entries) + ":" + a.proposerDid) == "p:00:11:z";
    assert b.parentHash + ":" + (Hex(b.entries) + ":" + b.proposerDid) == "p:00:11:z";
    assert a.parentHash != b.parentHash;
  }

  /** The block hash as stored: the hex text of the digest. */
  function ComputeBlockHash(sha: string -> seq<byte>, threadId: string, b: Fields): string {
    Hex(sha(Preimage(threadId, b)))
  }

  /** Block hashes hold no colon, so every parent hash of a verified chain is colon-free; then blocks
      collide only where the digests of two different texts do. */
  lemma HashInjectiveUnlessDigestsCollide(sha: string -> seq<byte>, threadId: string, a: Fields, b: Fields)
    requires ColonFree(a.parentHash) && ColonFree(b.parentHash)
    ensures ColonFree(ComputeBlockHash(sha, threadId, a))
    ensures ComputeBlockHash(sha, threadId, a) == ComputeBlockHash(sha, threadId, b) <==>
              a == b ||
              (Preimage(threadId, a) != Preimage(threadId, b)
               && sha(Preimage(threadId, a)) == sha(Preimage(threadId, b)))
  {
    HexColonFree(sha(Preimage(threadId, a)));
    if ComputeBlockHash(sha, threadId, a) == ComputeBlockHash(sha, threadId, b) {
      HexInjective(sha(Preimage(threadId, a)), sha(Preimage(threadId, b)));
      if Preimage(threadId, a) == Preimage(threadId, b) {
        PreimageInjective(threadId, a, b);
      }
    }
  }
}
