/** Verification of a chain of committed blocks, forwards from genesis and backwards from a head. */
module Chain {
  import opened ThreadTypes

  /** Position i of a chain: right height, linked to its predecessor, hash recomputed. */
  predicate LinkOK(hash: Block -> Hash, blocks: seq<Block>, i: nat)
    requires i < |blocks|
  {
    && blocks[i].height == i + 1
    && blocks[i].parentHash == (if i == 0 then NIL else blocks[i - 1].blockHash)
    && hash(blocks[i]) == blocks[i].blockHash
  }

  ghost predicate LinksOK(hash: Block -> Hash, blocks: seq<Block>) {
    forall i: nat :: i < |blocks| ==> LinkOK(hash, blocks, i)
  }

  /** What the forward verifier accepts. */
  ghost predicate ChainOK(hash: Block -> Hash, blocks: seq<Block>) {
    blocks != [] && LinksOK(hash, blocks)
  }

  /** One block of a verified chain may be replaced if and only if the new one carries its own height and hash, names
      the hash below it, and has the hash that the block above names. */
  lemma ReplacedIff(hash: Block -> Hash, blocks: seq<Block>, at: nat, b: Block)
    requires LinksOK(hash, blocks) && at < |blocks|
    ensures LinksOK(hash, blocks[at := b]) <==>
            && b.height == at + 1 && hash(b) == b.blockHash
            && b.parentHash == (if at == 0 then NIL else blocks[at - 1].blockHash)
            && (at + 1 < |blocks| ==> blocks[at + 1].parentHash == b.blockHash)
  {
    var replaced := blocks[at := b];
    if LinksOK(hash, replaced) {
      assert LinkOK(hash, replaced, at);
      assert at + 1 < |blocks| ==> LinkOK(hash, replaced, at + 1);
    }
    forall i: nat | i < |blocks| && i != at && i != at + 1 ensures LinkOK(hash, replaced, i) {
      assert LinkOK(hash, blocks, i);
    }
    if LinkOK(hash, replaced, at) && (at + 1 < |blocks| ==> blocks[at + 1].parentHash == b.blockHash) {
      assert at + 1 < |blocks| ==> LinkOK(hash, blocks, at + 1) && LinkOK(hash, replaced, at + 1);
    }
  }

  datatype ChainError = NoBlocks | BadHeight(at: nat) | BadParent(at: nat) | BadHash(at: nat)

  /** `VerifyChain`: accepts exactly the chains, and otherwise names the first bad block. */
  method VerifyChain(hash: Block -> Hash, blocks: seq<Block>) returns (err: Option<ChainError>)
    ensures err == None <==> ChainOK(hash, blocks)
    ensures err == Some(NoBlocks) <==> blocks == []
    ensures err.Some? && !err.value.NoBlocks? ==>
              && err.value.at < |blocks| && LinksOK(hash, blocks[..err.value.at])
              && !LinkOK(hash, blocks, err.value.at)
  {
    if |blocks| == 0 {
      return Some(NoBlocks);
    }
    var parentHash := NIL;
    for i := 0 to |blocks|
      invariant parentHash == if i == 0 then NIL else blocks[i - 1].blockHash
      invariant forall j: nat :: j < i ==> LinkOK(hash, blocks, j)
    {
      assert LinksOK(hash, blocks[..i]) by {
        forall j: nat | j < i ensures LinkOK(hash, blocks[..i], j) {
          assert LinkOK(hash, blocks, j);
        }
      }
      var b := blocks[i];
      if b.height != i + 1 {
        assert !LinkOK(hash, blocks, i);
        return Some(BadHeight(i));
      }
      if b.parentHash != parentHash {
        assert !LinkOK(hash, blocks, i);
        return Some(BadParent(i));
      }
      if hash(b) != b.blockHash {
        assert !LinkOK(hash, blocks, i);
        return Some(BadHash(i));
      }
      assert LinkOK(hash, blocks, i);
      parentHash := b.blockHash;
    }
    return None;
  }

  // ----- the backward walk

  /** A published pointer to the block of one height. */
  datatype Head = Head(height: int, cid: string, blockHash: Hash)

  /** The lookups of the walk; `None` is an error of the resolver or the fetch. */
  datatype Lookup = Lookup(head: string -> Option<Head>, at: (string, int) -> Option<Head>,
                           fetch: string -> Option<Block>)

  datatype WalkError = NoHead | NegativeHeight | NoPointer(h: int) | PointerHash(h: int) | NoBlock(h: int)
                     | OtherThread(h: int) | OtherHeight(h: int) | NotItsHash(h: int) | NotWanted(h: int) | OpenGenesis

  datatype WalkResult = Walked(blocks: seq<Block>) | Failed(error: WalkError)

  /** The pointer the walk uses at height h. */
  function PointerAt(net: Lookup, threadId: string, head: Head, h: int): Option<Head> {
    if h == head.height then Some(head) else net.at(threadId, h)
  }

  /** The lookups lead from the head to `blocks[i]` at height i+1. */
  predicate ServedAt(net: Lookup, threadId: string, head: Head, blocks: seq<Block>, i: nat)
    requires i < |blocks|
  {
    var ptr := PointerAt(net, threadId, head, i + 1);
    && ptr.Some? && ptr.value.blockHash == blocks[i].blockHash
    && net.fetch(ptr.value.cid) == Some(blocks[i])
    && blocks[i].threadId == threadId
  }

  ghost predicate Served(net: Lookup, threadId: string, head: Head, blocks: seq<Block>) {
    forall i: nat :: i < |blocks| ==> ServedAt(net, threadId, head, blocks, i)
  }

  /** The hash a chain ends in. */
  function Tip(blocks: seq<Block>): Hash {
    if blocks == [] then NIL else blocks[|blocks| - 1].blockHash
  }

  /** What a successful walk returns: a linked chain from genesis to the head, as served. */
  ghost predicate WalkOK(hash: Block -> Hash, net: Lookup, threadId: string, blocks: seq<Block>) {
    && net.head(threadId).Some?
    && var head := net.head(threadId).value;
       && |blocks| == head.height && Tip(blocks) == head.blockHash
       && LinksOK(hash, blocks) && Served(net, threadId, head, blocks)
  }

  /** Block i of the walk passed every check but the link to its own parent. */
  ghost predicate HopOK(hash: Block -> Hash, net: Lookup, threadId: string, head: Head, blocks: seq<Block>, i: nat)
    requires i < |blocks|
  {
    && ServedAt(net, threadId, head, blocks, i)
    && blocks[i].height == i + 1 && hash(blocks[i]) == blocks[i].blockHash
    && blocks[i].blockHash == (if i + 1 == |blocks| then head.blockHash else blocks[i + 1].parentHash)
  }

  /** Any other chain that the lookups serve has the same blocks from height h up. */
  lemma SameServed(net: Lookup, threadId: string, head: Head, a: seq<Block>, b: seq<Block>, i: nat)
    requires |a| == |b| && i < |a|
    requires ServedAt(net, threadId, head, a, i) && ServedAt(net, threadId, head, b, i)
    ensures a[i] == b[i]
  {
  }

  /** A failed check at height h rules out every chain the walk could have returned. */
  ghost predicate NoWalk(hash: Block -> Hash, net: Lookup, threadId: string) {
    forall bs :: !WalkOK(hash, net, threadId, bs)
  }

  /** Once the walk has the blocks above height h, every chain that would do agrees with them. */
  lemma AgreesAbove(hash: Block -> Hash, net: Lookup, threadId: string, head: Head, got: seq<Block>, bs: seq<Block>,
                    h: nat)
    requires net.head(threadId) == Some(head) && |got| == head.height && h < |got|
    requires forall i: nat :: h <= i < |got| ==> HopOK(hash, net, threadId, head, got, i)
    requires WalkOK(hash, net, threadId, bs)
    ensures forall i: nat :: h <= i < |got| ==> got[i] == bs[i]
    ensures got[h].parentHash == (if h == 0 then NIL else bs[h - 1].blockHash)
  {
    forall i: nat | h <= i < |got| ensures got[i] == bs[i] {
      assert HopOK(hash, net, threadId, head, got, i) && ServedAt(net, threadId, head, bs, i);
      SameServed(net, threadId, head, got, bs, i);
    }
    assert LinkOK(hash, bs, h);
  }

  function FetchAt(net: Lookup, ptr: Option<Head>): Option<Block> {
    if ptr.Some? then net.fetch(ptr.value.cid) else None
  }

  lemma NoErrorOnServed(hash: Block -> Hash, net: Lookup, threadId: string, head: Head, bs: seq<Block>, i: nat)
    requires net.head(threadId) == Some(head) && WalkOK(hash, net, threadId, bs) && i < |bs|
    ensures var ptr := PointerAt(net, threadId, head, i + 1);
            HopError(hash, threadId, i + 1, bs[i].blockHash, ptr, FetchAt(net, ptr)) == None
  {
    assert ServedAt(net, threadId, head, bs, i) && LinkOK(hash, bs, i);
  }

  lemma HopRefutes(hash: Block -> Hash, net: Lookup, threadId: string, head: Head, got: seq<Block>, wantHash: Hash,
                   h: nat)
    requires net.head(threadId) == Some(head) && |got| == head.height && 1 <= h <= |got|
    requires wantHash == if h == |got| then head.blockHash else got[h].parentHash
    requires forall i: nat :: h <= i < |got| ==> HopOK(hash, net, threadId, head, got, i)
    requires var ptr := PointerAt(net, threadId, head, h);
             HopError(hash, threadId, h, wantHash, ptr, FetchAt(net, ptr)).Some?
    ensures NoWalk(hash, net, threadId)
  {
    forall bs ensures !WalkOK(hash, net, threadId, bs) {
      if WalkOK(hash, net, threadId, bs) {
        NoErrorOnServed(hash, net, threadId, head, bs, h - 1);
        if h < |got| {
          AgreesAbove(hash, net, threadId, head, got, bs, h);
        }
      }
    }
  }

  lemma GenesisRefutes(hash: Block -> Hash, net: Lookup, threadId: string, head: Head, got: seq<Block>, wantHash: Hash)
    requires net.head(threadId) == Some(head) && |got| == head.height
    requires wantHash == if |got| == 0 then head.blockHash else got[0].parentHash
    requires forall i: nat :: i < |got| ==> HopOK(hash, net, threadId, head, got, i)
    requires wantHash != NIL
    ensures NoWalk(hash, net, threadId)
  {
    forall bs ensures !WalkOK(hash, net, threadId, bs) {
      if WalkOK(hash, net, threadId, bs) && |got| > 0 {
        AgreesAbove(hash, net, threadId, head, got, bs, 0);
      }
    }
  }

  /** `VerifyChainFromHead`, for arbitrary lookups: it returns `blocks` exactly when the lookups serve,
      from the head down to genesis, the linked chain `blocks` of this thread. */
  method VerifyChainFromHead(hash: Block -> Hash, net: Lookup, threadId: string) returns (r: WalkResult)
    ensures r.Walked? ==> WalkOK(hash, net, threadId, r.blocks)
    ensures r.Failed? ==> NoWalk(hash, net, threadId)
  {
    var resolved := net.head(threadId);
    if resolved == None {
      return Failed(NoHead);
    }
    var head := resolved.value;
    if head.height < 0 {
      return Failed(NegativeHeight);  // Go's make panics on a negative length
    }
    var blocks := new Block[head.height];
    var wantHash := head.blockHash;
    var h := head.height;
    while h >= 1
      invariant 0 <= h <= head.height
      invariant wantHash == if h == head.height then head.blockHash else blocks[h].parentHash
      invariant forall i: nat :: h <= i < head.height ==> HopOK(hash, net, threadId, head, blocks[..], i)
    {
      var ptr := PointerAt(net, threadId, head, h);
      ghost var got := blocks[..];
      var block := FetchAt(net, ptr);
      var error := HopError(hash, threadId, h, wantHash, ptr, block);
      if error.Some? {
        HopRefutes(hash, net, threadId, head, got, wantHash, h);
        return Failed(error.value);
      }
      blocks[h - 1] := block.value;
      wantHash := block.value.parentHash;
      HopsKept(hash, net, threadId, head, got, blocks[..], h);
      h := h - 1;
    }
    if wantHash != NIL {
      GenesisRefutes(hash, net, threadId, head, blocks[..], wantHash);
      return Failed(OpenGenesis);
    }
    HopsLink(hash, net, threadId, head, blocks[..]);
    return Walked(blocks[..]);
  }

  /** The checks of one hop, in the order the walk makes them. */
  function HopError(hash: Block -> Hash, threadId: string, h: int, wantHash: Hash, ptr: Option<Head>,
                    block: Option<Block>)
    : (e: Option<WalkError>)
    ensures e == None <==>
            && ptr.Some? && ptr.value.blockHash == wantHash && block.Some?
            && block.value.threadId == threadId && block.value.height == h
            && hash(block.value) == block.value.blockHash && block.value.blockHash == wantHash
  {
    if ptr == None then Some(NoPointer(h))
    else if ptr.value.blockHash != wantHash then Some(PointerHash(h))
    else if block == None then Some(NoBlock(h))
    else if block.value.threadId != threadId then Some(OtherThread(h))
    else if block.value.height != h then Some(OtherHeight(h))
    else if hash(block.value) != block.value.blockHash then Some(NotItsHash(h))
    else if hash(block.value) != wantHash then Some(NotWanted(h))
    else None
  }

  lemma HopsKept(hash: Block -> Hash, net: Lookup, threadId: string, head: Head, got: seq<Block>, now: seq<Block>,
                 h: nat)
    requires |got| == |now| == head.height && 1 <= h <= |got|
    requires now == got[h - 1 := now[h - 1]]
    requires forall i: nat :: h <= i < |got| ==> HopOK(hash, net, threadId, head, got, i)
    requires HopOK(hash, net, threadId, head, now, h - 1)
    ensures forall i: nat :: h - 1 <= i < |now| ==> HopOK(hash, net, threadId, head, now, i)
  {
    forall i: nat | h <= i < |now| ensures HopOK(hash, net, threadId, head, now, i) {
      assert HopOK(hash, net, threadId, head, got, i);
    }
  }

  lemma HopsLink(hash: Block -> Hash, net: Lookup, threadId: string, head: Head, blocks: seq<Block>)
    requires net.head(threadId) == Some(head) && |blocks| == head.height
    requires forall i: nat :: i < |blocks| ==> HopOK(hash, net, threadId, head, blocks, i)
    requires (if blocks == [] then head.blockHash else blocks[0].parentHash) == NIL
    ensures WalkOK(hash, net, threadId, blocks)
  {
    forall i: nat | i < |blocks|
      ensures LinkOK(hash, blocks, i) && ServedAt(net, threadId, head, blocks, i)
    {
      assert HopOK(hash, net, threadId, head, blocks, i);
      if i > 0 {
        assert HopOK(hash, net, threadId, head, blocks, i - 1);
      }
    }
    if blocks != [] {
      assert HopOK(hash, net, threadId, head, blocks, |blocks| - 1);
    }
  }

  /** The backward walk refines the forward check: a returned chain passes `VerifyChain` if and only if
      the head is above height 0 (a head of height 0 with an empty hash returns no blocks). */
  lemma WalkRefinesVerify(hash: Block -> Hash, net: Lookup, threadId: string, blocks: seq<Block>)
    requires WalkOK(hash, net, threadId, blocks)
    ensures ChainOK(hash, blocks) <==> net.head(threadId).value.height >= 1
    ensures |blocks| == net.head(threadId).value.height && Tip(blocks) == net.head(threadId).value.blockHash
    ensures forall b :: b in blocks ==> b.threadId == threadId
  {
    forall b | b in blocks ensures b.threadId == threadId {
      var i: nat :| i < |blocks| && blocks[i] == b;
      assert ServedAt(net, threadId, net.head(threadId).value, blocks, i);
    }
  }

  /** No two blocks of the two chains have the same hash and different content. */
  ghost predicate NoCollision(hash: Block -> Hash, content: Block -> Content, a: seq<Block>, b: seq<Block>) {
    forall x, y :: x in a && y in b && hash(x) == hash(y) ==> content(x) == content(y)
  }

  function Contents(content: Block -> Content, blocks: seq<Block>): seq<Content> {
    seq(|blocks|, i requires 0 <= i < |blocks| => content(blocks[i]))
  }

  /** Chains of one length that end in one hash agree in every hashed field. */
  lemma {:induction false} TipFixesChain(hash: Block -> Hash, content: Block -> Content, a: seq<Block>, b: seq<Block>)
    requires LinksOK(hash, a) && LinksOK(hash, b) && |a| == |b| && Tip(a) == Tip(b)
    requires NoCollision(hash, content, a, b)
    requires forall x :: content(x).parentHash == x.parentHash
    ensures Contents(content, a) == Contents(content, b)
  {
    if a != [] {
      var n := |a| - 1;
      assert LinkOK(hash, a, n) && LinkOK(hash, b, n);
      assert a[n] in a && b[n] in b;
      assert content(a[n]) == content(b[n]);
      assert a[n].parentHash == b[n].parentHash;
      PrefixLinks(hash, a, n);
      PrefixLinks(hash, b, n);
      TipFixesChain(hash, content, a[..n], b[..n]);
      assert Contents(content, a) == Contents(content, a[..n]) + [content(a[n])];
      assert Contents(content, b) == Contents(content, b[..n]) + [content(b[n])];
    }
  }

  lemma PrefixLinks(hash: Block -> Hash, a: seq<Block>, n: nat)
    requires LinksOK(hash, a) && n < |a|
    ensures LinksOK(hash, a[..n]) && Tip(a[..n]) == a[n].parentHash
  {
    assert LinkOK(hash, a, n);
    forall i: nat | i < n ensures LinkOK(hash, a[..n], i) {
      assert LinkOK(hash, a, i);
    }
  }

  /** Two successful walks from the same head height and hash, over whatever lookups, return chains
      equal in all hashed fields. */
  lemma TwoWalksAgree(hash: Block -> Hash, content: Block -> Content, n1: Lookup, n2: Lookup, threadId: string,
                      a: seq<Block>, b: seq<Block>)
    requires WalkOK(hash, n1, threadId, a) && WalkOK(hash, n2, threadId, b)
    requires n1.head(threadId).value.height == n2.head(threadId).value.height
    requires n1.head(threadId).value.blockHash == n2.head(threadId).value.blockHash
    requires NoCollision(hash, content, a, b)
    requires forall x :: content(x).parentHash == x.parentHash
    ensures Contents(content, a) == Contents(content, b)
  {
    TipFixesChain(hash, content, a, b);
  }
}
