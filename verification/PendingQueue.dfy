/** The write-ahead queue of a thread and the table of committed blocks, as the Raft path uses them. */
module PendingQueue {
  import opened ThreadTypes

  datatype PendingRow = PendingRow(threadId: string, entry: Entry, submittedAt: int)

  /** `pending` is keyed by an id that is never used again; `claims` are the reserved ids. */
  datatype Queue = Queue(pending: map<nat, PendingRow>, nextId: nat, claims: set<nat>, blocks: map<BlockKey, Block>)

  const EMPTY := Queue(map[], 0, {}, map[])

  function Enqueue(q: Queue, threadId: string, entry: Entry, now: int): Queue {
    q.(pending := q.pending[q.nextId := PendingRow(threadId, entry, now)], nextId := q.nextId + 1)
  }

  /** The row can be claimed for the thread. */
  predicate Free(q: Queue, threadId: string, id: nat) {
    id in q.pending && q.pending[id].threadId == threadId && id !in q.claims
  }

  /** The answer of the claiming query: distinct free rows, oldest first, as many as there are up to the limit. */
  ghost predicate IsBatch(q: Queue, threadId: string, limit: nat, ids: seq<nat>) {
    && |ids| <= limit
    && (forall id :: id in ids ==> Free(q, threadId, id))
    && (forall i, j :: 0 <= i < j < |ids| ==>
          ids[i] != ids[j] && ids[i] in q.pending && ids[j] in q.pending
          && q.pending[ids[i]].submittedAt <= q.pending[ids[j]].submittedAt)
    && (forall x, id :: Free(q, threadId, x) && x !in ids ==>
          |ids| == limit &&
          (id in ids && Free(q, threadId, id) ==> q.pending[id].submittedAt <= q.pending[x].submittedAt))
  }

  function IdSet(ids: seq<nat>): set<nat> {
    set id | id in ids
  }

  function ClaimIds(q: Queue, ids: seq<nat>): Queue {
    q.(claims := q.claims + IdSet(ids))
  }

  function EntriesOf(q: Queue, ids: seq<nat>): seq<Entry>
    requires forall id :: id in ids ==> id in q.pending
  {
    seq(|ids|, i requires 0 <= i < |ids| => q.pending[ids[i]].entry)
  }

  function ReleaseIds(q: Queue, ids: seq<nat>): Queue {
    q.(claims := q.claims - IdSet(ids))
  }

  function ReleaseThread(q: Queue, threadId: string): Queue {
    q.(claims := set id | id in q.claims && !(id in q.pending && q.pending[id].threadId == threadId))
  }

  // ----- appending a block

  /** The heights of the committed blocks of a thread. */
  function Heights(q: Queue, threadId: string): set<int> {
    set k | k in q.blocks && k.threadId == threadId && q.blocks[k].committedAt > 0 :: k.height
  }

  ghost predicate IsMax(s: set<int>, m: int) {
    m in s && forall x :: x in s ==> x <= m
  }

  lemma {:induction false} MaxExists(s: set<int>)
    requires s != {}
    ensures exists m :: IsMax(s, m)
    decreases s
  {
    if forall x :: x !in s {
      assert false;
    }
    var x :| x in s;
    var rest := s - {x};
    if rest == {} {
      assert s == {x};
      assert IsMax(s, x);
    } else {
      MaxExists(rest);
      var m :| IsMax(rest, m);
      forall y | y in s ensures y <= if x > m then x else m {
        assert y == x || y in rest;
      }
      assert IsMax(s, if x > m then x else m);
    }
  }

  /** The greatest committed height, 0 if there is none. */
  ghost function TopHeight(q: Queue, threadId: string): int {
    if Heights(q, threadId) == {} then 0
    else MaxExists(Heights(q, threadId)); var m :| IsMax(Heights(q, threadId), m); m
  }

  lemma TopIs(q: Queue, threadId: string, m: int)
    requires IsMax(Heights(q, threadId), m)
    ensures TopHeight(q, threadId) == m
  {
  }

  function TipHash(q: Queue, threadId: string, top: int): Hash {
    var key := BlockKey(threadId, top);
    if key in q.blocks then q.blocks[key].blockHash else NIL
  }

  /** Height and parent that the transaction allocates. */
  ghost function NextSlot(q: Queue, threadId: string): (int, Hash) {
    if Heights(q, threadId) == {} then (1, NIL)
    else (TopHeight(q, threadId) + 1, TipHash(q, threadId, TopHeight(q, threadId)))
  }

  datatype AppendResult = Appended(block: Block) | NoBlockFilled | HeightTaken

  /** Insert the block that was filled in, and drop the pending rows it acknowledges: all or nothing. */
  function InsertAndAck(q: Queue, ids: seq<nat>, filled: Option<Block>): (Queue, AppendResult) {
    if filled == None then (q, NoBlockFilled)
    else
      var b := filled.value;
      var key := BlockKey(b.threadId, b.height);
      if key in q.blocks then (q, HeightTaken)
      else
        (q.(blocks := q.blocks[key := Stored(b)],
            pending := q.pending - IdSet(ids),
            claims := q.claims - IdSet(ids)), Appended(b))
  }

  ghost function Append(q: Queue, threadId: string, ids: seq<nat>, fill: (int, Hash) -> Option<Block>)
    : (Queue, AppendResult)
  {
    var (height, parent) := NextSlot(q, threadId);
    InsertAndAck(q, ids, fill(height, parent))
  }

  // ----- the store as it runs

  class PendingStore {
    var q: Queue

    constructor ()
      ensures q == EMPTY
    {
      q := EMPTY;
    }

    method EnqueueEntry(threadId: string, entry: Entry, now: int)
      modifies this
      ensures q == Enqueue(old(q), threadId, entry, now)
    {
      q := q.(pending := q.pending[q.nextId := PendingRow(threadId, entry, now)], nextId := q.nextId + 1);
    }

    /** `ClaimPendingEntries`: read the oldest free rows, then insert their claims. */
    method ClaimPendingEntries(threadId: string, limit: nat) returns (ids: seq<nat>, entries: seq<Entry>)
      modifies this
      ensures IsBatch(old(q), threadId, limit, ids) && q == ClaimIds(old(q), ids)
      ensures entries == EntriesOf(old(q), ids)
    {
      ids := SelectBatch(q, threadId, limit);
      entries := [];
      for i := 0 to |ids|
        invariant q == ClaimIds(old(q), ids[..i])
        invariant forall id :: id in ids ==> id in old(q).pending
        invariant entries == EntriesOf(old(q), ids[..i])
      {
        assert ids[..i + 1] == ids[..i] + [ids[i]];
        assert ids[i] in ids;
        entries := entries + [q.pending[ids[i]].entry];
        q := q.(claims := q.claims + {ids[i]});
      }
      assert ids[..|ids|] == ids;
    }

    method ReleasePendingClaims(threadId: string)
      modifies this
      ensures q == ReleaseThread(old(q), threadId)
    {
      q := q.(claims := set id | id in q.claims && !(id in q.pending && q.pending[id].threadId == threadId));
    }

    method ReleasePendingClaimIDs(ids: seq<nat>)
      modifies this
      ensures q == ReleaseIds(old(q), ids)
    {
      for i := 0 to |ids|
        invariant q == ReleaseIds(old(q), ids[..i])
      {
        assert ids[..i + 1] == ids[..i] + [ids[i]];
        q := q.(claims := q.claims - {ids[i]});
      }
      assert ids[..|ids|] == ids;
    }

    /** `AppendBlockAndAckPending`: allocate height and parent, fill the block, insert it and delete the
        acknowledged rows, in one transaction. */
    method AppendBlockAndAckPending(threadId: string, ids: seq<nat>, fill: (int, Hash) -> Option<Block>)
      returns (r: AppendResult)
      modifies this
      ensures (q, r) == Append(old(q), threadId, ids, fill)
    {
      var height, parentHash := AllocateSlot(q, threadId);
      var filled := fill(height, parentHash);
      if filled == None {
        return NoBlockFilled;
      }
      var b := filled.value;
      var key := BlockKey(b.threadId, b.height);
      if key in q.blocks {
        return HeightTaken;
      }
      q := q.(blocks := q.blocks[key := Stored(b)]);
      for i := 0 to |ids|
        invariant q == old(q).(blocks := old(q).blocks[key := Stored(b)],
                               pending := old(q).pending - IdSet(ids[..i]),
                               claims := old(q).claims - IdSet(ids[..i]))
      {
        assert ids[..i + 1] == ids[..i] + [ids[i]];
        q := q.(pending := q.pending - {ids[i]}, claims := q.claims - {ids[i]});
      }
      assert ids[..|ids|] == ids;
      return Appended(b);
    }
  }

  /** The MAX(height) query and the parent lookup. */
  method AllocateSlot(q: Queue, threadId: string) returns (height: int, parentHash: Hash)
    ensures (height, parentHash) == NextSlot(q, threadId)
  {
    var max: Option<int> := None;
    var rest := q.blocks.Keys;
    while rest != {}
      invariant rest <= q.blocks.Keys
      invariant max == None ==>
                  forall k :: k in q.blocks && k !in rest ==> !(k.threadId == threadId && q.blocks[k].committedAt > 0)
      invariant max.Some? ==>
                  && max.value in Heights(q, threadId)
                  && forall k :: k in q.blocks && k !in rest
                                 && k.threadId == threadId && q.blocks[k].committedAt > 0 ==>
                       k.height <= max.value
      decreases rest
    {
      var k :| k in rest;
      if k.threadId == threadId && q.blocks[k].committedAt > 0 && (max == None || max.value < k.height) {
        max := Some(k.height);
      }
      rest := rest - {k};
    }
    if max == None {
      assert Heights(q, threadId) == {};
      return 1, NIL;
    }
    assert IsMax(Heights(q, threadId), max.value);
    TopIs(q, threadId, max.value);
    return max.value + 1, TipHash(q, threadId, max.value);
  }

  /** The claiming query: take the oldest free row until none is left or the limit is reached. */
  method SelectBatch(q: Queue, threadId: string, limit: nat) returns (ids: seq<nat>)
    ensures IsBatch(q, threadId, limit, ids)
  {
    ids := [];
    var rest := set id | id in q.pending && Free(q, threadId, id);
    while rest != {} && |ids| < limit
      invariant |ids| <= limit
      invariant forall id :: id in ids ==> Free(q, threadId, id)
      invariant forall id :: id in rest <==> Free(q, threadId, id) && id !in ids
      invariant forall i :: 0 <= i < |ids| ==> ids[i] in q.pending
      invariant forall i, j :: 0 <= i < j < |ids| ==>
                  ids[i] != ids[j] && q.pending[ids[i]].submittedAt <= q.pending[ids[j]].submittedAt
      invariant forall id, x :: id in ids && x in rest ==> q.pending[id].submittedAt <= q.pending[x].submittedAt
      decreases rest
    {
      var id := Oldest(q, rest);
      ids := ids + [id];
      rest := rest - {id};
    }
  }

  method Oldest(q: Queue, ids: set<nat>) returns (id: nat)
    requires ids != {} && forall x :: x in ids ==> x in q.pending
    ensures id in ids && forall x :: x in ids ==> q.pending[id].submittedAt <= q.pending[x].submittedAt
  {
    id :| id in ids;
    var rest := ids - {id};
    while rest != {}
      invariant id in ids && rest <= ids
      invariant forall x :: x in ids && x !in rest ==> q.pending[id].submittedAt <= q.pending[x].submittedAt
      decreases rest
    {
      var x :| x in rest;
      if q.pending[x].submittedAt < q.pending[id].submittedAt {
        id := x;
      }
      rest := rest - {x};
    }
  }
}
