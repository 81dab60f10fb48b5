/** One Raft replica of a thread: it enqueues entries, claims and proposes them, and commits what the
    Raft log hands back, in any order and possibly repeatedly. The log itself belongs to a library and is
    only known to return proposals that were made. */
module RaftReplica {
  import opened ThreadTypes
  import opened PendingQueue
  import Chain
  import Quorums

  datatype Setup = Setup(threadId: string, self: Did, hash: Content -> Hash)

  datatype RaftProposal = RaftProposal(ids: seq<nat>, entries: seq<Entry>, owner: Did)

  const MAX_ENTRIES := 64

  /** `log`: proposals that may be committed. `chain`: the blocks `commitBlock` returned so far.
      `batches`: what was claimed since the last release. */
  datatype Replica = Replica(q: Queue, log: set<RaftProposal>, chain: seq<Block>, batches: seq<set<nat>>)

  datatype Event =
    | Accept(threadId: string, entry: Entry, now: int)
    | ProposePending(ids: seq<nat>, ok: bool)
    | Receive(p: RaftProposal)
    | Restart
    | CommitEntry(p: RaftProposal, term: int, now: int)

  function RaftHash(cfg: Setup): Block -> Hash {
    b => cfg.hash(RaftContentOf(b))
  }

  /** The closure of `commitBlock`. An entry from before owners were recorded counts as the replica's own. */
  function Fill(cfg: Setup, p: RaftProposal, term: int, now: int): (int, Hash) -> Option<Block> {
    (height, parent) =>
      var owner := if p.owner == "" then cfg.self else p.owner;
      var b := Block(cfg.threadId, height, term, parent, p.entries, owner, "", NIL, now);
      Some(b.(blockHash := RaftHash(cfg)(b)))
  }

  /** Only the replica's own proposals acknowledge rows of its queue. */
  function AckIds(cfg: Setup, p: RaftProposal): seq<nat> {
    if p.owner == "" || p.owner == cfg.self then p.ids else []
  }

  ghost predicate Enabled(cfg: Setup, s: Replica, ev: Event) {
    match ev
    case Accept(_, _, _) => true
    case ProposePending(ids, _) => IsBatch(s.q, cfg.threadId, MAX_ENTRIES, ids)
    case Receive(p) => if p.owner == "" then p.ids == [] else p.owner != cfg.self
    case Restart => true
    case CommitEntry(p, _, now) => p in s.log && now > 0
  }

  ghost function Apply(cfg: Setup, s: Replica, ev: Event): Replica
    requires Enabled(cfg, s, ev)
  {
    match ev
    case Accept(threadId, entry, now) => s.(q := Enqueue(s.q, threadId, entry, now))
    case ProposePending(ids, ok) =>
      if ids == [] then s
      else
        var log := s.log + {RaftProposal(ids, EntriesOf(s.q, ids), cfg.self)};
        if ok then s.(q := ClaimIds(s.q, ids), log := log, batches := s.batches + [IdSet(ids)])
        else s.(q := ReleaseIds(ClaimIds(s.q, ids), ids), log := log)
    case Receive(p) => s.(log := s.log + {p})
    case Restart => s.(q := ReleaseThread(s.q, cfg.threadId), batches := [])
    case CommitEntry(p, term, now) =>
      var (q, r) := Append(s.q, cfg.threadId, AckIds(cfg, p), Fill(cfg, p, term, now));
      if r.Appended? then s.(q := q, chain := s.chain + [r.block]) else s.(q := q)
  }

  ghost predicate IsTrace(cfg: Setup, trace: seq<Replica>, evs: seq<Event>) {
    && |trace| == |evs| + 1 && trace[0] == Replica(EMPTY, {}, [], [])
    && forall i: nat :: i < |evs| ==> IsStep(cfg, trace, evs, i)
  }

  ghost predicate IsStep(cfg: Setup, trace: seq<Replica>, evs: seq<Event>, i: nat)
    requires i < |evs| && |trace| == |evs| + 1
  {
    Leads(cfg, trace[i], evs[i], trace[i + 1])
  }

  ghost predicate Leads(cfg: Setup, s: Replica, ev: Event, s': Replica) {
    Enabled(cfg, s, ev) && s' == Apply(cfg, s, ev)
  }

  // ----- invariants

  ghost predicate IdsKnown(q: Queue) {
    (forall id :: id in q.pending ==> id < q.nextId) && (forall id :: id in q.claims ==> id < q.nextId)
  }

  /** The proposal names its rows: whatever row of it is still pending holds the entry it proposes. */
  ghost predicate Names(q: Queue, p: RaftProposal) {
    |p.ids| == |p.entries|
    && forall k :: 0 <= k < |p.ids| ==>
         p.ids[k] < q.nextId && (p.ids[k] in q.pending ==> q.pending[p.ids[k]].entry == p.entries[k])
  }

  ghost predicate LogOK(cfg: Setup, s: Replica) {
    forall p {:trigger Names(s.q, p)} :: p in s.log ==> AckIds(cfg, p) == [] || Names(s.q, p)
  }

  /** The table row of height i+1 is the i-th returned block. */
  ghost predicate RowIs(cfg: Setup, s: Replica, i: nat)
    requires i < |s.chain|
  {
    var key := BlockKey(cfg.threadId, i + 1);
    key in s.q.blocks && s.q.blocks[key] == Stored(s.chain[i]) && s.chain[i].committedAt > 0
  }

  /** The block table of the thread is exactly the returned chain. */
  ghost predicate TableIsChain(cfg: Setup, s: Replica) {
    && (forall i: nat :: i < |s.chain| ==> RowIs(cfg, s, i))
    && (forall k :: k in s.q.blocks && k.threadId == cfg.threadId ==> 1 <= k.height <= |s.chain|)
    && Chain.LinksOK(RaftHash(cfg), s.chain)
  }

  /** A claimed batch that was not released: each row is claimed, or already acknowledged. */
  ghost predicate BatchHeld(q: Queue, b: set<nat>) {
    forall id :: id in b ==> id < q.nextId && (id in q.pending ==> id in q.claims)
  }

  ghost predicate BatchesOK(s: Replica) {
    && (forall i :: 0 <= i < |s.batches| ==> BatchHeld(s.q, s.batches[i]))
    && (forall i, j :: 0 <= i < j < |s.batches| ==> s.batches[i] !! s.batches[j])
  }

  ghost predicate Inv(cfg: Setup, s: Replica) {
    IdsKnown(s.q) && LogOK(cfg, s) && TableIsChain(cfg, s) && BatchesOK(s)
  }

  lemma ClaimReleaseUndo(q: Queue, ids: seq<nat>)
    requires forall id :: id in ids ==> id !in q.claims
    ensures ReleaseIds(ClaimIds(q, ids), ids) == q
  {
    assert (q.claims + IdSet(ids)) - IdSet(ids) == q.claims;
  }

  /** A commit appends at the next height, on top of the chain. */
  lemma SlotIsNext(cfg: Setup, s: Replica)
    requires TableIsChain(cfg, s)
    ensures NextSlot(s.q, cfg.threadId) == (|s.chain| + 1, Chain.Tip(s.chain))
  {
    var hs := Heights(s.q, cfg.threadId);
    if s.chain == [] {
      assert hs == {};
    } else {
      var n := |s.chain|;
      assert RowIs(cfg, s, n - 1);
      assert BlockKey(cfg.threadId, n) in s.q.blocks;
      assert n in hs;
      assert IsMax(hs, n);
      TopIs(s.q, cfg.threadId, n);
    }
  }

  lemma CommitAppends(cfg: Setup, s: Replica, p: RaftProposal, term: int, now: int)
    requires TableIsChain(cfg, s)
    ensures var (q, r) := Append(s.q, cfg.threadId, AckIds(cfg, p), Fill(cfg, p, term, now));
            && r.Appended? && Fill(cfg, p, term, now)(|s.chain| + 1, Chain.Tip(s.chain)) == Some(r.block)
            && q == s.q.(blocks := s.q.blocks[BlockKey(cfg.threadId, |s.chain| + 1) := Stored(r.block)],
                         pending := s.q.pending - IdSet(AckIds(cfg, p)), claims := s.q.claims - IdSet(AckIds(cfg, p)))
  {
    SlotIsNext(cfg, s);
  }

  lemma CommitKeepsTable(cfg: Setup, s: Replica, p: RaftProposal, term: int, now: int)
    requires TableIsChain(cfg, s) && p in s.log && now > 0
    ensures TableIsChain(cfg, Apply(cfg, s, CommitEntry(p, term, now)))
  {
    var s' := Apply(cfg, s, CommitEntry(p, term, now));
    CommitAppends(cfg, s, p, term, now);
    var n := |s.chain|;
    var b := s'.chain[n];
    assert RaftContentOf(b.(blockHash := NIL)) == RaftContentOf(b);
    forall i: nat | i <= n ensures RowIs(cfg, s', i) && Chain.LinkOK(RaftHash(cfg), s'.chain, i) {
      if i < n {
        assert RowIs(cfg, s, i) && Chain.LinkOK(RaftHash(cfg), s.chain, i);
      }
    }
  }

  lemma TableStays(cfg: Setup, s: Replica, s': Replica)
    requires TableIsChain(cfg, s) && s'.chain == s.chain && s'.q.blocks == s.q.blocks
    ensures TableIsChain(cfg, s')
  {
    forall i: nat | i < |s'.chain| ensures RowIs(cfg, s', i) {
      assert RowIs(cfg, s, i);
    }
  }

  lemma LogStays(cfg: Setup, s: Replica, ev: Event)
    requires Inv(cfg, s) && Enabled(cfg, s, ev)
    ensures LogOK(cfg, Apply(cfg, s, ev))
  {
    var s' := Apply(cfg, s, ev);
    if ev.CommitEntry? { CommitAppends(cfg, s, ev.p, ev.term, ev.now); }
    forall p | p in s'.log && AckIds(cfg, p) != [] ensures Names(s'.q, p) {
      if p in s.log {
        assert Names(s.q, p);
      } else {
        assert forall k :: 0 <= k < |p.ids| ==> p.ids[k] in ev.ids;
      }
    }
  }

  lemma BatchesStay(cfg: Setup, s: Replica, ev: Event)
    requires Inv(cfg, s) && Enabled(cfg, s, ev)
    ensures BatchesOK(Apply(cfg, s, ev))
  {
    var s' := Apply(cfg, s, ev);
    match ev {
      case ProposePending(ids, ok) =>
        ClaimReleaseUndo(s.q, ids);
        if ok && ids != [] {
          forall i | 0 <= i < |s.batches| ensures s.batches[i] !! IdSet(ids) && BatchHeld(s'.q, s.batches[i]) {
            assert BatchHeld(s.q, s.batches[i]);
          }
          assert BatchHeld(s'.q, IdSet(ids));
        }
      case CommitEntry(p, term, now) =>
        CommitAppends(cfg, s, p, term, now);
        forall i | 0 <= i < |s.batches| ensures BatchHeld(s'.q, s.batches[i]) {
          assert BatchHeld(s.q, s.batches[i]);
        }
      case Accept(_, _, _) =>
        forall i | 0 <= i < |s.batches| ensures BatchHeld(s'.q, s.batches[i]) {
          assert BatchHeld(s.q, s.batches[i]);
        }
      case Receive(_) =>
      case Restart =>
    }
  }

  lemma InvStep(cfg: Setup, s: Replica, ev: Event)
    requires Inv(cfg, s) && Enabled(cfg, s, ev)
    ensures Inv(cfg, Apply(cfg, s, ev))
  {
    LogStays(cfg, s, ev);
    BatchesStay(cfg, s, ev);
    if ev.CommitEntry? {
      CommitAppends(cfg, s, ev.p, ev.term, ev.now);
      CommitKeepsTable(cfg, s, ev.p, ev.term, ev.now);
    } else {
      TableStays(cfg, s, Apply(cfg, s, ev));
    }
  }

  lemma {:induction false} InvAlways(cfg: Setup, trace: seq<Replica>, evs: seq<Event>, i: nat)
    requires IsTrace(cfg, trace, evs) && i < |trace|
    ensures Inv(cfg, trace[i])
  {
    if i > 0 {
      InvAlways(cfg, trace, evs, i - 1);
      assert IsStep(cfg, trace, evs, i - 1);
      InvStep(cfg, trace[i - 1], evs[i - 1]);
    }
  }

  // ----- what a commit appends

  /** b is the block for the log entry p, on top of the chain. */
  ghost predicate IsBlockFor(cfg: Setup, chain: seq<Block>, p: RaftProposal, term: int, now: int, b: Block) {
    && b.threadId == cfg.threadId && b.height == |chain| + 1 && b.round == term && b.committedAt == now
    && b.parentHash == (if chain == [] then NIL else chain[|chain| - 1].blockHash)
    && b.entries == p.entries && b.proposerDid == (if p.owner == "" then cfg.self else p.owner)
    && b.blockHash == cfg.hash(Content(b.threadId, b.height, b.round, b.parentHash, b.entries, b.proposerDid))
  }

  predicate IsOwn(cfg: Setup, p: RaftProposal) {
    p.owner == "" || p.owner == cfg.self
  }

  /** A commit appends the block for its entry and writes its row. The rows that the replica's own proposal names leave
      the queue with their claims; another replica's proposal leaves the queue alone. */
  lemma CommitOutcome(cfg: Setup, s: Replica, p: RaftProposal, term: int, now: int)
    requires TableIsChain(cfg, s) && p in s.log && now > 0
    ensures var s' := Apply(cfg, s, CommitEntry(p, term, now));
            && |s'.chain| == |s.chain| + 1 && s.chain <= s'.chain
            && IsBlockFor(cfg, s.chain, p, term, now, s'.chain[|s.chain|])
            && s'.q.blocks == s.q.blocks[BlockKey(cfg.threadId, |s'.chain|) := Stored(s'.chain[|s.chain|])]
            && s'.q.nextId == s.q.nextId && s'.log == s.log && s'.batches == s.batches
            && (forall id :: id in s'.q.pending <==> id in s.q.pending && !(IsOwn(cfg, p) && id in p.ids))
            && (forall id :: id in s'.q.pending ==> s'.q.pending[id] == s.q.pending[id])
            && (forall id :: id in s'.q.claims <==> id in s.q.claims && !(IsOwn(cfg, p) && id in p.ids))
  {
    CommitAppends(cfg, s, p, term, now);
    var s' := Apply(cfg, s, CommitEntry(p, term, now));
    var b := s'.chain[|s.chain|];
    assert RaftContentOf(b.(blockHash := NIL)) == RaftContentOf(b);
  }

  // ----- no lost entries

  /** A pending row disappears only in the step that appends a block containing its entry. */
  lemma RowLeavesIntoBlock(cfg: Setup, s: Replica, ev: Event, id: nat)
    requires Inv(cfg, s) && Enabled(cfg, s, ev) && id in s.q.pending && id !in Apply(cfg, s, ev).q.pending
    ensures ev.CommitEntry?
    ensures var s' := Apply(cfg, s, ev);
            |s'.chain| == |s.chain| + 1 && s.q.pending[id].entry in s'.chain[|s.chain|].entries
  {
    CommitAppends(cfg, s, ev.p, ev.term, ev.now);
    assert Names(s.q, ev.p);
    var k :| 0 <= k < |ev.p.ids| && ev.p.ids[k] == id;
    assert ev.p.entries[k] == s.q.pending[id].entry;
  }

  ghost predicate InChain(chain: seq<Block>, e: Entry) {
    exists b :: b in chain && e in b.entries
  }

  lemma ChainOnlyGrows(cfg: Setup, s: Replica, ev: Event)
    requires Inv(cfg, s) && Enabled(cfg, s, ev)
    ensures s.chain <= Apply(cfg, s, ev).chain
    ensures forall id :: id in s.q.pending && id in Apply(cfg, s, ev).q.pending ==>
              Apply(cfg, s, ev).q.pending[id] == s.q.pending[id]
    ensures forall e :: InChain(s.chain, e) ==> InChain(Apply(cfg, s, ev).chain, e)
  {
    if ev.CommitEntry? {
      CommitAppends(cfg, s, ev.p, ev.term, ev.now);
    }
    forall e | InChain(s.chain, e) ensures InChain(Apply(cfg, s, ev).chain, e) {
      var b :| b in s.chain && e in b.entries;
      assert b in Apply(cfg, s, ev).chain;
    }
  }

  /** How often an entry stands in a chain. */
  function Occurrences(chain: seq<Block>, e: Entry): nat {
    if chain == [] then 0 else Occurrences(chain[..|chain| - 1], e) + multiset(chain[|chain| - 1].entries)[e]
  }

  /** The rows with this entry that are pending in q and no longer in q'. */
  function Gone(q: Queue, q': Queue, e: Entry): set<nat> {
    set id | id in q.pending && id !in q'.pending && q.pending[id].entry == e
  }

  lemma CountLast(entries: seq<Entry>, e: Entry)
    requires entries != []
    ensures var n := |entries| - 1; multiset(entries)[e] == multiset(entries[..n])[e] + if entries[n] == e then 1 else 0
  {
    assert entries == entries[..|entries| - 1] + [entries[|entries| - 1]];
  }

  /** Distinct rows named in a proposal take up distinct positions of it. */
  lemma {:induction false} RowsAreCounted(ids: seq<nat>, entries: seq<Entry>, rows: set<nat>, e: Entry)
    requires |ids| == |entries| && rows <= IdSet(ids)
    requires forall k :: 0 <= k < |ids| && ids[k] in rows ==> entries[k] == e
    ensures |rows| <= multiset(entries)[e]
  {
    if ids == [] {
      assert rows == {};
    } else {
      var n := |ids| - 1;
      var rest := rows - {ids[n]};
      assert ids == ids[..n] + [ids[n]];
      RowsAreCounted(ids[..n], entries[..n], rest, e);
      CountLast(entries, e);
      if ids[n] in rows {
        assert rows == rest + {ids[n]};
      } else {
        assert rows == rest;
      }
    }
  }

  /** Every row that leaves in a commit is one more occurrence of its entry in the chain. */
  lemma CommitCounts(cfg: Setup, s: Replica, p: RaftProposal, term: int, now: int, e: Entry)
    requires TableIsChain(cfg, s) && LogOK(cfg, s) && p in s.log && now > 0
    ensures var s' := Apply(cfg, s, CommitEntry(p, term, now));
            Occurrences(s'.chain, e) >= Occurrences(s.chain, e) + |Gone(s.q, s'.q, e)|
  {
    CommitOutcome(cfg, s, p, term, now);
    var s' := Apply(cfg, s, CommitEntry(p, term, now));
    assert s'.chain[..|s'.chain| - 1] == s.chain;
    if Gone(s.q, s'.q, e) != {} {
      assert AckIds(cfg, p) != [] && Names(s.q, p);
      RowsAreCounted(p.ids, p.entries, Gone(s.q, s'.q, e), e);
    }
  }

  lemma LeavingIsCounted(cfg: Setup, s: Replica, ev: Event, e: Entry)
    requires Inv(cfg, s) && Enabled(cfg, s, ev)
    ensures var s' := Apply(cfg, s, ev);
            Occurrences(s'.chain, e) >= Occurrences(s.chain, e) + |Gone(s.q, s'.q, e)|
  {
    if ev.CommitEntry? {
      CommitCounts(cfg, s, ev.p, ev.term, ev.now, e);
    } else {
      assert Gone(s.q, Apply(cfg, s, ev).q, e) == {};
    }
  }

  lemma UnionBound(x: set<nat>, a: set<nat>, b: set<nat>)
    requires x <= a + b
    ensures |x| <= |a| + |b|
  {
    Quorums.SubsetCard(x, a + (b - a));
    Quorums.SubsetCard(b - a, b);
    assert a * (b - a) == {};
  }

  /** Rows of q that are still pending in q' are the same rows, and their ids are not given out again. */
  ghost predicate Ages(q: Queue, q': Queue) {
    forall id :: id in q.pending ==> id < q'.nextId && (id in q'.pending ==> q'.pending[id] == q.pending[id])
  }

  lemma AgesStep(cfg: Setup, s: Replica, ev: Event, q: Queue)
    requires Inv(cfg, s) && Enabled(cfg, s, ev) && Ages(q, s.q)
    ensures Ages(q, Apply(cfg, s, ev).q) && Ages(s.q, Apply(cfg, s, ev).q)
  {
    ChainOnlyGrows(cfg, s, ev);
    if ev.CommitEntry? { CommitAppends(cfg, s, ev.p, ev.term, ev.now); }
  }

  lemma GoneGrows(q: Queue, r: Queue, q': Queue, e: Entry)
    requires Ages(q, r) && Ages(r, q')
    ensures |Gone(q, q', e)| <= |Gone(q, r, e)| + |Gone(r, q', e)|
  {
    UnionBound(Gone(q, q', e), Gone(q, r, e), Gone(r, q', e));
  }

  /** Over every run of enqueues, claims, releases, restarts and commits, with multiplicity: the rows with one
      entry that have left since point i are matched by as many new occurrences of the entry in the chain. */
  lemma {:induction false} LeftRowsAreInChain(cfg: Setup, trace: seq<Replica>, evs: seq<Event>, i: nat, j: nat,
                                              e: Entry)
    requires IsTrace(cfg, trace, evs) && i <= j < |trace|
    ensures Ages(trace[i].q, trace[j].q)
    ensures Occurrences(trace[j].chain, e) >= Occurrences(trace[i].chain, e) + |Gone(trace[i].q, trace[j].q, e)|
  {
    if i == j {
      InvAlways(cfg, trace, evs, i);
      assert Gone(trace[i].q, trace[j].q, e) == {};
    } else {
      LeftRowsAreInChain(cfg, trace, evs, i, j - 1, e);
      InvAlways(cfg, trace, evs, j - 1);
      assert IsStep(cfg, trace, evs, j - 1);
      AgesStep(cfg, trace[j - 1], evs[j - 1], trace[i].q);
      GoneGrows(trace[i].q, trace[j - 1].q, trace[j].q, e);
      LeavingIsCounted(cfg, trace[j - 1], evs[j - 1], e);
    }
  }

  /** In particular an accepted entry is still pending or it is in the committed chain. */
  lemma {:induction false} EntryNeverLost(cfg: Setup, trace: seq<Replica>, evs: seq<Event>, i: nat, j: nat, id: nat)
    requires IsTrace(cfg, trace, evs) && i <= j < |trace| && id in trace[i].q.pending
    ensures || (id in trace[j].q.pending && trace[j].q.pending[id] == trace[i].q.pending[id])
            || InChain(trace[j].chain, trace[i].q.pending[id].entry)
  {
    if i < j {
      EntryNeverLost(cfg, trace, evs, i, j - 1, id);
      InvAlways(cfg, trace, evs, j - 1);
      assert IsStep(cfg, trace, evs, j - 1);
      var s, ev := trace[j - 1], evs[j - 1];
      ChainOnlyGrows(cfg, s, ev);
      if id in s.q.pending && id !in trace[j].q.pending {
        RowLeavesIntoBlock(cfg, s, ev, id);
        assert trace[j].chain[|s.chain|] in trace[j].chain;
      }
    }
  }

  /** Between releases the claimed batches are pairwise disjoint. */
  lemma BatchesDisjoint(cfg: Setup, trace: seq<Replica>, evs: seq<Event>, i: nat, a: nat, b: nat)
    requires IsTrace(cfg, trace, evs) && i < |trace| && a < b < |trace[i].batches|
    ensures trace[i].batches[a] !! trace[i].batches[b]
  {
    InvAlways(cfg, trace, evs, i);
  }

  // ----- the chain

  /** Any run of commits yields heights 1..k without gap, and the returned blocks pass `VerifyChain`. */
  lemma ReturnedChainVerifies(cfg: Setup, trace: seq<Replica>, evs: seq<Event>, i: nat)
    requires IsTrace(cfg, trace, evs) && i < |trace|
    ensures trace[i].chain != [] ==> Chain.ChainOK(RaftHash(cfg), trace[i].chain)
    ensures forall k: nat :: k < |trace[i].chain| ==> RowIs(cfg, trace[i], k)
    ensures forall key :: key in trace[i].q.blocks && key.threadId == cfg.threadId ==>
              1 <= key.height <= |trace[i].chain|
  {
    InvAlways(cfg, trace, evs, i);
  }

  /** No block is ever overwritten or dropped: the chain only grows at its end. */
  lemma {:induction false} ChainIsAppendOnly(cfg: Setup, trace: seq<Replica>, evs: seq<Event>, i: nat, j: nat)
    requires IsTrace(cfg, trace, evs) && i <= j < |trace|
    ensures trace[i].chain <= trace[j].chain
  {
    if i < j {
      ChainIsAppendOnly(cfg, trace, evs, i, j - 1);
      InvAlways(cfg, trace, evs, j - 1);
      assert IsStep(cfg, trace, evs, j - 1);
      ChainOnlyGrows(cfg, trace[j - 1], evs[j - 1]);
    }
  }

  /** The table keeps five fields of an entry but the Raft hash covers all of them, so a block read back
      from the table carries its own hash if and only if its entries have no further fields. */
  lemma StoredBlockVerifiesIff(cfg: Setup, b: Block)
    requires b.blockHash == RaftHash(cfg)(b)
    requires cfg.hash(RaftContentOf(b)) == cfg.hash(RaftContentOf(Stored(b))) ==>
               RaftContentOf(b) == RaftContentOf(Stored(b))
    ensures RaftHash(cfg)(Stored(b)) == Stored(b).blockHash <==> forall e :: e in b.entries ==> e.envelope == ""
  {
    if forall e :: e in b.entries ==> e.envelope == "" {
      assert StripAll(b.entries) == b.entries;
    } else {
      var e :| e in b.entries && e.envelope != "";
      var i :| 0 <= i < |b.entries| && b.entries[i] == e;
      assert StripAll(b.entries)[i] != b.entries[i];
    }
  }

  // ----- the backend as it runs

  lemma Longer(cfg: Setup, trace: seq<Replica>, evs: seq<Event>, ev: Event, next: Replica)
    requires IsTrace(cfg, trace, evs) && Leads(cfg, trace[|evs|], ev, next)
    ensures IsTrace(cfg, trace + [next], evs + [ev])
  {
    var trace', evs' := trace + [next], evs + [ev];
    forall i: nat | i < |evs'| ensures IsStep(cfg, trace', evs', i) {
      if i < |evs| {
        assert IsStep(cfg, trace, evs, i);
      }
    }
  }

  /** Drives the store; what it hands to and gets from the Raft library is recorded in ghost fields. Whatever is
      done with the object, in any order, is a run. */
  class RaftBackend {
    const cfg: Setup
    const store: PendingStore
    ghost var log: set<RaftProposal>
    ghost var chain: seq<Block>
    ghost var batches: seq<set<nat>>
    ghost var trace: seq<Replica>
    ghost var evs: seq<Event>

    ghost function Model(): Replica
      reads this, store
    {
      Replica(store.q, log, chain, batches)
    }

    ghost predicate Valid()
      reads this, store
    {
      IsTrace(cfg, trace, evs) && trace[|evs|] == Model()
    }

    constructor (cfg: Setup)
      ensures this.cfg == cfg && fresh(store) && Valid() && evs == []
    {
      this.cfg := cfg;
      store := new PendingStore();
      log, chain, batches := {}, [], [];
      trace, evs := [Replica(EMPTY, {}, [], [])], [];
    }

    ghost method Record(ev: Event)
      requires IsTrace(cfg, trace, evs) && Leads(cfg, trace[|evs|], ev, Model())
      modifies `trace, `evs
      ensures Valid() && evs == old(evs) + [ev] && old(trace) <= trace
    {
      Longer(cfg, trace, evs, ev, Model());
      trace, evs := trace + [Model()], evs + [ev];
    }

    method AcceptEntry(threadId: string, entry: Entry, now: int)
      requires Valid()
      modifies this, store
      ensures Valid() && evs == old(evs) + [Accept(threadId, entry, now)] && old(trace) <= trace
    {
      store.EnqueueEntry(threadId, entry, now);
      Record(Accept(threadId, entry, now));
    }

    /** Rebuilding the backend over its store gives up every claim of the thread. */
    method Rebuild()
      requires Valid()
      modifies this, store
      ensures Valid() && evs == old(evs) + [Restart] && old(trace) <= trace
    {
      store.ReleasePendingClaims(cfg.threadId);
      batches := [];
      Record(Restart);
    }

    /** `accepted`: the library took the proposal. A batch it refused is released again, although the
        proposal may still have reached the log. */
    method ProposePending(leaderKnown: bool, accepted: bool)
      returns (proposal: Option<RaftProposal>, ghost ids: seq<nat>)
      requires Valid()
      modifies this, store
      ensures Valid() && old(trace) <= trace
      ensures !leaderKnown ==> proposal == None && Model() == old(Model()) && evs == old(evs)
      ensures leaderKnown ==> evs == old(evs) + [Event.ProposePending(ids, accepted)] && (proposal.Some? <==> ids != [])
      ensures proposal.Some? ==>
                && proposal.value.ids == ids && proposal.value.owner == cfg.self
                && |proposal.value.entries| == |ids| <= 64
                && forall k :: 0 <= k < |ids| ==>
                     ids[k] in old(store.q.pending) && proposal.value.entries[k] == old(store.q.pending)[ids[k]].entry
    {
      proposal, ids := None, [];
      if !leaderKnown {
        return;
      }
      var claimed, entries := store.ClaimPendingEntries(cfg.threadId, MAX_ENTRIES);
      ids := claimed;
      if claimed == [] {
        assert store.q == old(store.q);
      } else {
        proposal := Some(RaftProposal(claimed, entries, cfg.self));
        log := log + {proposal.value};
        if accepted {
          batches := batches + [IdSet(claimed)];
        } else {
          store.ReleasePendingClaimIDs(claimed);
        }
      }
      Record(Event.ProposePending(ids, accepted));
    }

    /** Another replica's proposal enters the log. */
    ghost method Receive(p: RaftProposal)
      requires Valid() && Enabled(cfg, Model(), Event.Receive(p))
      modifies this
      ensures Valid() && evs == old(evs) + [Event.Receive(p)] && old(trace) <= trace
    {
      log := log + {p};
      Record(Event.Receive(p));
    }

    /** A log entry that was committed: fill in the owner, keep only one's own row ids, append the block. */
    method CommitEntry(p: RaftProposal, term: int, now: int) returns (block: Option<Block>)
      requires Valid() && Enabled(cfg, Model(), Event.CommitEntry(p, term, now))
      modifies this, store
      ensures Valid() && evs == old(evs) + [Event.CommitEntry(p, term, now)] && old(trace) <= trace
      ensures block.Some? && chain == old(chain) + [block.value]
      ensures IsBlockFor(cfg, old(chain), p, term, now, block.value)
      ensures forall id :: id in store.q.pending <==>
                id in old(store.q.pending) && !(IsOwn(cfg, p) && id in p.ids)
    {
      var owner := if p.owner == "" then cfg.self else p.owner;
      var pendingIds := p.ids;
      if owner != cfg.self {
        pendingIds := [];
      }
      var r := store.AppendBlockAndAckPending(cfg.threadId, pendingIds, Fill(cfg, p, term, now));
      block := None;
      if r.Appended? {
        block := Some(r.block);
        chain := chain + [r.block];
      }
      InvAlways(cfg, trace, evs, |evs|);
      CommitOutcome(cfg, trace[|evs|], p, term, now);
      Record(Event.CommitEntry(p, term, now));
    }

    /** For the object: the chain that its commits have returned passes `VerifyChain`. */
    lemma ChainVerifies()
      requires Valid() && chain != []
      ensures Chain.ChainOK(RaftHash(cfg), chain)
    {
      ReturnedChainVerifies(cfg, trace, evs, |evs|);
    }
  }
}
