/** What a proposal and a commit of a Raft replica hold, in terms of the queue and the log entry alone, and what follows
    for runs. */
module RaftOutcomes {
  import opened ThreadTypes
  import opened PendingQueue
  import opened RaftReplica
  import Chain

  // ----- the chain is the log

  /** The commits among the first i events, in order. */
  function Commits(evs: seq<Event>, i: nat): seq<Event>
    requires i <= |evs|
  {
    if i == 0 then [] else Commits(evs, i - 1) + if evs[i - 1].CommitEntry? then [evs[i - 1]] else []
  }

  /** Block k of the chain is the one for commit k. */
  ghost predicate IsBlockOf(cfg: Setup, chain: seq<Block>, commits: seq<Event>, k: nat)
    requires k < |chain| && k < |commits|
  {
    commits[k].CommitEntry? && IsBlockFor(cfg, chain[..k], commits[k].p, commits[k].term, commits[k].now, chain[k])
  }

  ghost predicate BlocksFor(cfg: Setup, chain: seq<Block>, commits: seq<Event>) {
    |chain| == |commits| && forall k: nat :: k < |chain| ==> IsBlockOf(cfg, chain, commits, k)
  }

  /** In every run the chain is the committed log, entry by entry: as many blocks as commits, and each block holds the
      entries, the owner, the term and the time of its commit, on top of the block before. */
  lemma {:induction false} ChainIsLog(cfg: Setup, trace: seq<Replica>, evs: seq<Event>, i: nat)
    requires IsTrace(cfg, trace, evs) && i < |trace|
    ensures BlocksFor(cfg, trace[i].chain, Commits(evs, i))
  {
    if i > 0 {
      ChainIsLog(cfg, trace, evs, i - 1);
      ChainNext(cfg, trace, evs, i);
    }
  }

  lemma ChainNext(cfg: Setup, trace: seq<Replica>, evs: seq<Event>, i: nat)
    requires IsTrace(cfg, trace, evs) && 0 < i < |trace| && BlocksFor(cfg, trace[i - 1].chain, Commits(evs, i - 1))
    ensures BlocksFor(cfg, trace[i].chain, Commits(evs, i))
  {
    InvAlways(cfg, trace, evs, i - 1);
    assert IsStep(cfg, trace, evs, i - 1);
    var s, s', ev := trace[i - 1], trace[i], evs[i - 1];
    if ev.CommitEntry? {
      CommitOutcome(cfg, s, ev.p, ev.term, ev.now);
      BlockAdded(cfg, s.chain, Commits(evs, i - 1), s'.chain, ev);
    } else {
      assert s'.chain == s.chain && Commits(evs, i) == Commits(evs, i - 1);
    }
  }

  lemma BlockAdded(cfg: Setup, chain: seq<Block>, commits: seq<Event>, chain': seq<Block>, ev: Event)
    requires BlocksFor(cfg, chain, commits) && chain <= chain' && |chain'| == |chain| + 1 && ev.CommitEntry?
    requires IsBlockFor(cfg, chain, ev.p, ev.term, ev.now, chain'[|chain|])
    ensures BlocksFor(cfg, chain', commits + [ev])
  {
    forall k: nat | k < |chain'| ensures IsBlockOf(cfg, chain', commits + [ev], k) {
      if k < |chain| {
        assert IsBlockOf(cfg, chain, commits, k);
        assert chain'[..k] == chain[..k];
      } else {
        assert chain'[..k] == chain;
      }
    }
  }

  // ----- proposals and claims

  /** An accepted entry becomes one more row, free to be claimed, under an id that no row, claim or proposal of the
      replica has had; nothing else changes. */
  lemma AcceptOutcome(cfg: Setup, s: Replica, threadId: string, entry: Entry, now: int) returns (id: nat)
    requires Inv(cfg, s)
    ensures var s' := Apply(cfg, s, Accept(threadId, entry, now));
            && s'.q.pending == s.q.pending[id := PendingRow(threadId, entry, now)] && Free(s'.q, threadId, id)
            && s'.q.claims == s.q.claims && s'.q.blocks == s.q.blocks && s'.chain == s.chain && s'.log == s.log
    ensures id !in s.q.pending && id !in s.q.claims
    ensures forall p :: p in s.log && IsOwn(cfg, p) ==> id !in p.ids
  {
    id := s.q.nextId;
    forall p | p in s.log && IsOwn(cfg, p) ensures id !in p.ids {
      if p.ids != [] {
        assert AckIds(cfg, p) != [] && Names(s.q, p);
      }
    }
  }

  /** A proposal names the rows of its batch in order, with their entries, under the replica's own name, and may be
      committed from then on. The batch is claimed if the library took the proposal; otherwise the queue is as it
      was. */
  lemma ProposeOutcome(cfg: Setup, s: Replica, ids: seq<nat>, ok: bool)
    requires IsBatch(s.q, cfg.threadId, MAX_ENTRIES, ids) && ids != []
    ensures var s' := Apply(cfg, s, ProposePending(ids, ok));
            && |ids| <= 64 && (|ids| < 64 ==> forall id :: Free(s.q, cfg.threadId, id) ==> id in ids)
            && s'.chain == s.chain && s'.q == s.q.(claims := s'.q.claims)
            && (exists p :: s'.log == s.log + {p} && IsProposalOf(cfg, s.q, ids, p))
            && s'.q.claims == (if ok then s.q.claims + IdSet(ids) else s.q.claims)
            && s'.batches == (if ok then s.batches + [IdSet(ids)] else s.batches)
  {
    ClaimReleaseUndo(s.q, ids);
    var p := RaftProposal(ids, EntriesOf(s.q, ids), cfg.self);
    assert IsProposalOf(cfg, s.q, ids, p);
    assert Apply(cfg, s, ProposePending(ids, ok)).log == s.log + {p};
  }

  ghost predicate IsProposalOf(cfg: Setup, q: Queue, ids: seq<nat>, p: RaftProposal) {
    && p.ids == ids && |p.entries| == |ids| && p.owner == cfg.self
    && forall k :: 0 <= k < |ids| ==> ids[k] in q.pending && p.entries[k] == q.pending[ids[k]].entry
  }

  /** Every claimed row of the thread belongs to a batch that was proposed since the last release. */
  ghost predicate ClaimsHaveBatches(cfg: Setup, s: Replica) {
    forall id :: id in s.q.claims && id in s.q.pending && s.q.pending[id].threadId == cfg.threadId ==>
      InBatch(s.batches, id)
  }

  ghost predicate InBatch(batches: seq<set<nat>>, id: nat) {
    exists k :: 0 <= k < |batches| && id in batches[k]
  }

  lemma ClaimsStep(cfg: Setup, s: Replica, ev: Event)
    requires Inv(cfg, s) && Enabled(cfg, s, ev) && ClaimsHaveBatches(cfg, s)
    ensures ClaimsHaveBatches(cfg, Apply(cfg, s, ev))
  {
    var s' := Apply(cfg, s, ev);
    if ev.CommitEntry? {
      CommitOutcome(cfg, s, ev.p, ev.term, ev.now);
    } else if ev.ProposePending? {
      ClaimReleaseUndo(s.q, ev.ids);
    }
    forall id | id in s'.q.claims && id in s'.q.pending && s'.q.pending[id].threadId == cfg.threadId
      ensures InBatch(s'.batches, id)
    {
      if id in s.q.claims {
        assert InBatch(s.batches, id);
        var k :| 0 <= k < |s.batches| && id in s.batches[k];
        assert !ev.Restart? ==> s'.batches[k] == s.batches[k];
      } else {
        assert id in s'.batches[|s'.batches| - 1];
      }
    }
  }

  lemma {:induction false} ClaimsAlways(cfg: Setup, trace: seq<Replica>, evs: seq<Event>, i: nat)
    requires IsTrace(cfg, trace, evs) && i < |trace|
    ensures ClaimsHaveBatches(cfg, trace[i])
  {
    if i > 0 {
      ClaimsAlways(cfg, trace, evs, i - 1);
      InvAlways(cfg, trace, evs, i - 1);
      assert IsStep(cfg, trace, evs, i - 1);
      ClaimsStep(cfg, trace[i - 1], evs[i - 1]);
    }
  }

  /** No row is stranded: at every point of every run, a pending row of the thread can be claimed or is in a batch
      proposed since the last release, and after a restart all of them can be claimed. */
  lemma NoRowStranded(cfg: Setup, trace: seq<Replica>, evs: seq<Event>, i: nat, id: nat)
    requires IsTrace(cfg, trace, evs) && i < |trace|
    requires id in trace[i].q.pending && trace[i].q.pending[id].threadId == cfg.threadId
    ensures id !in trace[i].q.claims || InBatch(trace[i].batches, id)
    ensures i > 0 && evs[i - 1].Restart? ==> id !in trace[i].q.claims
  {
    ClaimsAlways(cfg, trace, evs, i);
    if i > 0 {
      assert IsStep(cfg, trace, evs, i - 1);
    }
  }
}
