/** The outbox as a running object: messages are accepted at any time, also while a flush works through its items, and
    the process may die between any two steps. Whatever is done with the object is a run of `OutboxRuns`, so the
    theorems about runs hold of the object. */
module OutboxMailbox {
  import opened ThreadTypes
  import opened Outbox
  import opened OutboxStores
  import opened OutboxRuns

  lemma Longer(trace: seq<World>, evs: seq<Event>, ev: Event, next: World)
    requires IsRun(trace, evs) && Enabled(trace[|evs|], ev) && next == Apply(trace[|evs|], ev)
    ensures IsRun(trace + [next], evs + [ev])
  {
    var trace', evs' := trace + [next], evs + [ev];
    forall i | 0 <= i < |evs'| ensures IsStep(trace', evs', i) {
      if i < |evs| {
        assert IsStep(trace, evs, i);
      }
    }
  }

  /** The first n items in flight are handled one by one. */
  lemma {:induction false} ItemsLonger(trace: seq<World>, evs: seq<Event>, outcome: MessageId -> Attempt, n: nat)
    returns (trace': seq<World>, evs': seq<Event>)
    requires IsRun(trace, evs) && n <= |trace[|evs|].inflight|
    ensures IsRun(trace', evs') && trace <= trace' && evs <= evs'
    ensures trace'[|evs'|] == HandleItems(trace[|evs|], outcome, n)
  {
    if n == 0 {
      trace', evs' := trace, evs;
    } else {
      trace', evs' := ItemsLonger(trace, evs, outcome, n - 1);
      var u := trace'[|evs'|];
      var a := outcome(u.inflight[0].id);
      var ev := HandleItem(a.ok, a.now, a.saved);
      Longer(trace', evs', ev, Apply(u, ev));
      trace', evs' := trace' + [Apply(u, ev)], evs' + [ev];
    }
  }

  /** The events of the statements at the start of a flush. */
  function StartEvents(now: int, later: int, io: Statements, ids: seq<MessageId>): seq<Event> {
    (if io.expired then [ExpireOld(now)] else []) + (if io.reclaimed then [ReclaimStale(now)] else [])
    + (if io.claimed then [ClaimDue(now, later, ids)] else [])
  }

  class Mailbox {
    var store: OutboxStore
    var inflight: seq<Item>
    ghost var trace: seq<World>
    ghost var evs: seq<Event>

    /** What was done so far is a run. */
    ghost predicate History()
      reads `trace, `evs
    {
      IsRun(trace, evs)
    }

    ghost function Last(): World
      requires History()
      reads `trace, `evs
    {
      trace[|evs|]
    }

    /** It ends in the table of the store and the items that the running flush has still to handle. */
    ghost predicate Valid()
      reads this, store
    {
      History() && Last().rows == store.rows && Last().inflight == inflight
    }

    constructor (legacy: Table, order: seq<MessageId>)
      requires FlagSound(legacy) && forall id :: id in legacy <==> id in order
      ensures Valid() && fresh(store) && inflight == [] && evs == [] && store.rows == Outbox.Reopen(legacy)
    {
      store := new OutboxStore(legacy, order);
      inflight := [];
      trace, evs := [World(Outbox.Reopen(legacy), [], map[], map[])], [];
    }

    ghost method Record(ev: Event)
      requires History() && Enabled(Last(), ev)
      modifies `trace, `evs
      ensures History() && Last() == Apply(old(Last()), ev) && evs == old(evs) + [ev] && old(trace) <= trace
    {
      var next := Apply(Last(), ev);
      Longer(trace, evs, ev, next);
      trace, evs := trace + [next], evs + [ev];
    }

    method Enqueue(id: MessageId, kind: MessageKind, now: int)
      requires Valid()
      modifies this, store
      ensures Valid() && store == old(store) && inflight == old(inflight)
      ensures evs == old(evs) + [Accept(id, kind, now)] && old(trace) <= trace
    {
      store.Enqueue(id, kind, now);
      Record(Accept(id, kind, now));
    }

    /** Records the statements at the start of a flush that the database carried out. */
    ghost method RecordStart(now: int, later: int, io: Statements, ids: seq<MessageId>)
      requires History() && Last().inflight == []
      requires if io.claimed then IsBatch(Prepared(Last().rows, now, io), later - RETRY_MS, ids) else ids == []
      modifies `trace, `evs
      ensures History() && old(trace) <= trace && evs == old(evs) + StartEvents(now, later, io, ids)
      ensures var t := Prepared(old(Last()).rows, now, io);
              Last().rows == ClaimRows(t, ids, now) && Last().inflight == ItemsOf(t, ids)
    {
      if io.expired {
        Record(ExpireOld(now));
      }
      if io.reclaimed {
        Record(ReclaimStale(now));
      }
      if io.claimed {
        Record(ClaimDue(now, later, ids));
      }
    }

    /** A flush begins: expire, reclaim, claim. */
    method Begin(now: int, later: int, order: seq<MessageId>, io: Statements) returns (ids: seq<MessageId>)
      requires Valid() && inflight == [] && Distinct(order) && forall id :: id in store.rows <==> id in order
      modifies this, store
      ensures Valid() && store == old(store) && old(trace) <= trace
      ensures evs == old(evs) + StartEvents(now, later, io, ids)
    {
      ids, inflight := store.ClaimBatch(now, later, order, io);
      RecordStart(now, later, io, ids);
    }

    /** The flush handles its next item. */
    method HandleNext(a: Attempt)
      requires Valid() && inflight != []
      modifies this, store
      ensures Valid() && store == old(store) && inflight == old(inflight)[1..]
      ensures evs == old(evs) + [HandleItem(a.ok, a.now, a.saved)] && old(trace) <= trace
    {
      store.DeliverItem(inflight[0], a);
      inflight := inflight[1..];
      Record(HandleItem(a.ok, a.now, a.saved));
    }

    /** One whole flush counts as its first statements and one step per item. */
    method Flush(now: int, later: int, order: seq<MessageId>, io: Statements, outcome: MessageId -> Attempt)
      requires Valid() && inflight == [] && Distinct(order) && forall id :: id in store.rows <==> id in order
      modifies this, store
      ensures Valid() && store == old(store) && inflight == [] && old(trace) <= trace && old(evs) <= evs
    {
      var ids := store.Flush(now, later, order, io, outcome);
      RecordStart(now, later, io, ids);
      ghost var w := Last();
      ghost var trace', evs' := ItemsLonger(trace, evs, outcome, |ids|);
      trace, evs := trace', evs';
      assert w.inflight[|ids|..] == [];
    }

    /** The process dies, and a new one opens the database. */
    method Restart(order: seq<MessageId>)
      requires Valid() && forall id :: id in store.rows <==> id in order
      modifies this
      ensures Valid() && fresh(store) && inflight == [] && evs == old(evs) + [DieAndReopen] && old(trace) <= trace
    {
      store := new OutboxStore(store.rows, order);
      inflight := [];
      Record(DieAndReopen);
    }

    /** For the object: a wake message that was pending or in processing at some point of its history is so now, or was
        delivered by a call that succeeded since. */
    lemma WakeIsKept(id: MessageId, i: nat)
      requires Valid() && i < |trace| && id in trace[i].rows && Wake(trace[i].rows[id]) && Active(trace[i].rows[id])
      ensures id in store.rows && store.rows[id].payload == trace[i].rows[id].payload
      ensures Active(store.rows[id])
              || (store.rows[id].status == Delivered && DeliveredBetween(trace, evs, id, i, |evs|))
    {
      WakeSurvives(trace, evs, id, i, |evs|);
    }

    /** A row that was delivered at some point of the history is the same now. */
    lemma DeliveredIsKept(id: MessageId, i: nat)
      requires Valid() && i < |trace| && id in trace[i].rows && trace[i].rows[id].status == Delivered
      ensures id in store.rows && store.rows[id] == trace[i].rows[id]
    {
      DeliveredForEver(trace, evs, id, i, |evs|);
    }
  }
}
