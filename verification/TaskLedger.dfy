/** The task store as a running object: whatever is done with it, in any order, is a run of `TaskRuns`, so the
    theorems about runs hold of the object. */
module TaskLedger {
  import opened ThreadTypes
  import opened Tasks
  import opened TaskStores
  import opened TaskRuns

  lemma Longer(trace: seq<World>, evs: seq<Event>, ev: Event, next: World)
    requires IsTrace(trace, evs) && Leads(trace[|evs|], ev, next)
    ensures IsTrace(trace + [next], evs + [ev])
  {
    var trace', evs' := trace + [next], evs + [ev];
    forall i: nat | i < |evs'| ensures IsStep(trace', evs', i) {
      if i < |evs| {
        assert IsStep(trace, evs, i);
      }
    }
  }

  class Ledger {
    const store: TaskStore
    ghost var trace: seq<World>
    ghost var evs: seq<Event>

    ghost predicate Valid()
      reads this, store
    {
      IsTrace(trace, evs) && trace[|evs|].db == store.db
    }

    /** The clock of the last event, and the tokens drawn so far. */
    ghost function Last(): World
      requires |trace| > |evs|
      reads this
    {
      trace[|evs|]
    }

    constructor ()
      ensures Valid() && fresh(store) && evs == []
    {
      store := new TaskStore();
      trace, evs := [START], [];
    }

    /** Records an event that leads to the tables db. */
    ghost method RecordTo(ev: Event, db: Tables)
      requires IsTrace(trace, evs) && Enabled(Last(), ev) && db == Effect(Last().db, ev)
      modifies `trace, `evs
      ensures IsTrace(trace, evs) && Last().db == db && Last().clock == ev.now
      ensures evs == old(evs) + [ev] && old(trace) <= trace
    {
      var next := World(db, ev.now, Last().used + if ev.DoClaim? then {ev.token} else {});
      Longer(trace, evs, ev, next);
      trace, evs := trace + [next], evs + [ev];
    }

    ghost method Record(ev: Event)
      requires IsTrace(trace, evs) && Enabled(Last(), ev) && store.db == Effect(Last().db, ev)
      modifies `trace, `evs
      ensures Valid() && evs == old(evs) + [ev] && old(trace) <= trace
    {
      RecordTo(ev, store.db);
    }

    /** The two statements of one call count as two events. */
    method Create(id: TaskId, initiator: Did, assignee: Did, skill: string, key: string, deliveryOk: bool, now: int)
      returns (r: CreateResult)
      requires Valid() && now >= Last().clock
      modifies this, store
      ensures Valid() && old(trace) <= trace
      ensures evs == old(evs) + [DoCreate(id, initiator, assignee, skill, key, now)]
                     + if r == Created then [DoDeliver(id, now)] else []
    {
      ghost var db1 := CreateRow(store.db, id, initiator, assignee, skill, key).0;
      r := store.CreateTask(id, initiator, assignee, skill, key, deliveryOk);
      RecordTo(DoCreate(id, initiator, assignee, skill, key, now), db1);
      if r == Created {
        RecordTo(DoDeliver(id, now), Deliver(db1, id));
      }
    }

    method Update(id: TaskId, status: Status, now: int) returns (r: UpdateResult)
      requires Valid() && now >= Last().clock
      modifies this, store
      ensures Valid() && evs == old(evs) + [DoUpdate(id, status, now)] && old(trace) <= trace
    {
      r := store.Transition(id, status);
      Record(DoUpdate(id, status, now));
    }

    method SetMaxAttempts(id: TaskId, max: int, now: int)
      requires Valid() && now >= Last().clock
      modifies this, store
      ensures Valid() && evs == old(evs) + [DoSetMax(id, max, now)] && old(trace) <= trace
    {
      store.SetBudget(id, max);
      Record(DoSetMax(id, max, now));
    }

    method SetTimeout(id: TaskId, timeout: int, instant: int)
      requires Valid() && instant / 1_000_000 >= Last().clock
      modifies this, store
      ensures Valid() && evs == old(evs) + [DoSetTimeout(id, timeout, instant, instant / 1_000_000)]
      ensures old(trace) <= trace
    {
      store.SetDeadline(id, timeout, instant);
      Record(DoSetTimeout(id, timeout, instant, instant / 1_000_000));
    }

    /** `token` is drawn at random and new. */
    method Claim(id: TaskId, worker: Did, nanos: int, token: string, now: int) returns (r: ClaimResult)
      requires Valid() && now >= Last().clock && token !in Last().used
      modifies this, store
      ensures Valid() && evs == old(evs) + [DoClaim(id, worker, nanos, token, now)] && old(trace) <= trace
      ensures r.Lease? ==> id in store.db.tasks && store.db.tasks[id].status == Working
    {
      r := store.ClaimLease(id, worker, nanos, token, now);
      Record(DoClaim(id, worker, nanos, token, now));
    }

    method Renew(id: TaskId, worker: Did, token: string, nanos: int, now: int) returns (ok: bool)
      requires Valid() && now >= Last().clock
      modifies this, store
      ensures Valid() && evs == old(evs) + [DoRenew(id, worker, token, nanos, now)] && old(trace) <= trace
      ensures ok == Succeeds(old(Last()), DoRenew(id, worker, token, nanos, now))
    {
      ok := store.Renew(id, worker, token, nanos, now);
      Record(DoRenew(id, worker, token, nanos, now));
    }

    method Finish(id: TaskId, worker: Did, token: string, status: Status, now: int) returns (ok: bool)
      requires Valid() && now >= Last().clock
      modifies this, store
      ensures Valid() && evs == old(evs) + [DoFinish(id, worker, token, status, now)] && old(trace) <= trace
      ensures ok == Succeeds(old(Last()), DoFinish(id, worker, token, status, now))
    {
      ok := store.Finish(id, worker, token, status, now);
      Record(DoFinish(id, worker, token, status, now));
    }

    method Requeue(now: int) returns (ghost ids: seq<TaskId>)
      requires Valid() && now >= Last().clock
      modifies this, store
      ensures Valid() && evs == old(evs) + [DoRequeue(ids, now)] && old(trace) <= trace
    {
      ids := store.RequeueExpired(now);
      Record(DoRequeue(ids, now));
    }

    /** `ListDeliveries`, of which the expiry is the only event. */
    method ListDeliveries(worker: Did, skills: seq<string>, after: nat, limit: int, now: int)
      returns (r: Option<seq<Delivery>>, ghost ids: seq<TaskId>)
      requires Valid() && now >= Last().clock
      modifies this, store
      ensures Valid() && old(trace) <= trace && (r == None <==> worker == "")
      ensures evs == old(evs) + if r.Some? then [DoRequeue(ids, now)] else []
      ensures r.Some? ==> IsPage(store.db, worker, skills, after, limit, r.value)
    {
      r, ids := store.ListDeliveries(worker, skills, after, limit, now);
      if r.Some? {
        Record(DoRequeue(ids, now));
      }
    }

    /** Fencing, for the object: a token that was drawn and was not live at some point of its history neither renews
        nor finishes the task now, whoever presents it. */
    lemma DeadTokenIsRefused(i: nat, id: TaskId, token: string, ev: Event)
      requires Valid() && i < |trace| && token in trace[i].used && !Live(trace[i], id, token)
      requires Enabled(Last(), ev) && Uses(ev, id, token)
      ensures !Succeeds(Last(), ev) && Effect(store.db, ev) == store.db
    {
      var next := World(Effect(store.db, ev), ev.now, Last().used);
      Longer(trace, evs, ev, next);
      Fencing(trace + [next], evs + [ev], i, |evs|, id, token);
    }

    /** A task that was terminal at some point of the history has that status now. */
    lemma TerminalNow(i: nat, id: TaskId)
      requires Valid() && i < |trace| && id in trace[i].db.tasks && Terminal(trace[i].db.tasks[id].status)
      ensures id in store.db.tasks && store.db.tasks[id].status == trace[i].db.tasks[id].status
    {
      TerminalForEver(trace, evs, i, |evs|, id);
    }
  }
}
