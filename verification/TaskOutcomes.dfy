/** What each task operation answers and does to the row, in terms of the columns alone, and what follows for runs. */
module TaskOutcomes {
  import opened ThreadTypes
  import opened Tasks
  import opened TaskRuns

  // ----- creating

  /** Some task has this initiator and idempotency key. */
  ghost predicate KnownKey(db: Tables, initiator: Did, key: string) {
    exists id :: id in db.tasks && db.tasks[id].initiator == initiator && db.tasks[id].key == key
  }

  /** A creation inserts a row if and only if its key is new, it asks for a skill, it is not delegated to its own
      initiator and its id is new. The row is submitted, without lease, deadline or attempts, and with three attempts
      allowed. */
  lemma CreateOutcome(db: Tables, id: TaskId, initiator: Did, assignee: Did, skill: string, key: string)
    ensures var (db', r) := CreateRow(db, id, initiator, assignee, skill, key);
            var known := key != "" && KnownKey(db, initiator, key);
            && (r == Existing <==> known)
            && (r == InvalidTask <==> !known && (skill == "" || (initiator != "" && initiator == assignee)))
            && (r == IdConflict <==>
                  !known && skill != "" && (initiator == "" || initiator != assignee) && id in db.tasks)
            && r != NoDelivery && db'.deliveries == db.deliveries
            && (r != Created ==> db' == db)
            && (r == Created ==>
                  && id !in db.tasks
                  && db'.tasks == db.tasks[id := Task(initiator, assignee, skill, key, Submitted, None, None, None,
                                                      0, 3, None)])
  {
  }

  /** Two tasks of one initiator have different keys, unless they have none. */
  ghost predicate KeysDiffer(db: Tables) {
    forall a, b :: a in db.tasks && b in db.tasks && a != b && db.tasks[a].key != "" ==>
      db.tasks[a].initiator != db.tasks[b].initiator || db.tasks[a].key != db.tasks[b].key
  }

  /** Nothing changes who asked for what from whom. */
  lemma NamesKept(w: World, ev: Event, w': World, id: TaskId)
    requires Leads(w, ev, w') && Sound(w) && id in w.db.tasks
    ensures id in w'.db.tasks
    ensures var t, t' := w.db.tasks[id], w'.db.tasks[id];
            t'.initiator == t.initiator && t'.key == t.key && t'.assignee == t.assignee && t'.skill == t.skill
  {
    var c := RowChange(w, ev, w', id);
  }

  lemma KeysStep(w: World, ev: Event, w': World)
    requires Leads(w, ev, w') && Sound(w) && KeysDiffer(w.db)
    ensures KeysDiffer(w'.db)
  {
    forall a, b | a in w'.db.tasks && b in w'.db.tasks && a != b && w'.db.tasks[a].key != ""
      ensures w'.db.tasks[a].initiator != w'.db.tasks[b].initiator || w'.db.tasks[a].key != w'.db.tasks[b].key
    {
      KeysPair(w, ev, w', a, b);
    }
  }

  lemma KeysPair(w: World, ev: Event, w': World, a: TaskId, b: TaskId)
    requires Leads(w, ev, w') && Sound(w) && KeysDiffer(w.db)
    requires a in w'.db.tasks && b in w'.db.tasks && a != b && w'.db.tasks[a].key != ""
    ensures w'.db.tasks[a].initiator != w'.db.tasks[b].initiator || w'.db.tasks[a].key != w'.db.tasks[b].key
  {
    if a in w.db.tasks {
      NamesKept(w, ev, w', a);
    } else {
      NewRow(w, ev, w', a);
    }
    if b in w.db.tasks {
      NamesKept(w, ev, w', b);
    } else {
      NewRow(w, ev, w', b);
    }
  }

  /** In every run, with creations racing each other, an initiator has at most one task per idempotency key. */
  lemma {:induction false} OneTaskPerKey(trace: seq<World>, evs: seq<Event>, i: nat)
    requires IsTrace(trace, evs) && i < |trace|
    ensures KeysDiffer(trace[i].db)
  {
    if i > 0 {
      OneTaskPerKey(trace, evs, i - 1);
      SoundAlways(trace, evs, i - 1);
      assert IsStep(trace, evs, i - 1);
      KeysStep(trace[i - 1], evs[i - 1], trace[i]);
    }
  }

  // ----- statuses

  const ALLOWED := {(Submitted, Working), (Submitted, Cancelled), (Submitted, Failed),
                    (Working, Completed), (Working, Failed), (Working, Cancelled)}

  /** An update stores the status asked for if and only if that is one of the six transitions. */
  lemma UpdateOutcome(db: Tables, id: TaskId, status: Status)
    ensures var (db', r) := UpdateStatus(db, id, status);
            && (r == NoSuchTask <==> id !in db.tasks)
            && (r == Updated <==> id in db.tasks && (db.tasks[id].status, status) in ALLOWED)
            && db' == if r == Updated then Tables(db.tasks[id := db.tasks[id].(status := status)], db.deliveries)
                      else db
  {
  }

  /** A timeout sets the deadline that many nanoseconds after the clock, in whole milliseconds; a budget of at least one
      replaces the old one. Neither looks at the task's state. */
  lemma SettingOutcome(db: Tables, id: TaskId, timeout: int, instant: int, max: int)
    requires id in db.tasks
    ensures timeout > 0 ==>
              SetTimeout(db, id, timeout, instant).tasks
              == db.tasks[id := db.tasks[id].(deadline := Some((instant + timeout) / 1_000_000))]
    ensures max >= 1 ==> SetMaxAttempts(db, id, max).tasks == db.tasks[id := db.tasks[id].(maxAttempts := max)]
    ensures timeout <= 0 ==> SetTimeout(db, id, timeout, instant) == db
    ensures max < 1 ==> SetMaxAttempts(db, id, max) == db
  {
  }

  // ----- leases

  /** The lease that a worker holds: the row is working in its name and the expiry is ahead. */
  predicate HeldBy(t: Task, worker: Did, now: int) {
    t.status == Working && t.owner == Some(worker) && t.expires.Some? && t.expires.value > now
  }

  /** How long a lease lasts, in milliseconds. */
  function Lasting(nanos: int): int {
    if nanos > 0 then nanos / 1_000_000 else 30_000
  }

  predicate DeadlineOver(t: Task, now: int) {
    t.deadline.Some? && t.deadline.value > 0 && t.deadline.value <= now
  }

  predicate BudgetSpent(t: Task) {
    t.maxAttempts > 0 && t.attempt >= t.maxAttempts
  }

  /** Submitted, or working with an expiry that is over. */
  predicate OnOffer(t: Task, now: int) {
    t.status == Submitted || (t.status == Working && t.expires.Some? && t.expires.value <= now)
  }

  /** A claim is granted if and only if the task is the worker's, its deadline is not over, and either the worker holds
      the lease already or the task is on offer and its budget not spent. */
  predicate Granted(t: Task, worker: Did, now: int) {
    && t.assignee == worker && !DeadlineOver(t, now)
    && (HeldBy(t, worker, now) || (OnOffer(t, now) && !BudgetSpent(t)))
  }

  /** What a claim answers, and the row after it: the running lease again, or a fresh one that counts as an attempt. A
      claim of one's own task past its deadline or budget ends it as failed; every other claim changes nothing. */
  lemma ClaimIff(t: Task, worker: Did, nanos: int, token: string, now: int)
    ensures var (t', r) := ClaimTask(t, worker, nanos, token, now);
            && (r.Lease? <==> Granted(t, worker, now)) && r != NoTask
            && (r == AttemptsExhausted <==>
                  t.assignee == worker
                  && (DeadlineOver(t, now) || (!HeldBy(t, worker, now) && OnOffer(t, now) && BudgetSpent(t))))
            && (r.Lease? ==>
                  if HeldBy(t, worker, now) then
                    t' == t && r.expires == t.expires.value && r.attempt == t.attempt
                    && (t.token.Some? ==> r.token == t.token.value)
                  else
                    && r == Lease(token, now + Lasting(nanos), t.attempt + 1)
                    && t' == t.(status := Working, token := Some(token), owner := Some(worker),
                                expires := Some(now + Lasting(nanos)), attempt := t.attempt + 1))
            && (r == AttemptsExhausted ==>
                  t' == if Terminal(t.status) then t
                        else if DeadlineOver(t, now) then t.(status := Failed)
                        else t.(status := Failed, token := Some(""), owner := Some(""), expires := Some(0)))
            && (r == LeaseConflict ==> t' == t)
  {
  }

  lemma ClaimOutcome(db: Tables, id: TaskId, worker: Did, nanos: int, token: string, now: int)
    ensures var (db', r) := Claim(db, id, worker, nanos, token, now);
            && (r == NoTask <==> id !in db.tasks)
            && (r.Lease? <==> id in db.tasks && Granted(db.tasks[id], worker, now))
            && db'.deliveries == db.deliveries && db'.tasks.Keys == db.tasks.Keys
            && forall x :: x in db.tasks && x != id ==> db'.tasks[x] == db.tasks[x]
  {
    if id in db.tasks {
      ClaimIff(db.tasks[id], worker, nanos, token, now);
    }
  }

  /** The row is the worker's, under this token, and the expiry is ahead. */
  ghost predicate Fenced(db: Tables, id: TaskId, worker: Did, token: string, now: int) {
    id in db.tasks && HeldBy(db.tasks[id], worker, now) && db.tasks[id].token == Some(token)
  }

  /** A renewal succeeds if and only if the worker holds the lease under the token, and only moves the expiry. */
  lemma RenewIff(db: Tables, id: TaskId, worker: Did, token: string, nanos: int, now: int)
    ensures var (db', ok) := RenewLease(db, id, worker, token, nanos, now);
            && (ok <==> Fenced(db, id, worker, token, now))
            && db' == if ok then
                        Tables(db.tasks[id := db.tasks[id].(expires := Some(now + Lasting(nanos)))], db.deliveries)
                      else db
  {
  }

  /** A finish succeeds if and only if it asks for completed or failed and the worker holds the lease under the
      token. It stores the status asked for and clears the lease. */
  lemma FinishIff(db: Tables, id: TaskId, worker: Did, token: string, status: Status, now: int)
    ensures var (db', ok) := FinishLease(db, id, worker, token, status, now);
            && (ok <==> (status == Completed || status == Failed) && Fenced(db, id, worker, token, now))
            && db' == if ok then
                        Tables(db.tasks[id := db.tasks[id].(status := status, token := Some(""), owner := Some(""),
                                                            expires := Some(0))], db.deliveries)
                      else db
  {
  }

  /** The status that a successful finish asked for is the task's status right after it and at every later point of the
      run. */
  lemma FinishedForEver(trace: seq<World>, evs: seq<Event>, i: nat, j: nat)
    requires IsTrace(trace, evs) && i < j < |trace|
    requires evs[i].DoFinish? && Succeeds(trace[i], evs[i])
    ensures evs[i].id in trace[j].db.tasks && trace[j].db.tasks[evs[i].id].status == evs[i].status
  {
    assert IsStep(trace, evs, i);
    FinishIff(trace[i].db, evs[i].id, evs[i].worker, evs[i].token, evs[i].status, evs[i].now);
    TerminalForEver(trace, evs, i + 1, j, evs[i].id);
  }

  // ----- expiry

  /** Working under a lease that is over. */
  predicate LeaseOver(t: Task, now: int) {
    t.status == Working && t.expires.Some? && 0 < t.expires.value <= now
  }

  /** The row after a pass: failed, offered again, or as it was. */
  function AfterPass(t: Task, now: int): Task {
    if !LeaseOver(t, now) then t
    else t.(status := if DeadlineOver(t, now) || BudgetSpent(t) then Failed else Submitted,
            token := Some(""), owner := Some(""), expires := Some(0))
  }

  predicate OfferedAgain(db: Tables, now: int, id: TaskId) {
    id in db.tasks && LeaseOver(db.tasks[id], now) && !DeadlineOver(db.tasks[id], now) && !BudgetSpent(db.tasks[id])
  }

  /** The deliveries that a pass adds: the rows it offers again, in its order. */
  function Redelivered(db: Tables, ids: seq<TaskId>, now: int): seq<TaskId> {
    if ids == [] then []
    else
      var last := ids[|ids| - 1];
      Redelivered(db, ids[..|ids| - 1], now) + if OfferedAgain(db, now, last) then [last] else []
  }

  lemma {:induction false} PassDeliveries(db: Tables, ids: seq<TaskId>, now: int)
    requires forall x :: x in ids ==> x in db.tasks && LeaseOver(db.tasks[x], now)
    requires forall i, j :: 0 <= i < j < |ids| ==> ids[i] != ids[j]
    ensures RequeueRows(db, ids, now).deliveries == db.deliveries + Redelivered(db, ids, now)
  {
    if ids == [] {
      assert db.deliveries + [] == db.deliveries;
    } else {
      var init, last := ids[..|ids| - 1], ids[|ids| - 1];
      assert ids == init + [last];
      PassDeliveries(db, init, now);
      RequeueRowsAt(db, init, now, last);
      assert RequeueRows(db, init, now).tasks[last] == db.tasks[last];
    }
  }

  /** A pass over the expired leases: every row is as described, and the log grows by one delivery for each task that is
      offered again and by nothing else. */
  lemma PassOutcome(db: Tables, ids: seq<TaskId>, now: int)
    requires ListsExpired(db, ids, now)
    ensures var db' := RequeueRows(db, ids, now);
            && db'.tasks.Keys == db.tasks.Keys
            && (forall id :: id in db.tasks ==> db'.tasks[id] == AfterPass(db.tasks[id], now))
            && db'.deliveries == db.deliveries + Redelivered(db, ids, now)
            && forall id :: id in Redelivered(db, ids, now) <==> OfferedAgain(db, now, id)
  {
    forall id | id in db.tasks ensures RequeueRows(db, ids, now).tasks[id] == AfterPass(db.tasks[id], now) {
      RequeueRowsAt(db, ids, now, id);
    }
    PassDeliveries(db, ids, now);
    forall id ensures id in Redelivered(db, ids, now) <==> id in ids && OfferedAgain(db, now, id) {
      RedeliveredAre(db, ids, now, id);
    }
  }

  lemma {:induction false} RedeliveredAre(db: Tables, ids: seq<TaskId>, now: int, id: TaskId)
    ensures id in Redelivered(db, ids, now) <==> id in ids && OfferedAgain(db, now, id)
  {
    if ids != [] {
      assert ids == ids[..|ids| - 1] + [ids[|ids| - 1]];
      RedeliveredAre(db, ids[..|ids| - 1], now, id);
    }
  }
}
