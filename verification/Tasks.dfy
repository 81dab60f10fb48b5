/** The task table: status machine, leases, retry budget, deadline and delivery log.
    Each operation is a function from the tables to the next tables; `TaskStore` runs them in place. */
module Tasks {
  import opened ThreadTypes

  type TaskId = string

  datatype Status = Submitted | Working | Completed | Failed | Cancelled

  predicate Terminal(s: Status) {
    s == Completed || s == Failed || s == Cancelled
  }

  predicate CanTransition(from: Status, to: Status) {
    match from
    case Submitted => to == Working || to == Cancelled || to == Failed
    case Working => to == Completed || to == Failed || to == Cancelled
    case _ => false
  }

  /** A row of `tasks`, without the payload columns. `None` is SQL NULL: a lease column is NULL until the
      first lease and empty or zero after a lease was cleared, and `Claim` tells the two apart. */
  datatype Task = Task(initiator: Did, assignee: Did, skill: string, key: string, status: Status,
                       token: Option<string>, owner: Option<Did>, expires: Option<int>,
                       attempt: nat, maxAttempts: int, deadline: Option<int>)

  const DEFAULT_ATTEMPTS := 3
  const DEFAULT_LEASE_MS := 30_000

  /** `deliveries[i]` is the task of the delivery with sequence i+1. */
  datatype Tables = Tables(tasks: map<TaskId, Task>, deliveries: seq<TaskId>)

  /** A lease duration in nanoseconds as whole milliseconds; zero or less means the default. */
  function LeaseMs(nanos: int): nat {
    if nanos <= 0 then DEFAULT_LEASE_MS else nanos / 1_000_000
  }

  predicate PastDeadline(t: Task, now: int) {
    t.deadline.Some? && t.deadline.value > 0 && now >= t.deadline.value
  }

  predicate OutOfAttempts(t: Task) {
    t.maxAttempts > 0 && t.attempt >= t.maxAttempts
  }

  function ClearLease(t: Task): Task {
    t.(token := Some(""), owner := Some(""), expires := Some(0))
  }

  function Put(db: Tables, id: TaskId, t: Task): Tables {
    db.(tasks := db.tasks[id := t])
  }

  // ----- create

  predicate KeyTaken(db: Tables, initiator: Did, key: string) {
    key != "" && exists id :: id in db.tasks && db.tasks[id].initiator == initiator && db.tasks[id].key == key
  }

  function NewTask(initiator: Did, assignee: Did, skill: string, key: string): Task {
    Task(initiator, assignee, skill, key, Submitted, None, None, None, 0, DEFAULT_ATTEMPTS, None)
  }

  datatype CreateResult = Created | Existing | InvalidTask | IdConflict | NoDelivery

  /** The first statement of `create`: the row. */
  function CreateRow(db: Tables, id: TaskId, initiator: Did, assignee: Did, skill: string, key: string)
    : (Tables, CreateResult)
  {
    if KeyTaken(db, initiator, key) then (db, Existing)
    else if skill == "" || (initiator != "" && initiator == assignee) then (db, InvalidTask)
    else if id in db.tasks then (db, IdConflict)
    else (Put(db, id, NewTask(initiator, assignee, skill, key)), Created)
  }

  /** The second statement: the first delivery. */
  function Deliver(db: Tables, id: TaskId): Tables {
    db.(deliveries := db.deliveries + [id])
  }

  /** Both in sequence, with nothing in between; the second may fail. */
  function Create(db: Tables, id: TaskId, initiator: Did, assignee: Did, skill: string, key: string, deliveryOk: bool)
    : (Tables, CreateResult)
  {
    var (db1, r) := CreateRow(db, id, initiator, assignee, skill, key);
    if r != Created then (db1, r) else if deliveryOk then (Deliver(db1, id), Created) else (db1, NoDelivery)
  }

  // ----- status updates outside a lease

  datatype UpdateResult = Updated | NoSuchTask | InvalidTransition

  function UpdateStatus(db: Tables, id: TaskId, status: Status): (Tables, UpdateResult) {
    if id !in db.tasks then (db, NoSuchTask)
    else if !CanTransition(db.tasks[id].status, status) then (db, InvalidTransition)
    else (Put(db, id, db.tasks[id].(status := status)), Updated)
  }

  function SetMaxAttempts(db: Tables, id: TaskId, max: int): Tables {
    if max < 1 || id !in db.tasks then db else Put(db, id, db.tasks[id].(maxAttempts := max))
  }

  /** `instant` is the clock and `timeout` the duration, both in nanoseconds; the deadline is their sum in
      whole milliseconds. */
  function SetTimeout(db: Tables, id: TaskId, timeout: int, instant: int): Tables {
    if timeout <= 0 || id !in db.tasks then db
    else Put(db, id, db.tasks[id].(deadline := Some((instant + timeout) / 1_000_000)))
  }

  // ----- leases

  datatype ClaimResult = Lease(token: string, expires: int, attempt: nat) | NoTask | LeaseConflict | AttemptsExhausted

  /** The lease of t is running and belongs to worker. */
  predicate Holds(t: Task, worker: Did, now: int) {
    t.status == Working && t.owner == Some(worker) && t.expires.Some? && t.expires.value > now
  }

  /** t is free to be leased: submitted, or working under an expired or cleared lease. */
  predicate Claimable(t: Task, now: int) {
    t.status == Submitted || (t.status == Working && t.expires.Some? && t.expires.value <= now)
  }

  function FreshLease(t: Task, worker: Did, token: string, until: int): Task {
    t.(status := Working, token := Some(token), owner := Some(worker), expires := Some(until), attempt := t.attempt + 1)
  }

  function ClaimTask(t: Task, worker: Did, nanos: int, token: string, now: int): (Task, ClaimResult) {
    if t.assignee != worker then (t, LeaseConflict)
    else if PastDeadline(t, now) then
      (if t.status == Submitted || t.status == Working then t.(status := Failed) else t, AttemptsExhausted)
    else if Holds(t, worker, now) then
      (t, Lease(if t.token.Some? then t.token.value else "", t.expires.value, t.attempt))
    else if !Claimable(t, now) then (t, LeaseConflict)
    else if OutOfAttempts(t) then (ClearLease(t.(status := Failed)), AttemptsExhausted)
    else
      var until := now + LeaseMs(nanos);
      (FreshLease(t, worker, token, until), Lease(token, until, t.attempt + 1))
  }

  function Claim(db: Tables, id: TaskId, worker: Did, nanos: int, token: string, now: int): (Tables, ClaimResult) {
    if id !in db.tasks then (db, NoTask)
    else
      var (t, r) := ClaimTask(db.tasks[id], worker, nanos, token, now);
      (Put(db, id, t), r)
  }

  /** The WHERE clause of renewing and finishing. */
  predicate LeaseMatches(db: Tables, id: TaskId, worker: Did, token: string, now: int) {
    id in db.tasks && Holds(db.tasks[id], worker, now) && db.tasks[id].token == Some(token)
  }

  function RenewLease(db: Tables, id: TaskId, worker: Did, token: string, nanos: int, now: int): (Tables, bool) {
    if !LeaseMatches(db, id, worker, token, now) then (db, false)
    else (Put(db, id, db.tasks[id].(expires := Some(now + LeaseMs(nanos)))), true)
  }

  function FinishLease(db: Tables, id: TaskId, worker: Did, token: string, status: Status, now: int): (Tables, bool) {
    if (status != Completed && status != Failed) || !LeaseMatches(db, id, worker, token, now) then (db, false)
    else (Put(db, id, ClearLease(db.tasks[id].(status := status))), true)
  }

  // ----- expiry

  predicate Expired(t: Task, now: int) {
    t.status == Working && t.expires.Some? && 0 < t.expires.value <= now
  }

  /** One row of `requeueExpired`: fail it, or return it to submitted with a new delivery. */
  function RequeueRow(db: Tables, id: TaskId, now: int): Tables
    requires id in db.tasks
  {
    var t := db.tasks[id];
    if PastDeadline(t, now) || OutOfAttempts(t) then
      Put(db, id, ClearLease(t.(status := Failed)))
    else
      Tables(db.tasks[id := ClearLease(t.(status := Submitted))], db.deliveries + [id])
  }

  function RequeueRows(db: Tables, ids: seq<TaskId>, now: int): (db': Tables)
    requires forall id :: id in ids ==> id in db.tasks
    ensures db'.tasks.Keys == db.tasks.Keys
  {
    if ids == [] then db else RequeueRow(RequeueRows(db, ids[..|ids| - 1], now), ids[|ids| - 1], now)
  }

  /** `ids` lists the expired rows, each once, in the order the query happens to return them. */
  ghost predicate ListsExpired(db: Tables, ids: seq<TaskId>, now: int) {
    && (forall i, j :: 0 <= i < j < |ids| ==> ids[i] != ids[j])
    && (forall id :: id in ids <==> id in db.tasks && Expired(db.tasks[id], now))
  }

  /** What one pass does to each row: the expired ones are requeued or failed, the others stay. */
  lemma {:induction false} RequeueRowsAt(db: Tables, ids: seq<TaskId>, now: int, id: TaskId)
    requires forall x :: x in ids ==> x in db.tasks
    requires forall i, j :: 0 <= i < j < |ids| ==> ids[i] != ids[j]
    requires id in db.tasks
    ensures RequeueRows(db, ids, now).tasks[id] == if id in ids then RequeueRow(db, id, now).tasks[id] else db.tasks[id]
    ensures db.deliveries <= RequeueRows(db, ids, now).deliveries
  {
    if ids != [] {
      var init, last := ids[..|ids| - 1], ids[|ids| - 1];
      assert ids == init + [last];
      RequeueRowsAt(db, init, now, id);
      RequeueRowsAt(db, init, now, last);
    }
  }

  // ----- deliveries

  /** The sequence of the latest delivery of a task, 0 if it has none. */
  function Latest(deliveries: seq<TaskId>, id: TaskId): nat {
    if deliveries == [] then 0
    else if deliveries[|deliveries| - 1] == id then |deliveries|
    else Latest(deliveries[..|deliveries| - 1], id)
  }

  lemma {:induction false} LatestIsMax(deliveries: seq<TaskId>, id: TaskId)
    ensures Latest(deliveries, id) <= |deliveries|
    ensures Latest(deliveries, id) > 0 ==> deliveries[Latest(deliveries, id) - 1] == id
    ensures forall i :: Latest(deliveries, id) <= i < |deliveries| ==> deliveries[i] != id
  {
    if deliveries != [] && deliveries[|deliveries| - 1] != id {
      LatestIsMax(deliveries[..|deliveries| - 1], id);
    }
  }

  datatype Delivery = Delivery(sequence: nat, task: TaskId)

  predicate Wanted(t: Task, worker: Did, skills: seq<string>) {
    t.assignee == worker && t.status == Submitted && (skills == [] || t.skill in skills)
  }

  /** Delivery i+1 is one that `ListDeliveries` selects for this worker, whatever its cursor. */
  predicate Eligible(db: Tables, worker: Did, skills: seq<string>, i: nat)
    requires i < |db.deliveries|
  {
    var id := db.deliveries[i];
    id in db.tasks && Wanted(db.tasks[id], worker, skills) && Latest(db.deliveries, id) == i + 1
  }

  /** d is a delivery that `ListDeliveries` selects after the cursor. */
  predicate Selected(db: Tables, worker: Did, skills: seq<string>, after: nat, d: Delivery) {
    && after < d.sequence <= |db.deliveries|
    && d.task == db.deliveries[d.sequence - 1]
    && Eligible(db, worker, skills, d.sequence - 1)
  }

  ghost predicate Increasing(page: seq<Delivery>) {
    forall j, k :: 0 <= j < k < |page| ==> page[j].sequence < page[k].sequence
  }

  /** The answer of `ListDeliveries`: the selected deliveries in increasing order, cut at the limit. */
  ghost predicate IsPage(db: Tables, worker: Did, skills: seq<string>, after: nat, limit: int, page: seq<Delivery>) {
    && (forall d :: d in page ==> Selected(db, worker, skills, after, d))
    && Increasing(page)
    && (forall d {:trigger Selected(db, worker, skills, after, d)} :: Selected(db, worker, skills, after, d) ==>
          d in page || (0 < limit == |page| && page[|page| - 1].sequence < d.sequence))
  }
}

/** The task store as it runs: two tables that the methods update. */
module TaskStores {
  import opened ThreadTypes
  import opened Tasks

  /** The query of `ListDeliveries`. */
  method SelectPage(db: Tables, worker: Did, skills: seq<string>, after: nat, limit: int) returns (page: seq<Delivery>)
    ensures IsPage(db, worker, skills, after, limit, page)
  {
    page := [];
    var i := after;
    while i < |db.deliveries| && !(limit > 0 && |page| == limit)
      invariant after <= i
      invariant limit > 0 ==> |page| <= limit
      invariant forall d :: d in page ==> Selected(db, worker, skills, after, d) && d.sequence <= i
      invariant Increasing(page)
      invariant forall d {:trigger Selected(db, worker, skills, after, d)} ::
                  Selected(db, worker, skills, after, d) && d.sequence <= i ==> d in page
      decreases |db.deliveries| - i
    {
      if Eligible(db, worker, skills, i) {
        page := page + [Delivery(i + 1, db.deliveries[i])];
      }
      i := i + 1;
    }
  }

  class TaskStore {
    var db: Tables

    constructor ()
      ensures db == Tables(map[], [])
    {
      db := Tables(map[], []);
    }

    method CreateTask(id: TaskId, initiator: Did, assignee: Did, skill: string, key: string, deliveryOk: bool)
      returns (r: CreateResult)
      modifies this
      ensures (db, r) == Create(old(db), id, initiator, assignee, skill, key, deliveryOk)
      ensures r == Created ==>
                id in db.tasks && db.tasks[id].status == Submitted && Latest(db.deliveries, id) == |db.deliveries|
    {
      if KeyTaken(db, initiator, key) {
        return Existing;
      }
      if skill == "" || (initiator != "" && initiator == assignee) {
        return InvalidTask;
      }
      if id in db.tasks {
        return IdConflict;
      }
      db := Put(db, id, NewTask(initiator, assignee, skill, key));
      if !deliveryOk {
        return NoDelivery;
      }
      db := db.(deliveries := db.deliveries + [id]);
      return Created;
    }

    method ClaimLease(id: TaskId, worker: Did, nanos: int, token: string, now: int) returns (r: ClaimResult)
      modifies this
      ensures (db, r) == Claim(old(db), id, worker, nanos, token, now)
    {
      if id !in db.tasks {
        return NoTask;
      }
      var t := db.tasks[id];
      assert db == Put(db, id, t);
      if t.assignee != worker {
        return LeaseConflict;
      }
      if PastDeadline(t, now) {
        if t.status == Submitted || t.status == Working {
          db := Put(db, id, t.(status := Failed));
        }
        return AttemptsExhausted;
      }
      if Holds(t, worker, now) {
        return Lease(if t.token.Some? then t.token.value else "", t.expires.value, t.attempt);
      }
      if !Claimable(t, now) {
        return LeaseConflict;
      }
      if OutOfAttempts(t) {
        db := Put(db, id, ClearLease(t.(status := Failed)));
        return AttemptsExhausted;
      }
      var until := now + LeaseMs(nanos);
      db := Put(db, id, FreshLease(t, worker, token, until));
      return Lease(token, until, t.attempt + 1);
    }

    /** `requeueExpired`: select the expired rows, then update them one by one. */
    method RequeueExpired(now: int) returns (ghost ids: seq<TaskId>)
      modifies this
      ensures ListsExpired(old(db), ids, now)
      ensures db == RequeueRows(old(db), ids, now)
    {
      var rows: seq<TaskId> := [];
      var rest := db.tasks.Keys;
      while rest != {}
        invariant db == old(db) && rest <= db.tasks.Keys
        invariant forall i, j :: 0 <= i < j < |rows| ==> rows[i] != rows[j]
        invariant forall id :: id in rows <==> id in db.tasks && id !in rest && Expired(db.tasks[id], now)
        decreases rest
      {
        var id :| id in rest;
        if Expired(db.tasks[id], now) {
          rows := rows + [id];
        }
        rest := rest - {id};
      }
      ids := rows;
      for i := 0 to |rows|
        invariant db == RequeueRows(old(db), rows[..i], now)
        invariant db.tasks.Keys == old(db.tasks.Keys)
      {
        assert rows[..i + 1][..i] == rows[..i];
        var t := db.tasks[rows[i]];
        if PastDeadline(t, now) || OutOfAttempts(t) {
          db := Put(db, rows[i], ClearLease(t.(status := Failed)));
        } else {
          db := Put(db, rows[i], ClearLease(t.(status := Submitted)));
          db := db.(deliveries := db.deliveries + [rows[i]]);
        }
      }
      assert rows[..|rows|] == rows;
    }

    /** `ListDeliveries`: refuse an unnamed worker; otherwise expire first, then page through the log. */
    method ListDeliveries(worker: Did, skills: seq<string>, after: nat, limit: int, now: int)
      returns (r: Option<seq<Delivery>>, ghost ids: seq<TaskId>)
      modifies this
      ensures r == None <==> worker == ""
      ensures r == None ==> db == old(db)
      ensures r.Some? ==>
                && ListsExpired(old(db), ids, now) && db == RequeueRows(old(db), ids, now)
                && IsPage(db, worker, skills, after, limit, r.value)
    {
      ids := [];
      if worker == "" {
        return None, ids;
      }
      ids := RequeueExpired(now);
      var page := SelectPage(db, worker, skills, after, limit);
      r := Some(page);
    }

    method Transition(id: TaskId, status: Status) returns (r: UpdateResult)
      modifies this
      ensures (db, r) == UpdateStatus(old(db), id, status)
    {
      if id !in db.tasks {
        return NoSuchTask;
      }
      if !CanTransition(db.tasks[id].status, status) {
        return InvalidTransition;
      }
      db := Put(db, id, db.tasks[id].(status := status));
      return Updated;
    }

    method Renew(id: TaskId, worker: Did, token: string, nanos: int, now: int) returns (ok: bool)
      modifies this
      ensures (db, ok) == RenewLease(old(db), id, worker, token, nanos, now)
    {
      ok := LeaseMatches(db, id, worker, token, now);
      if ok {
        db := Put(db, id, db.tasks[id].(expires := Some(now + LeaseMs(nanos))));
      }
    }

    method Finish(id: TaskId, worker: Did, token: string, status: Status, now: int) returns (ok: bool)
      modifies this
      ensures (db, ok) == FinishLease(old(db), id, worker, token, status, now)
      ensures ok ==> id in db.tasks && db.tasks[id].status == status
    {
      ok := (status == Completed || status == Failed) && LeaseMatches(db, id, worker, token, now);
      if ok {
        db := Put(db, id, ClearLease(db.tasks[id].(status := status)));
      }
    }

    method SetBudget(id: TaskId, max: int)
      modifies this
      ensures db == SetMaxAttempts(old(db), id, max)
    {
      if max >= 1 && id in db.tasks {
        db := Put(db, id, db.tasks[id].(maxAttempts := max));
      }
    }

    method SetDeadline(id: TaskId, timeout: int, instant: int)
      modifies this
      ensures db == SetTimeout(old(db), id, timeout, instant)
    {
      if timeout > 0 && id in db.tasks {
        db := Put(db, id, db.tasks[id].(deadline := Some((instant + timeout) / 1_000_000)));
      }
    }
  }
}
