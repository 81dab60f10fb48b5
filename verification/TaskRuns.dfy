/** Whole runs of the task store: fencing, terminal statuses and the retry budget.
    Hypotheses: the clock does not go backwards and `Claim` draws tokens never drawn before. */
module TaskRuns {
  import opened ThreadTypes
  import opened Tasks

  /** The two statements of a creation are two events, so that others may come in between. A delivery is possible for
      any row; more than one does no harm. */
  datatype World = World(db: Tables, clock: int, used: set<string>)

  datatype Event =
    | DoCreate(id: TaskId, initiator: Did, assignee: Did, skill: string, key: string, now: int)
    | DoDeliver(id: TaskId, now: int)
    | DoUpdate(id: TaskId, status: Status, now: int)
    | DoSetMax(id: TaskId, max: int, now: int)
    | DoSetTimeout(id: TaskId, timeout: int, instant: int, now: int)
    | DoClaim(id: TaskId, worker: Did, nanos: int, token: string, now: int)
    | DoRenew(id: TaskId, worker: Did, token: string, nanos: int, now: int)
    | DoFinish(id: TaskId, worker: Did, token: string, status: Status, now: int)
    | DoRequeue(ids: seq<TaskId>, now: int)

  ghost predicate Enabled(w: World, ev: Event) {
    && ev.now >= w.clock
    && (ev.DoClaim? ==> ev.token !in w.used)
    && (ev.DoDeliver? ==> ev.id in w.db.tasks)
    && (ev.DoRequeue? ==> ListsExpired(w.db, ev.ids, ev.now))
    && (ev.DoSetTimeout? ==> ev.now == ev.instant / 1_000_000)
  }

  ghost function Effect(db: Tables, ev: Event): Tables
    requires ev.DoRequeue? ==> ListsExpired(db, ev.ids, ev.now)
  {
    match ev
    case DoCreate(id, initiator, assignee, skill, key, _) => CreateRow(db, id, initiator, assignee, skill, key).0
    case DoDeliver(id, _) => Deliver(db, id)
    case DoUpdate(id, status, _) => UpdateStatus(db, id, status).0
    case DoSetMax(id, max, _) => SetMaxAttempts(db, id, max)
    case DoSetTimeout(id, timeout, instant, _) => SetTimeout(db, id, timeout, instant)
    case DoClaim(id, worker, nanos, token, now) => Claim(db, id, worker, nanos, token, now).0
    case DoRenew(id, worker, token, nanos, now) => RenewLease(db, id, worker, token, nanos, now).0
    case DoFinish(id, worker, token, status, now) => FinishLease(db, id, worker, token, status, now).0
    case DoRequeue(ids, now) => RequeueRows(db, ids, now)
  }

  ghost predicate Leads(w: World, ev: Event, w': World) {
    Enabled(w, ev) && w' == World(Effect(w.db, ev), ev.now, w.used + if ev.DoClaim? then {ev.token} else {})
  }

  const START := World(Tables(map[], []), 1, {""})

  ghost predicate IsTrace(trace: seq<World>, evs: seq<Event>) {
    && |trace| == |evs| + 1 && trace[0] == START
    && forall i: nat :: i < |evs| ==> IsStep(trace, evs, i)
  }

  ghost predicate IsStep(trace: seq<World>, evs: seq<Event>, i: nat)
    requires i < |evs| && |trace| == |evs| + 1
  {
    Leads(trace[i], evs[i], trace[i + 1])
  }

  // ----- what one event does to one row

  /** The ways a row can change. */
  datatype Change = Same | ToStatus | Budget | Deadline | Leased | Renewed | Finished | Requeued | GaveUp

  ghost predicate Leasing(t: Task) {
    t.status == Working && t.expires.Some? && t.expires.value > 0
  }

  /** Row t becomes t' by change c at time now; `token` is the one a fresh lease draws. */
  ghost predicate Changes(t: Task, t': Task, c: Change, token: string, now: int) {
    match c
    case Same => t' == t
    case ToStatus => CanTransition(t.status, t'.status) && t' == t.(status := t'.status)
    case Budget => t' == t.(maxAttempts := t'.maxAttempts) && t'.maxAttempts >= 1
    case Deadline => t' == t.(deadline := t'.deadline)
    case Leased =>
      && !Terminal(t.status) && !OutOfAttempts(t) && !(Leasing(t) && t.expires.value > now)
      && t'.expires.Some? && t'.expires.value >= now
      && t' == FreshLease(t, t.assignee, token, t'.expires.value)
    case Renewed =>
      Leasing(t) && t.expires.value > now && t' == t.(expires := t'.expires)
      && t'.expires.Some? && t'.expires.value >= now
    case Finished =>
      Leasing(t) && t.expires.value > now && Terminal(t'.status) && t' == ClearLease(t.(status := t'.status))
    case Requeued =>
      Leasing(t) && t.expires.value <= now && !OutOfAttempts(t) && t' == ClearLease(t.(status := Submitted))
    case GaveUp =>
      !Terminal(t.status) && t'.status == Failed
      && (t' == t.(status := Failed) || t' == ClearLease(t.(status := Failed)))
  }

  function TokenOf(ev: Event): string {
    if ev.DoClaim? then ev.token else ""
  }

  lemma RowChange(w: World, ev: Event, w': World, id: TaskId) returns (c: Change)
    requires Leads(w, ev, w') && id in w.db.tasks && w.clock >= 1
    ensures id in w'.db.tasks && Changes(w.db.tasks[id], w'.db.tasks[id], c, TokenOf(ev), ev.now)
    ensures c.Budget? ==> ev.DoSetMax? && ev.id == id
    ensures c.Leased? ==> ev.DoClaim? && ev.id == id
    ensures c.Renewed? ==> ev.DoRenew? && ev.id == id && w.db.tasks[id].token == Some(ev.token)
    ensures c.Finished? ==> ev.DoFinish? && ev.id == id && w.db.tasks[id].token == Some(ev.token)
  {
    var t := w.db.tasks[id];
    match ev {
      case DoCreate(_, _, _, _, _, _) => c := Same;
      case DoDeliver(_, _) => c := Same;
      case DoUpdate(x, status, _) => c := if x == id && CanTransition(t.status, status) then ToStatus else Same;
      case DoSetMax(x, max, _) => c := if x == id && max >= 1 then Budget else Same;
      case DoSetTimeout(x, timeout, _, _) => c := if x == id && timeout > 0 then Deadline else Same;
      case DoClaim(x, worker, nanos, token, now) =>
        c := Same;
        if x == id {
          c := ClaimChange(t, worker, nanos, token, now);
        }
      case DoRenew(x, worker, token, _, now) =>
        c := if x == id && LeaseMatches(w.db, id, worker, token, now) then Renewed else Same;
      case DoFinish(x, worker, token, status, now) =>
        c := if x == id && LeaseMatches(w.db, id, worker, token, now) && (status == Completed || status == Failed)
             then Finished else Same;
      case DoRequeue(ids, now) =>
        RequeueRowsAt(w.db, ids, now, id);
        c := if id !in ids then Same else if w'.db.tasks[id].status == Submitted then Requeued else GaveUp;
    }
  }

  lemma ClaimChange(t: Task, worker: Did, nanos: int, token: string, now: int) returns (c: Change)
    requires now >= 1
    ensures Changes(t, ClaimTask(t, worker, nanos, token, now).0, c, token, now)
    ensures c.Same? || c.Leased? || c.GaveUp?
  {
    var (t', r) := ClaimTask(t, worker, nanos, token, now);
    c := if t' == t then Same else if t'.status == Failed then GaveUp else Leased;
  }

  // ----- invariants of rows

  /** A submitted row holds no lease; a drawn token is used. */
  ghost predicate RowInv(t: Task, used: set<string>) {
    && (t.status == Submitted ==> t.expires == None || t.expires == Some(0))
    && (t.token.Some? ==> t.token.value in used)
  }

  ghost predicate Sound(w: World) {
    && w.clock >= 1 && "" in w.used
    && forall id :: id in w.db.tasks ==> RowInv(w.db.tasks[id], w.used)
  }

  lemma NewRow(w: World, ev: Event, w': World, id: TaskId)
    requires Leads(w, ev, w') && id in w'.db.tasks && id !in w.db.tasks
    ensures ev.DoCreate? && w'.db.tasks[id] == NewTask(ev.initiator, ev.assignee, ev.skill, ev.key)
  {
  }

  lemma SoundStep(w: World, ev: Event, w': World)
    requires Leads(w, ev, w') && Sound(w)
    ensures Sound(w')
  {
    forall id | id in w'.db.tasks ensures RowInv(w'.db.tasks[id], w'.used) {
      if id in w.db.tasks {
        var c := RowChange(w, ev, w', id);
      } else {
        NewRow(w, ev, w', id);
      }
    }
  }

  lemma {:induction false} SoundAlways(trace: seq<World>, evs: seq<Event>, i: nat)
    requires IsTrace(trace, evs) && i < |trace|
    ensures Sound(trace[i])
  {
    if i > 0 {
      SoundAlways(trace, evs, i - 1);
      assert IsStep(trace, evs, i - 1);
      SoundStep(trace[i - 1], evs[i - 1], trace[i]);
    }
  }

  // ----- terminal statuses

  /** A terminal task keeps its status for ever. */
  lemma {:induction false} TerminalForEver(trace: seq<World>, evs: seq<Event>, i: nat, j: nat, id: TaskId)
    requires IsTrace(trace, evs) && i <= j < |trace|
    requires id in trace[i].db.tasks && Terminal(trace[i].db.tasks[id].status)
    ensures id in trace[j].db.tasks && trace[j].db.tasks[id].status == trace[i].db.tasks[id].status
  {
    if i < j {
      TerminalForEver(trace, evs, i, j - 1, id);
      assert IsStep(trace, evs, j - 1);
      SoundAlways(trace, evs, j - 1);
      var c := RowChange(trace[j - 1], evs[j - 1], trace[j], id);
    }
  }

  /** Step i ends with the task in a terminal status it did not have before. */
  ghost predicate EntersTerminal(trace: seq<World>, i: nat, id: TaskId)
    requires i + 1 < |trace|
  {
    && id in trace[i + 1].db.tasks && Terminal(trace[i + 1].db.tasks[id].status)
    && !(id in trace[i].db.tasks && Terminal(trace[i].db.tasks[id].status))
  }

  /** A task enters a terminal status at most once. */
  lemma TerminalOnce(trace: seq<World>, evs: seq<Event>, i: nat, j: nat, id: TaskId)
    requires IsTrace(trace, evs) && i + 1 < |trace| && j + 1 < |trace|
    requires EntersTerminal(trace, i, id) && EntersTerminal(trace, j, id)
    ensures i == j
  {
    if i < j {
      TerminalForEver(trace, evs, i + 1, j, id);
    } else if j < i {
      TerminalForEver(trace, evs, j + 1, i, id);
    }
  }

  // ----- fencing

  /** The token can still renew or finish the task. */
  ghost predicate Live(w: World, id: TaskId, token: string) {
    && id in w.db.tasks && Leasing(w.db.tasks[id]) && w.db.tasks[id].token == Some(token)
    && w.db.tasks[id].expires.value > w.clock
  }

  lemma DeadStep(w: World, ev: Event, w': World, id: TaskId, token: string)
    requires Leads(w, ev, w') && Sound(w) && token in w.used && !Live(w, id, token)
    ensures token in w'.used && !Live(w', id, token)
  {
    if id in w.db.tasks {
      var c := RowChange(w, ev, w', id);
    } else if id in w'.db.tasks {
      NewRow(w, ev, w', id);
    }
  }

  /** A token once drawn and not live any more, because it expired, was replaced or its task ended,
      is dead for ever. */
  lemma {:induction false} DeadForEver(trace: seq<World>, evs: seq<Event>, i: nat, j: nat, id: TaskId, token: string)
    requires IsTrace(trace, evs) && i <= j < |trace|
    requires token in trace[i].used && !Live(trace[i], id, token)
    ensures !Live(trace[j], id, token) && token in trace[j].used
  {
    if i < j {
      DeadForEver(trace, evs, i, j - 1, id, token);
      assert IsStep(trace, evs, j - 1);
      SoundAlways(trace, evs, j - 1);
      DeadStep(trace[j - 1], evs[j - 1], trace[j], id, token);
    }
  }

  /** Event j is a renewal or a finish of the task by this token. */
  predicate Uses(ev: Event, id: TaskId, token: string) {
    (ev.DoRenew? || ev.DoFinish?) && ev.id == id && ev.token == token
  }

  ghost predicate Succeeds(w: World, ev: Event)
    requires ev.DoRenew? || ev.DoFinish?
  {
    match ev
    case DoRenew(id, worker, token, nanos, now) => RenewLease(w.db, id, worker, token, nanos, now).1
    case DoFinish(id, worker, token, status, now) => FinishLease(w.db, id, worker, token, status, now).1
  }

  /** Lease fencing: from the moment a drawn token is not live, no renewal and no finish with it succeeds,
      and neither changes anything. */
  lemma Fencing(trace: seq<World>, evs: seq<Event>, i: nat, j: nat, id: TaskId, token: string)
    requires IsTrace(trace, evs) && i <= j < |evs|
    requires token in trace[i].used && !Live(trace[i], id, token) && Uses(evs[j], id, token)
    ensures !Succeeds(trace[j], evs[j]) && trace[j + 1].db == trace[j].db
  {
    DeadForEver(trace, evs, i, j, id, token);
    SoundAlways(trace, evs, j);
    assert IsStep(trace, evs, j);
  }

  /** A live token outlives a step exactly when the step leaves the task working under the same lease,
      with an expiry still ahead. */
  lemma TokenSurvivesIff(w: World, ev: Event, w': World, id: TaskId, token: string)
    requires Leads(w, ev, w') && Sound(w) && Live(w, id, token)
    ensures id in w'.db.tasks
    ensures var t, t' := w.db.tasks[id], w'.db.tasks[id];
            Live(w', id, token) <==>
              t'.status == Working && t'.attempt == t.attempt && t'.expires.Some? && t'.expires.value > ev.now
  {
    var c := RowChange(w, ev, w', id);
  }

  /** At most one `FinishLease` succeeds per task. */
  lemma FinishOnce(trace: seq<World>, evs: seq<Event>, i: nat, j: nat, id: TaskId)
    requires IsTrace(trace, evs) && i < |evs| && j < |evs|
    requires evs[i].DoFinish? && evs[i].id == id && Succeeds(trace[i], evs[i])
    requires evs[j].DoFinish? && evs[j].id == id && Succeeds(trace[j], evs[j])
    ensures i == j
  {
    FinishEnds(trace, evs, i);
    FinishEnds(trace, evs, j);
    if i < j {
      TerminalForEver(trace, evs, i + 1, j, id);
    } else if j < i {
      TerminalForEver(trace, evs, j + 1, i, id);
    }
  }

  lemma FinishEnds(trace: seq<World>, evs: seq<Event>, i: nat)
    requires IsTrace(trace, evs) && i < |evs| && evs[i].DoFinish? && Succeeds(trace[i], evs[i])
    ensures evs[i].id in trace[i].db.tasks && trace[i].db.tasks[evs[i].id].status == Working
    ensures evs[i].id in trace[i + 1].db.tasks && Terminal(trace[i + 1].db.tasks[evs[i].id].status)
  {
    assert IsStep(trace, evs, i);
  }

  // ----- the retry budget

  function Rank(t: Task): nat {
    if Terminal(t.status) then 0
    else if t.status == Submitted then 2
    else if t.expires.Some? && t.expires.value > 0 then 3 else 1
  }

  /** Remaining attempts first, then leased > submitted > working without a lease > terminal. */
  function Measure(t: Task): int {
    4 * (t.maxAttempts - t.attempt) + Rank(t)
  }

  predicate InBudget(t: Task) {
    t.maxAttempts >= 1 && t.attempt <= t.maxAttempts
  }

  /** A status change or a fresh lease. */
  predicate Moved(t: Task, t': Task) {
    t'.status != t.status || t'.attempt != t.attempt
  }

  predicate WasRequeued(t: Task, t': Task) {
    t.status == Working && t'.status == Submitted
  }

  /** With the budget fixed, the measure falls on every status change and every fresh lease, and on nothing else. */
  lemma MeasureFalls(t: Task, t': Task, c: Change, token: string, now: int, used: set<string>)
    requires Changes(t, t', c, token, now) && c != Budget && RowInv(t, used) && InBudget(t) && now >= 1
    ensures InBudget(t') && t'.maxAttempts == t.maxAttempts
    ensures Moved(t, t') <==> Measure(t') < Measure(t)
    ensures !Moved(t, t') ==> Measure(t') == Measure(t)
    ensures t'.attempt == t.attempt || t'.attempt == t.attempt + 1
    ensures WasRequeued(t, t') ==> Leasing(t) && !Leasing(t') && t.attempt < t.maxAttempts && t'.attempt == t.attempt
    ensures Leasing(t') && !Leasing(t) ==> t'.attempt == t.attempt + 1
  {
  }

  /** No new budget for the task in the steps from i to j. */
  ghost predicate BudgetFixed(evs: seq<Event>, id: TaskId, i: nat, j: nat)
    requires j <= |evs|
  {
    forall k :: i <= k < j ==> !(evs[k].DoSetMax? && evs[k].id == id)
  }

  ghost predicate Present(trace: seq<World>, id: TaskId, i: nat)
    requires i < |trace|
  {
    id in trace[i].db.tasks
  }

  lemma {:induction false} StaysPresent(trace: seq<World>, evs: seq<Event>, id: TaskId, i: nat, j: nat)
    requires IsTrace(trace, evs) && i <= j < |trace| && Present(trace, id, i)
    ensures Present(trace, id, j)
  {
    if i < j {
      StaysPresent(trace, evs, id, i, j - 1);
      SoundAlways(trace, evs, j - 1);
      assert IsStep(trace, evs, j - 1);
      var c := RowChange(trace[j - 1], evs[j - 1], trace[j], id);
    }
  }

  /** How many of the steps from i to j satisfy `counts` of the row before and after. */
  ghost function Tally(trace: seq<World>, id: TaskId, i: nat, j: nat, counts: (Task, Task) -> bool): nat
    requires i <= j < |trace|
    decreases j
  {
    if i == j then 0
    else
      Tally(trace, id, i, j - 1, counts)
      + if id in trace[j - 1].db.tasks && id in trace[j].db.tasks
           && counts(trace[j - 1].db.tasks[id], trace[j].db.tasks[id]) then 1 else 0
  }

  function FreshlyLeased(t: Task, t': Task): bool {
    t'.attempt != t.attempt
  }

  /** What the steps from i to j do to the counts, for a task that stays within a fixed budget. */
  lemma {:induction false} BudgetRun(trace: seq<World>, evs: seq<Event>, id: TaskId, i: nat, j: nat)
    requires IsTrace(trace, evs) && i <= j < |trace| && Present(trace, id, i)
    requires InBudget(trace[i].db.tasks[id]) && BudgetFixed(evs, id, i, j)
    ensures Present(trace, id, j)
    ensures var t, t' := trace[i].db.tasks[id], trace[j].db.tasks[id];
            && InBudget(t') && t'.maxAttempts == t.maxAttempts
            && Measure(t') + Tally(trace, id, i, j, Moved) <= Measure(t)
            && t'.attempt == t.attempt + Tally(trace, id, i, j, FreshlyLeased)
            && Tally(trace, id, i, j, WasRequeued) + (if Leasing(t') then 1 else 0)
               <= Tally(trace, id, i, j, FreshlyLeased) + (if Leasing(t) then 1 else 0)
  {
    if i < j {
      BudgetRun(trace, evs, id, i, j - 1);
      SoundAlways(trace, evs, j - 1);
      assert IsStep(trace, evs, j - 1);
      var c := RowChange(trace[j - 1], evs[j - 1], trace[j], id);
      MeasureFalls(trace[j - 1].db.tasks[id], trace[j].db.tasks[id], c,
                   TokenOf(evs[j - 1]), evs[j - 1].now, trace[j - 1].used);
    }
  }

  /** A task whose budget is fixed before its first claim: fresh leases number at most max_attempts,
      and status changes and fresh leases together at most four per attempt and two more. */
  lemma LeasesBounded(trace: seq<World>, evs: seq<Event>, id: TaskId, i: nat, j: nat)
    requires IsTrace(trace, evs) && i <= j < |trace| && Present(trace, id, i)
    requires var t := trace[i].db.tasks[id]; t.attempt == 0 && t.status == Submitted && t.maxAttempts >= 1
    requires BudgetFixed(evs, id, i, j)
    ensures Tally(trace, id, i, j, FreshlyLeased) <= trace[i].db.tasks[id].maxAttempts
    ensures Tally(trace, id, i, j, Moved) <= 4 * trace[i].db.tasks[id].maxAttempts + 2
  {
    BudgetRun(trace, evs, id, i, j);
  }

  /** ... and requeues number at most max_attempts - 1. */
  lemma {:induction false} RequeuesBounded(trace: seq<World>, evs: seq<Event>, id: TaskId, i: nat, j: nat)
    requires IsTrace(trace, evs) && i <= j < |trace| && Present(trace, id, i)
    requires var t := trace[i].db.tasks[id]; t.attempt == 0 && t.status == Submitted && t.maxAttempts >= 1
    requires BudgetFixed(evs, id, i, j)
    ensures Tally(trace, id, i, j, WasRequeued) <= trace[i].db.tasks[id].maxAttempts - 1
  {
    if i < j {
      RequeuesBounded(trace, evs, id, i, j - 1);
      BudgetRun(trace, evs, id, i, j - 1);
      SoundAlways(trace, evs, i);
      SoundAlways(trace, evs, j - 1);
      assert IsStep(trace, evs, j - 1);
      var c := RowChange(trace[j - 1], evs[j - 1], trace[j], id);
      MeasureFalls(trace[j - 1].db.tasks[id], trace[j].db.tasks[id], c,
                   TokenOf(evs[j - 1]), evs[j - 1].now, trace[j - 1].used);
    }
  }

  /** Nothing keeps the budget fixed after a claim: setting it moves the measure by four per attempt,
      so it rises exactly when the new budget is larger. */
  lemma BudgetMovesMeasure(db: Tables, id: TaskId, max: int)
    requires id in db.tasks && max >= 1
    ensures var t, t' := db.tasks[id], SetMaxAttempts(db, id, max).tasks[id];
            && Measure(t') == Measure(t) + 4 * (max - t.maxAttempts)
            && (Measure(t') > Measure(t) <==> max > t.maxAttempts)
  {
  }

  /** An exhausted task whose lease ran out is failed by the next claim, and leased again if its budget
      was raised before that claim. */
  lemma RaisedBudgetLeasesAgain(t: Task, worker: Did, nanos: int, token: string, now: int, max: int)
    requires t.assignee == worker && Expired(t, now) && !PastDeadline(t, now)
    requires t.maxAttempts >= 1 && t.attempt == t.maxAttempts
    ensures ClaimTask(t, worker, nanos, token, now).1 == AttemptsExhausted
    ensures ClaimTask(t.(maxAttempts := max), worker, nanos, token, now).1.Lease? <==> max > t.maxAttempts || max <= 0
  {
  }
}
