/** Runs of the outbox: messages are accepted at any time, one flush works at a time, and the process may
    die and reopen its database between any two steps. Each statement of a flush is a step of its own, so messages
    and crashes may also come between them; a statement that fails is no step. */
module OutboxRuns {
  import opened ThreadTypes
  import opened Outbox
  import opened OutboxStores

  /** `inflight`: claimed items the running flush has still to handle. `tries` counts the calls of `deliver`
      for a message, and `unsaved` those whose result was not stored. */
  datatype World = World(rows: Table, inflight: seq<Item>, tries: map<MessageId, nat>, unsaved: map<MessageId, nat>)

  datatype Event =
    | Accept(id: MessageId, kind: MessageKind, now: int)
    | ExpireOld(now: int)
    | ReclaimStale(now: int)
    | ClaimDue(now: int, later: int, ids: seq<MessageId>)
    | HandleItem(ok: bool, now: int, saved: bool)
    | DieAndReopen

  function Count(m: map<MessageId, nat>, id: MessageId): nat {
    if id in m then m[id] else 0
  }

  ghost predicate Enabled(w: World, ev: Event) {
    match ev
    case Accept(_, _, _) => true
    case ExpireOld(_) => w.inflight == []
    case ReclaimStale(_) => w.inflight == []
    case ClaimDue(_, later, ids) => w.inflight == [] && IsBatch(w.rows, later - RETRY_MS, ids)
    case HandleItem(_, _, _) => w.inflight != []
    case DieAndReopen => true
  }

  /** `deliver` is called for the first item in flight, unless its payload is corrupt. */
  predicate Calls(w: World, ev: Event, id: MessageId) {
    ev.HandleItem? && w.inflight != [] && w.inflight[0].id == id && w.inflight[0].payload.Some?
  }

  predicate Succeeds(w: World, ev: Event, id: MessageId) {
    Calls(w, ev, id) && ev.ok
  }

  ghost function Apply(w: World, ev: Event): World
    requires Enabled(w, ev)
  {
    match ev
    case Accept(id, kind, now) => w.(rows := Enqueue(w.rows, id, kind, now))
    case ExpireOld(now) => w.(rows := Expire(w.rows, now))
    case ReclaimStale(now) => w.(rows := Reclaim(w.rows, now))
    case ClaimDue(now, _, ids) => w.(rows := ClaimRows(w.rows, ids, now), inflight := ItemsOf(w.rows, ids))
    case HandleItem(ok, now, saved) =>
      var item := w.inflight[0];
      World(Finish(w.rows, item, ok, now, saved), w.inflight[1..],
            if item.payload.Some? then w.tries[item.id := Count(w.tries, item.id) + 1] else w.tries,
            if item.payload.Some? && !saved then w.unsaved[item.id := Count(w.unsaved, item.id) + 1] else w.unsaved)
    case DieAndReopen => w.(rows := Reopen(w.rows), inflight := [])
  }

  /** Opened on a table in which the durable flag is only set for durable kinds, as it is in a table written
      by this outbox and in one from before the flag existed. */
  ghost predicate Init(w: World) {
    && (exists legacy :: FlagSound(legacy) && w.rows == Reopen(legacy))
    && w.inflight == [] && w.tries == map[] && w.unsaved == map[]
  }

  ghost predicate FlagSound(t: Table) {
    forall id :: id in t && t[id].payload.Some? && t[id].durable ==> DurableKind(t[id].payload.value)
  }

  ghost predicate IsStep(trace: seq<World>, evs: seq<Event>, i: nat)
    requires |trace| == |evs| + 1 && i < |evs|
  {
    Enabled(trace[i], evs[i]) && trace[i + 1] == Apply(trace[i], evs[i])
  }

  ghost predicate IsRun(trace: seq<World>, evs: seq<Event>) {
    && |trace| == |evs| + 1
    && Init(trace[0])
    && forall i :: 0 <= i < |evs| ==> IsStep(trace, evs, i)
  }

  /** The items of a flush handled one step at a time leave the table that the delivery loop leaves. */
  ghost function HandleItems(w: World, outcome: MessageId -> Attempt, n: nat): (v: World)
    requires n <= |w.inflight|
    ensures v.inflight == w.inflight[n..]
    ensures v.rows == FinishAll(w.rows, w.inflight, outcome, n)
  {
    if n == 0 then w
    else
      var u := HandleItems(w, outcome, n - 1);
      var a := outcome(u.inflight[0].id);
      Apply(u, HandleItem(a.ok, a.now, a.saved))
  }

  // ---- what every step keeps ----

  ghost predicate FlagExact(t: Table) {
    forall id :: id in t && t[id].payload.Some? ==> (t[id].durable <==> DurableKind(t[id].payload.value))
  }

  ghost predicate Held(t: Table, item: Item) {
    && item.id in t
    && t[item.id].status == Processing
    && t[item.id].payload == item.payload
    && t[item.id].durable == item.durable
    && t[item.id].attempts == item.attempts
  }

  /** Every item in flight is a row in processing, unchanged since it was claimed, and stands there once. */
  ghost predicate InFlight(w: World) {
    && (forall k :: 0 <= k < |w.inflight| ==> Held(w.rows, w.inflight[k]))
    && (forall k, m :: 0 <= k < m < |w.inflight| ==> w.inflight[k].id != w.inflight[m].id)
  }

  ghost predicate Inv(w: World) {
    FlagExact(w.rows) && InFlight(w)
  }

  lemma ReopenExact(t: Table)
    requires FlagSound(t)
    ensures FlagExact(Reopen(t))
  {
  }

  lemma InvClaim(w: World, ev: Event)
    requires Inv(w) && ev.ClaimDue? && Enabled(w, ev)
    ensures Inv(Apply(w, ev))
  {
    var items := ItemsOf(w.rows, ev.ids);
    forall k | 0 <= k < |items| ensures Held(ClaimRows(w.rows, ev.ids, ev.now), items[k]) {
      assert ev.ids[k] in ev.ids;
    }
  }

  lemma InvHandle(w: World, ev: Event)
    requires Inv(w) && ev.HandleItem? && Enabled(w, ev)
    ensures Inv(Apply(w, ev))
  {
    assert Held(w.rows, w.inflight[0]);
    var v := Apply(w, ev);
    forall k | 0 <= k < |v.inflight| ensures Held(v.rows, v.inflight[k]) {
      assert v.inflight[k] == w.inflight[k + 1];
      assert Held(w.rows, w.inflight[k + 1]);
    }
  }

  lemma InvStep(w: World, ev: Event)
    requires Inv(w) && Enabled(w, ev)
    ensures Inv(Apply(w, ev))
  {
    match ev
    case Accept(id, kind, now) =>
      forall k | 0 <= k < |w.inflight| ensures Held(Apply(w, ev).rows, w.inflight[k]) {
        assert Held(w.rows, w.inflight[k]);
      }
    case ExpireOld(_) =>
    case ReclaimStale(_) =>
    case ClaimDue(_, _, _) => InvClaim(w, ev);
    case HandleItem(_, _, _) => InvHandle(w, ev);
    case DieAndReopen => ReopenExact(w.rows);
  }

  lemma {:induction false} InvAlways(trace: seq<World>, evs: seq<Event>, i: nat)
    requires IsRun(trace, evs) && i < |trace|
    ensures Inv(trace[i])
  {
    if i == 0 {
      var legacy :| FlagSound(legacy) && trace[0].rows == Reopen(legacy);
      ReopenExact(legacy);
    } else {
      InvAlways(trace, evs, i - 1);
      assert IsStep(trace, evs, i - 1);
      InvStep(trace[i - 1], evs[i - 1]);
    }
  }

  // ---- what becomes of a message ----

  /** What one step can do to a message: the only ways out of pending and processing are a `deliver` call
      that succeeds, expiry, and a tenth failure; the last two only for messages that are not wake messages. */
  lemma OneStep(w: World, ev: Event, id: MessageId)
    requires Inv(w) && Enabled(w, ev) && id in w.rows && w.rows[id].payload.Some?
    ensures id in Apply(w, ev).rows
    ensures var r, s := w.rows[id], Apply(w, ev).rows[id];
            && s.payload == r.payload && s.expiresAt == r.expiresAt
            && (s.attempts == r.attempts || (Calls(w, ev, id) && s.attempts == r.attempts + 1))
            && (s.status == r.status
                || (Active(r) && (|| Active(s)
                                  || (s.status == Delivered && Succeeds(w, ev, id))
                                  || (s.status == Expired && !Wake(r) && ev.ExpireOld? && r.expiresAt < ev.now)
                                  || (s.status == DeadLetter && !Wake(r) && Calls(w, ev, id)
                                      && s.attempts >= MAX_ATTEMPTS))))
  {
    match ev
    case Accept(_, _, _) =>
    case ExpireOld(_) =>
    case ReclaimStale(_) =>
    case ClaimDue(_, _, _) =>
    case HandleItem(_, _, _) => assert Held(w.rows, w.inflight[0]);
    case DieAndReopen =>
  }

  /** A delivered row never changes again, and `deliver` is not called for it. */
  lemma DeliveredStep(w: World, ev: Event, id: MessageId)
    requires Inv(w) && Enabled(w, ev) && id in w.rows && w.rows[id].status == Delivered
    requires w.rows[id].durable || !Wake(w.rows[id])
    ensures id in Apply(w, ev).rows && Apply(w, ev).rows[id] == w.rows[id] && !Calls(w, ev, id)
  {
    match ev
    case Accept(_, _, _) =>
    case ExpireOld(_) =>
    case ReclaimStale(_) =>
    case ClaimDue(_, _, _) =>
    case HandleItem(_, _, _) => assert Held(w.rows, w.inflight[0]);
    case DieAndReopen =>
  }

  /** Some `deliver` call for the message succeeded between the two points of the run. */
  ghost predicate DeliveredBetween(trace: seq<World>, evs: seq<Event>, id: MessageId, i: nat, j: nat)
    requires |trace| == |evs| + 1 && i <= j < |trace|
  {
    exists m :: i <= m < j && Succeeds(trace[m], evs[m], id)
  }

  /** Once its row says so, a message stays delivered, through every crash, and is not sent again. */
  lemma {:induction false} DeliveredForEver(trace: seq<World>, evs: seq<Event>, id: MessageId, i: nat, j: nat)
    requires IsRun(trace, evs) && i <= j < |trace|
    requires id in trace[i].rows && trace[i].rows[id].status == Delivered
    ensures id in trace[j].rows && trace[j].rows[id] == trace[i].rows[id]
    ensures j < |evs| ==> !Calls(trace[j], evs[j], id)
    decreases j
  {
    if j > i {
      DeliveredForEver(trace, evs, id, i, j - 1);
      InvAlways(trace, evs, j - 1);
      assert IsStep(trace, evs, j - 1);
      DeliveredStep(trace[j - 1], evs[j - 1], id);
    }
    InvAlways(trace, evs, j);
    if j < |evs| {
      assert IsStep(trace, evs, j);
      DeliveredStep(trace[j], evs[j], id);
    }
  }

  /** A wake message that is pending or in processing stays so, over every run with crashes and failed
      updates, until a `deliver` call for it succeeds; it never expires and is never given up. */
  lemma {:induction false} WakeSurvives(trace: seq<World>, evs: seq<Event>, id: MessageId, i: nat, j: nat)
    requires IsRun(trace, evs) && i <= j < |trace|
    requires id in trace[i].rows && Wake(trace[i].rows[id]) && Active(trace[i].rows[id])
    ensures id in trace[j].rows && trace[j].rows[id].payload == trace[i].rows[id].payload
    ensures Active(trace[j].rows[id]) ||
            (trace[j].rows[id].status == Delivered && DeliveredBetween(trace, evs, id, i, j))
    decreases j
  {
    if j > i {
      WakeSurvives(trace, evs, id, i, j - 1);
      InvAlways(trace, evs, j - 1);
      assert IsStep(trace, evs, j - 1);
      if Active(trace[j - 1].rows[id]) {
        OneStep(trace[j - 1], evs[j - 1], id);
      } else {
        DeliveredStep(trace[j - 1], evs[j - 1], id);
      }
    }
  }

  /** In particular from the moment the outbox accepted it under a new id. */
  lemma AcceptedWakeSurvives(trace: seq<World>, evs: seq<Event>, i: nat, j: nat)
    requires IsRun(trace, evs) && i < j < |trace|
    requires evs[i].Accept? && DurableKind(evs[i].kind) && evs[i].id !in trace[i].rows
    ensures var id := evs[i].id;
            id in trace[j].rows && trace[j].rows[id].payload == Some(evs[i].kind)
            && (Active(trace[j].rows[id]) ||
                (trace[j].rows[id].status == Delivered && DeliveredBetween(trace, evs, id, i + 1, j)))
  {
    assert IsStep(trace, evs, i);
    WakeSurvives(trace, evs, evs[i].id, i + 1, j);
  }

  /** What has become of a message at point `j` of a run: still to be delivered; delivered by a call that
      succeeded; expired in a flush later than its time to live; or given up after ten calls at least. */
  ghost predicate Fate(trace: seq<World>, evs: seq<Event>, id: MessageId, expiresAt: int, i: nat, j: nat)
    requires |trace| == |evs| + 1 && i <= j < |trace|
  {
    && id in trace[j].rows && trace[j].rows[id].payload.Some? && trace[j].rows[id].expiresAt == expiresAt
    && trace[j].rows[id].attempts <= Count(trace[j].tries, id)
    && match trace[j].rows[id].status
       case Delivered => DeliveredBetween(trace, evs, id, i, j)
       case Expired => !Wake(trace[j].rows[id]) &&
         exists m :: i <= m < j && evs[m].ExpireOld? && expiresAt < evs[m].now
       case DeadLetter => !Wake(trace[j].rows[id]) && Count(trace[j].tries, id) >= MAX_ATTEMPTS
       case Failed => false
       case _ => true
  }

  lemma TriesGrow(w: World, ev: Event, id: MessageId)
    requires Enabled(w, ev)
    ensures Count(Apply(w, ev).tries, id) == Count(w.tries, id) + if Calls(w, ev, id) then 1 else 0
  {
  }

  lemma FateStep(trace: seq<World>, evs: seq<Event>, id: MessageId, expiresAt: int, i: nat, j: nat)
    requires |trace| == |evs| + 1 && i <= j < |evs| && IsStep(trace, evs, j) && Inv(trace[j])
    requires Fate(trace, evs, id, expiresAt, i, j)
    ensures Fate(trace, evs, id, expiresAt, i, j + 1)
  {
    var w, ev, w' := trace[j], evs[j], trace[j + 1];
    OneStep(w, ev, id);
    TriesGrow(w, ev, id);
  }

  lemma FateStart(trace: seq<World>, evs: seq<Event>, i: nat, before: World, after: World)
    requires |trace| == |evs| + 1 && i < |evs| && before == trace[i] && after == trace[i + 1] && IsStep(trace, evs, i)
    requires evs[i].Accept? && evs[i].id !in before.rows
    ensures Fate(trace, evs, evs[i].id, evs[i].now + TTL_MS, i + 1, i + 1)
  {
    assert after.rows == Enqueue(before.rows, evs[i].id, evs[i].kind, evs[i].now);
    assert after.rows[evs[i].id] ==
           Row(Some(evs[i].kind), DurableKind(evs[i].kind), evs[i].now + TTL_MS, 0, None, Pending);
  }

  lemma FateNext(trace: seq<World>, evs: seq<Event>, id: MessageId, expiresAt: int, i: nat, j: nat)
    requires IsRun(trace, evs) && i <= j < |evs| && Fate(trace, evs, id, expiresAt, i, j)
    ensures Fate(trace, evs, id, expiresAt, i, j + 1)
  {
    InvAlways(trace, evs, j);
    assert IsStep(trace, evs, j);
    FateStep(trace, evs, id, expiresAt, i, j);
  }

  /** No accepted message is lost, of whatever kind: over every run its fate is one of the four. */
  lemma {:induction false} FateOfAccepted(trace: seq<World>, evs: seq<Event>, i: nat, j: nat)
    requires IsRun(trace, evs) && i < j < |trace|
    requires evs[i].Accept? && evs[i].id !in trace[i].rows
    ensures Fate(trace, evs, evs[i].id, evs[i].now + TTL_MS, i + 1, j)
    decreases j
  {
    if j == i + 1 {
      assert IsStep(trace, evs, i);
      FateStart(trace, evs, i, trace[i], trace[j]);
    } else {
      FateOfAccepted(trace, evs, i, j - 1);
      FateNext(trace, evs, evs[i].id, evs[i].now + TTL_MS, i + 1, j - 1);
    }
  }

  /** The backfill rescues a wake message from before the flag existed, whatever had become of it short of
      being delivered or given up. */
  lemma ReopenRescues(t: Table, id: MessageId)
    requires id in t && Wake(t[id]) && !t[id].durable
    ensures id in Reopen(t) && Reopen(t)[id].durable
    ensures Active(Reopen(t)[id]) <==> t[id].status != Delivered && t[id].status != DeadLetter
  {
  }

  // ---- the retry budget of the others ----

  ghost predicate WithinBudget(w: World, id: MessageId) {
    id in w.rows && !Wake(w.rows[id]) ==>
      && (w.rows[id].payload.Some? ==> Count(w.tries, id) <= w.rows[id].attempts + Count(w.unsaved, id))
      && (w.rows[id].payload.None? ==> Count(w.tries, id) == 0)
      && (Active(w.rows[id]) && w.rows[id].payload.Some? ==> w.rows[id].attempts < MAX_ATTEMPTS)
      && Count(w.tries, id) <= MAX_ATTEMPTS + Count(w.unsaved, id)
  }

  /** Messages that are not in the table have not been tried. */
  ghost predicate TriedAreKnown(w: World) {
    forall id :: id in w.tries || id in w.unsaved ==> id in w.rows
  }

  lemma KnownStep(w: World, ev: Event)
    requires Inv(w) && Enabled(w, ev) && TriedAreKnown(w)
    ensures TriedAreKnown(Apply(w, ev)) && w.rows.Keys <= Apply(w, ev).rows.Keys
  {
    match ev
    case Accept(_, _, _) =>
    case ExpireOld(_) =>
    case ReclaimStale(_) =>
    case ClaimDue(_, _, _) =>
    case HandleItem(_, _, _) => assert Held(w.rows, w.inflight[0]);
    case DieAndReopen =>
  }

  lemma BudgetStep(w: World, ev: Event, id: MessageId)
    requires Inv(w) && Enabled(w, ev) && TriedAreKnown(w) && WithinBudget(w, id)
    ensures WithinBudget(Apply(w, ev), id)
  {
    match ev
    case Accept(_, _, _) =>
    case ExpireOld(_) =>
    case ReclaimStale(_) =>
    case ClaimDue(_, _, _) =>
    case HandleItem(_, _, _) => assert Held(w.rows, w.inflight[0]);
    case DieAndReopen =>
  }

  lemma {:induction false} BudgetAlways(trace: seq<World>, evs: seq<Event>, id: MessageId, i: nat)
    requires IsRun(trace, evs) && i < |trace| && BudgetLeft(trace[0], id)
    ensures TriedAreKnown(trace[i]) && WithinBudget(trace[i], id)
  {
    if i > 0 {
      BudgetAlways(trace, evs, id, i - 1);
      InvAlways(trace, evs, i - 1);
      assert IsStep(trace, evs, i - 1);
      KnownStep(trace[i - 1], evs[i - 1]);
      BudgetStep(trace[i - 1], evs[i - 1], id);
    }
  }

  /** The message is new, or an earlier run left it within its budget. */
  ghost predicate BudgetLeft(w: World, id: MessageId) {
    id in w.rows && Active(w.rows[id]) ==> w.rows[id].attempts < MAX_ATTEMPTS
  }

  /** A message that is not a wake message is tried at most ten times, plus once for every try whose result
      was not stored, by a failed update or by the death of the process. */
  lemma TriesBounded(trace: seq<World>, evs: seq<Event>, id: MessageId, i: nat)
    requires IsRun(trace, evs) && i < |trace| && BudgetLeft(trace[0], id)
    requires id in trace[i].rows && !Wake(trace[i].rows[id])
    ensures Count(trace[i].tries, id) <= MAX_ATTEMPTS + Count(trace[i].unsaved, id)
  {
    BudgetAlways(trace, evs, id, i);
  }

  ghost predicate AllSaved(evs: seq<Event>, n: nat)
    requires n <= |evs|
  {
    forall k :: 0 <= k < n && evs[k].HandleItem? ==> evs[k].saved
  }

  lemma {:induction false} NothingUnsaved(trace: seq<World>, evs: seq<Event>, i: nat)
    requires IsRun(trace, evs) && i < |trace| && AllSaved(evs, i)
    ensures trace[i].unsaved == map[]
  {
    if i > 0 {
      NothingUnsaved(trace, evs, i - 1);
      assert IsStep(trace, evs, i - 1);
    }
  }

  /** Where every result is stored, that is ten. */
  lemma TenTries(trace: seq<World>, evs: seq<Event>, id: MessageId, i: nat)
    requires IsRun(trace, evs) && i < |trace| && BudgetLeft(trace[0], id) && AllSaved(evs, i)
    requires id in trace[i].rows && !Wake(trace[i].rows[id])
    ensures Count(trace[i].tries, id) <= MAX_ATTEMPTS
  {
    TriesBounded(trace, evs, id, i);
    NothingUnsaved(trace, evs, i);
  }
}
