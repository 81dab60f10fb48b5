/** What a delivery attempt and the statements of a flush do to a row, in terms of its columns alone, and what
    follows for runs. */
module OutboxOutcomes {
  import opened ThreadTypes
  import opened Outbox
  import opened OutboxStores
  import opened OutboxRuns

  /** A message is delivered when its call succeeded; after a failure it is tried again, unless it was the tenth try
      of a message that need not be kept. */
  function StatusAfter(durable: bool, attempts: nat, ok: bool): RowStatus {
    if ok then Delivered else if durable || attempts < 10 then Pending else DeadLetter
  }

  /** The row after an item was handled and the result stored. */
  lemma ItemOutcome(r: Row, item: Item, ok: bool, now: int)
    ensures var r' := FinishRow(r, item, ok, now);
            && r' == r.(status := r'.status, attempts := r'.attempts, lastAttempt := Some(now))
            && (item.payload.Some? ==>
                  r'.attempts == item.attempts + 1 && r'.status == StatusAfter(item.durable, item.attempts + 1, ok))
            && (item.payload.None? ==> r'.status == Failed && r'.attempts == r.attempts + 1)
  {
  }

  /** In every run, a call whose result is stored counts one attempt and decides the status: delivered after a
      success; after a failure pending, for ever if the message is a wake message, and dead letter otherwise from the
      tenth on. */
  lemma CallOutcome(trace: seq<World>, evs: seq<Event>, m: nat, id: MessageId)
    requires IsRun(trace, evs) && m < |evs| && Calls(trace[m], evs[m], id)
    ensures id in trace[m].rows && id in trace[m + 1].rows
    ensures var r, r' := trace[m].rows[id], trace[m + 1].rows[id];
            if evs[m].saved then
              && r'.attempts == r.attempts + 1 && r'.lastAttempt == Some(evs[m].now)
              && r'.status == StatusAfter(Wake(r), r.attempts + 1, evs[m].ok)
            else r' == r
  {
    InvAlways(trace, evs, m);
    assert IsStep(trace, evs, m);
    assert Held(trace[m].rows, trace[m].inflight[0]);
    ItemOutcome(trace[m].rows[id], trace[m].inflight[0], evs[m].ok, evs[m].now);
  }

  /** A success that was stored: the row is delivered from then on, and the message is never sent again. */
  lemma SuccessIsFinal(trace: seq<World>, evs: seq<Event>, m: nat, j: nat, id: MessageId)
    requires IsRun(trace, evs) && m < j < |trace| && Succeeds(trace[m], evs[m], id) && evs[m].saved
    ensures id in trace[j].rows && trace[j].rows[id].status == Delivered
    ensures j < |evs| ==> !Calls(trace[j], evs[j], id)
  {
    CallOutcome(trace, evs, m, id);
    DeliveredForEver(trace, evs, id, m + 1, j);
  }

  /** So each message has at most one stored success. */
  lemma OneStoredSuccess(trace: seq<World>, evs: seq<Event>, m: nat, k: nat, id: MessageId)
    requires IsRun(trace, evs) && m < |evs| && k < |evs|
    requires Succeeds(trace[m], evs[m], id) && evs[m].saved && Succeeds(trace[k], evs[k], id) && evs[k].saved
    ensures m == k
  {
    if m < k {
      SuccessIsFinal(trace, evs, m, k, id);
    } else if k < m {
      SuccessIsFinal(trace, evs, k, m, id);
    }
  }

  // ---- the statements of a flush ----

  /** Expiry ends exactly the pending rows past their time to live that are not durable; reclaiming returns exactly the
      rows that have been in processing for more than a minute; a claim puts exactly its rows into processing. */
  lemma StatementOutcome(t: Table, now: int, ids: seq<MessageId>, id: MessageId)
    requires id in t
    ensures id in Expire(t, now) && id in Reclaim(t, now) && id in ClaimRows(t, ids, now)
    ensures Expire(t, now)[id] == if t[id].status == Pending && !t[id].durable && t[id].expiresAt < now
                                  then t[id].(status := Expired) else t[id]
    ensures Reclaim(t, now)[id] == if t[id].status == Processing && t[id].lastAttempt.Some?
                                      && t[id].lastAttempt.value + 60_000 < now
                                   then t[id].(status := Pending) else t[id]
    ensures ClaimRows(t, ids, now)[id] == if id in ids then t[id].(status := Processing, lastAttempt := Some(now))
                                          else t[id]
  {
  }

  /** An accepted message waits, untried, with three days to live; a message id that is known changes nothing. */
  lemma EnqueueOutcome(t: Table, id: MessageId, kind: MessageKind, now: int)
    ensures Enqueue(t, id, kind, now) ==
              if id in t then t
              else t[id := Row(Some(kind), kind in {ThreadInvite, TaskRequest, TaskResult, TaskCancel},
                               now + 259_200_000, 0, None, Pending)]
  {
  }

  /** Pending, and not tried in the five seconds before. */
  predicate IsDue(r: Row, later: int) {
    r.status == Pending && (r.lastAttempt.None? || r.lastAttempt.value + 5_000 < later)
  }

  /** In every run a claim takes rows that are due, 50 at most and all of them if they are fewer, each once; the
      items in flight are then those rows. */
  lemma ClaimOutcome(trace: seq<World>, evs: seq<Event>, i: nat)
    requires IsRun(trace, evs) && i < |evs| && evs[i].ClaimDue?
    ensures |trace[i + 1].inflight| <= 50
    ensures forall id :: Inflight(trace[i + 1], id) ==> id in trace[i].rows && IsDue(trace[i].rows[id], evs[i].later)
    ensures |trace[i + 1].inflight| < 50 ==>
              forall id :: id in trace[i].rows && IsDue(trace[i].rows[id], evs[i].later) ==> Inflight(trace[i + 1], id)
    ensures forall id :: Inflight(trace[i + 1], id) ==>
              id in trace[i + 1].rows
              && trace[i + 1].rows[id] == trace[i].rows[id].(status := Processing, lastAttempt := Some(evs[i].now))
  {
    assert IsStep(trace, evs, i);
    var w, ids := trace[i], evs[i].ids;
    forall id ensures Inflight(trace[i + 1], id) <==> id in ids {
      if id in ids {
        var k :| 0 <= k < |ids| && ids[k] == id;
        assert trace[i + 1].inflight[k].id == id;
      }
    }
    forall id | id in ids ensures id in w.rows && IsDue(w.rows[id], evs[i].later) {
      assert Claimable(w.rows[id], evs[i].later - RETRY_MS);
    }
    forall id | id in w.rows && IsDue(w.rows[id], evs[i].later) && |ids| < 50 ensures id in ids {
      assert Claimable(w.rows[id], evs[i].later - RETRY_MS);
    }
  }

  /** The message is one the running flush has still to handle. */
  ghost predicate Inflight(w: World, id: MessageId) {
    exists k :: 0 <= k < |w.inflight| && w.inflight[k].id == id
  }

  /** Opening puts rows in processing back and finds the wake messages that an older version wrote. */
  lemma ReopenOutcome(t: Table, id: MessageId)
    requires id in t
    ensures id in Reopen(t)
    ensures var r, r' := t[id], Reopen(t)[id];
            && r' == r.(status := r'.status, durable := r.durable || Wake(r))
            && r'.status == if r.status == Processing then Pending
                            else if !r.durable && Wake(r) && (r.status == Expired || r.status == Failed) then Pending
                            else r.status
  {
  }

  /** Every row in processing says when it was claimed. */
  ghost predicate ClaimsDated(t: Table) {
    forall id :: id in t && t[id].status == Processing ==> t[id].lastAttempt.Some?
  }

  lemma DatedStep(w: World, ev: Event)
    requires Enabled(w, ev) && ClaimsDated(w.rows)
    ensures ClaimsDated(Apply(w, ev).rows)
  {
  }

  lemma {:induction false} DatedAlways(trace: seq<World>, evs: seq<Event>, i: nat)
    requires IsRun(trace, evs) && i < |trace|
    ensures ClaimsDated(trace[i].rows)
  {
    if i > 0 {
      DatedAlways(trace, evs, i - 1);
      assert IsStep(trace, evs, i - 1);
      DatedStep(trace[i - 1], evs[i - 1]);
    }
  }

  /** No message is left in processing: at any point of any run, a reclaim more than a minute after the claim, or a
      restart at once, makes it pending again. */
  lemma NoneStuck(trace: seq<World>, evs: seq<Event>, i: nat, id: MessageId, now: int)
    requires IsRun(trace, evs) && i < |trace| && id in trace[i].rows && trace[i].rows[id].status == Processing
    ensures trace[i].rows[id].lastAttempt.Some?
    ensures id in Reopen(trace[i].rows) && Reopen(trace[i].rows)[id].status == Pending
    ensures id in Reclaim(trace[i].rows, now)
    ensures Reclaim(trace[i].rows, now)[id].status == Pending <==> trace[i].rows[id].lastAttempt.value + 60_000 < now
  {
    DatedAlways(trace, evs, i);
    StatementOutcome(trace[i].rows, now, [], id);
  }
}
