/** The outgoing message queue: rows, one flush, and reopening after a process has died. */
module Outbox {
  import opened ThreadTypes

  type MessageId = string

  datatype MessageKind = ThreadInvite | TaskRequest | TaskResult | TaskCancel | OtherKind(code: int)

  datatype RowStatus = Pending | Processing | Delivered | Expired | Failed | DeadLetter

  /** `payload` is the kind the stored bytes decode to, or none if they are corrupt. */
  datatype Row = Row(payload: Option<MessageKind>, durable: bool, expiresAt: int, attempts: nat,
                     lastAttempt: Option<int>, status: RowStatus)

  type Table = map<MessageId, Row>

  const TTL_MS := 72 * 60 * 60 * 1000
  const MAX_ATTEMPTS := 10
  const RETRY_MS := 5000
  const LEASE_MS := 60000
  const BATCH := 50

  predicate DurableKind(kind: MessageKind) {
    !kind.OtherKind?
  }

  predicate Active(r: Row) {
    r.status == Pending || r.status == Processing
  }

  /** The message must not be lost. */
  predicate Wake(r: Row) {
    r.payload.Some? && DurableKind(r.payload.value)
  }

  /** Insert, or ignore a message id that is known already. */
  function Enqueue(t: Table, id: MessageId, kind: MessageKind, now: int): Table {
    if id in t then t else t[id := Row(Some(kind), DurableKind(kind), now + TTL_MS, 0, None, Pending)]
  }

  // ---- the statements of one flush ----

  function ExpireRow(r: Row, now: int): Row {
    if r.status == Pending && !r.durable && r.expiresAt < now then r.(status := Expired) else r
  }

  function Expire(t: Table, now: int): Table {
    map id | id in t :: ExpireRow(t[id], now)
  }

  /** A row without a last attempt is never in processing here; comparing NULL is false anyway. */
  function ReclaimRow(r: Row, now: int): Row {
    if r.status == Processing && r.lastAttempt.Some? && r.lastAttempt.value < now - LEASE_MS then r.(status := Pending)
    else r
  }

  function Reclaim(t: Table, now: int): Table {
    map id | id in t :: ReclaimRow(t[id], now)
  }

  /** Which of the three statements at the start of a flush the database carried out. */
  datatype Statements = Statements(expired: bool, reclaimed: bool, claimed: bool)

  /** The table that the claiming query sees. A statement that fails is logged and skipped. */
  function Prepared(t: Table, now: int, io: Statements): Table {
    var a := if io.expired then Expire(t, now) else t;
    if io.reclaimed then Reclaim(a, now) else a
  }

  predicate Claimable(r: Row, cutoff: int) {
    r.status == Pending && (r.lastAttempt.None? || r.lastAttempt.value < cutoff)
  }

  ghost predicate Distinct(ids: seq<MessageId>) {
    forall i, j :: 0 <= i < j < |ids| ==> ids[i] != ids[j]
  }

  /** The answer of the claiming query: distinct claimable rows in any order, all of them up to the limit. */
  ghost predicate IsBatch(t: Table, cutoff: int, ids: seq<MessageId>) {
    && |ids| <= BATCH
    && Distinct(ids)
    && (forall id :: id in ids ==> id in t && Claimable(t[id], cutoff))
    && (forall id :: id in t && Claimable(t[id], cutoff) && id !in ids ==> |ids| == BATCH)
  }

  function ClaimRows(t: Table, ids: seq<MessageId>, now: int): Table {
    map id | id in t :: if id in ids then t[id].(status := Processing, lastAttempt := Some(now)) else t[id]
  }

  /** What the claim returns of a row; the delivery loop works from this copy. */
  datatype Item = Item(id: MessageId, payload: Option<MessageKind>, attempts: nat, durable: bool)

  function ItemsOf(t: Table, ids: seq<MessageId>): seq<Item>
    requires forall id :: id in ids ==> id in t
  {
    seq(|ids|, i requires 0 <= i < |ids| => Item(ids[i], t[ids[i]].payload, t[ids[i]].attempts, t[ids[i]].durable))
  }

  /** The row after an item was handled; `ok` is whether `deliver` succeeded. */
  function FinishRow(r: Row, item: Item, ok: bool, now: int): Row {
    if item.payload.None? then r.(status := Failed, attempts := r.attempts + 1, lastAttempt := Some(now))
    else
      var status := if ok then Delivered
                    else if !item.durable && item.attempts + 1 >= MAX_ATTEMPTS then DeadLetter
                    else Pending;
      r.(status := status, attempts := item.attempts + 1, lastAttempt := Some(now))
  }

  /** An update that fails is logged and changes nothing. */
  function Finish(t: Table, item: Item, ok: bool, now: int, saved: bool): Table {
    if saved && item.id in t then t[item.id := FinishRow(t[item.id], item, ok, now)] else t
  }

  // ---- opening ----

  function ResetRow(r: Row): Row {
    if r.status == Processing then r.(status := Pending) else r
  }

  function BackfillRow(r: Row): Row {
    if !r.durable && Wake(r) then
      r.(durable := true, status := if r.status == Expired || r.status == Failed then Pending else r.status)
    else r
  }

  function Reopen(t: Table): Table {
    map id | id in t :: BackfillRow(ResetRow(t[id]))
  }
}

/** The outbox as an object whose table is updated in place. */
module OutboxStores {
  import opened ThreadTypes
  import opened Outbox

  /** How one delivery went: the answer of `deliver`, the time after it, and whether the update was stored. */
  datatype Attempt = Attempt(ok: bool, now: int, saved: bool)

  function FinishAll(t: Table, items: seq<Item>, outcome: MessageId -> Attempt, n: nat): Table
    requires n <= |items|
  {
    if n == 0 then t
    else
      var a := outcome(items[n - 1].id);
      Finish(FinishAll(t, items, outcome, n - 1), items[n - 1], a.ok, a.now, a.saved)
  }

  /** The claiming query's choice, taken in the order `order` lists the table. */
  method SelectBatch(t: Table, order: seq<MessageId>, cutoff: int) returns (ids: seq<MessageId>)
    requires Distinct(order) && forall id :: id in t <==> id in order
    ensures IsBatch(t, cutoff, ids)
  {
    ids := [];
    var i := 0;
    while i < |order| && |ids| < BATCH
      invariant 0 <= i <= |order| && |ids| <= BATCH
      invariant Distinct(ids)
      invariant forall id :: id in ids ==> id in order[..i] && id in t && Claimable(t[id], cutoff)
      invariant forall k :: 0 <= k < i && Claimable(t[order[k]], cutoff) ==> order[k] in ids
    {
      assert order[i] !in order[..i];
      if Claimable(t[order[i]], cutoff) {
        ids := ids + [order[i]];
      }
      i := i + 1;
    }
    forall id | id in t && Claimable(t[id], cutoff) && id !in ids ensures |ids| == BATCH {
      var k :| 0 <= k < |order| && order[k] == id;
      assert i <= k;
    }
  }

  class OutboxStore {
    var rows: Table

    /** Opening a database: rows left in processing go back, and wake messages written before the durable
        column existed are found by decoding them, then marked. */
    constructor (legacy: Table, order: seq<MessageId>)
      requires forall id :: id in legacy <==> id in order
      ensures rows == Outbox.Reopen(legacy)
    {
      var t := map id | id in legacy :: ResetRow(legacy[id]);
      var wakeIds: seq<MessageId> := [];
      var i := 0;
      while i < |order|
        invariant 0 <= i <= |order|
        invariant forall id :: id in wakeIds <==> id in order[..i] && !t[id].durable && Wake(t[id])
      {
        if !t[order[i]].durable && Wake(t[order[i]]) {
          wakeIds := wakeIds + [order[i]];
        }
        i := i + 1;
      }
      assert order[..|order|] == order;
      var u := t;
      i := 0;
      while i < |wakeIds|
        invariant 0 <= i <= |wakeIds|
        invariant u.Keys == t.Keys
        invariant forall id :: id in t ==> u[id] == if id in wakeIds[..i] then BackfillRow(t[id]) else t[id]
      {
        var r := u[wakeIds[i]];
        u := u[wakeIds[i] := r.(durable := true,
                                status := if r.status == Expired || r.status == Failed then Pending else r.status)];
        i := i + 1;
      }
      assert wakeIds[..|wakeIds|] == wakeIds;
      assert u == Outbox.Reopen(legacy);
      rows := u;
    }

    method Enqueue(id: MessageId, kind: MessageKind, now: int)
      modifies this
      ensures rows == Outbox.Enqueue(old(rows), id, kind, now)
    {
      var durable := DurableKind(kind);
      var expiresAt := now + TTL_MS;
      if id !in rows {
        rows := rows[id := Row(Some(kind), durable, expiresAt, 0, None, Pending)];
      }
    }

    /** The three statements at the start of a flush: expire, reclaim, claim. */
    method ClaimBatch(now: int, later: int, order: seq<MessageId>, io: Statements)
      returns (ids: seq<MessageId>, items: seq<Item>)
      requires Distinct(order) && forall id :: id in rows <==> id in order
      modifies this
      ensures io.claimed ==> IsBatch(Prepared(old(rows), now, io), later - RETRY_MS, ids)
                             && items == ItemsOf(Prepared(old(rows), now, io), ids)
                             && rows == ClaimRows(Prepared(old(rows), now, io), ids, now)
      ensures !io.claimed ==> ids == [] && items == [] && rows == Prepared(old(rows), now, io)
    {
      if io.expired {
        rows := Expire(rows, now);
      }
      if io.reclaimed {
        rows := Reclaim(rows, now);
      }
      ids, items := [], [];
      if io.claimed {
        ids := SelectBatch(rows, order, later - RETRY_MS);
        items := ItemsOf(rows, ids);
        rows := ClaimRows(rows, ids, now);
      }
    }

    /** One item of the delivery loop; `a` is how its delivery went. */
    method DeliverItem(item: Item, a: Attempt)
      modifies this
      ensures rows == Outbox.Finish(old(rows), item, a.ok, a.now, a.saved)
      ensures a.saved && a.ok && item.payload.Some? && item.id in rows ==> rows[item.id].status == Delivered
    {
      if item.payload.None? {
        if a.saved && item.id in rows {
          var r := rows[item.id];
          rows := rows[item.id := r.(status := Failed, attempts := r.attempts + 1, lastAttempt := Some(a.now))];
        }
        return;
      }
      var attempts := item.attempts + 1;
      var status := Delivered;
      if !a.ok {
        status := Pending;
        if !item.durable && attempts >= MAX_ATTEMPTS {
          status := DeadLetter;
        }
      }
      if a.saved && item.id in rows {
        rows := rows[item.id := rows[item.id].(status := status, attempts := attempts, lastAttempt := Some(a.now))];
      }
    }

    /** The delivery loop over the claimed items. */
    method DeliverItems(items: seq<Item>, outcome: MessageId -> Attempt)
      modifies this
      ensures rows == FinishAll(old(rows), items, outcome, |items|)
    {
      for i := 0 to |items|
        invariant rows == FinishAll(old(rows), items, outcome, i)
      {
        DeliverItem(items[i], outcome(items[i].id));
      }
    }

    /** One whole flush. */
    method Flush(now: int, later: int, order: seq<MessageId>, io: Statements, outcome: MessageId -> Attempt)
      returns (ids: seq<MessageId>)
      requires Distinct(order) && forall id :: id in rows <==> id in order
      modifies this
      ensures io.claimed ==>
                var t := Prepared(old(rows), now, io);
                && IsBatch(t, later - RETRY_MS, ids)
                && rows == FinishAll(ClaimRows(t, ids, now), ItemsOf(t, ids), outcome, |ids|)
      ensures !io.claimed ==> ids == [] && rows == Prepared(old(rows), now, io)
    {
      var items;
      ids, items := ClaimBatch(now, later, order, io);
      DeliverItems(items, outcome);
    }
  }
}
