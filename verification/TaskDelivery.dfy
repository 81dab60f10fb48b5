/** A worker that polls the delivery log with a fixed skill list and always resumes after the last
    sequence it received, while tasks are created, claimed, expired and requeued around it. */
module TaskDelivery {
  import opened ThreadTypes
  import opened Tasks
  import opened TaskRuns

  datatype Worker = Worker(did: Did, skills: seq<string>, limit: int)

  /** `page` is what is left to send of the last page that was fetched. */
  datatype Stream = Stream(w: World, cursor: nat, received: seq<Delivery>, page: seq<Delivery>)

  /** A step of the store, a query for the next page, or the sending of one delivery. What is left of an old page when a
      new one is fetched was never sent: its stream had ended. The expiry at the start of a poll is a store step. */
  datatype Turn = Store(ev: Event) | Fetch(page: seq<Delivery>) | Send

  ghost predicate TurnLeads(wk: Worker, s: Stream, turn: Turn, s': Stream) {
    match turn
    case Store(ev) => Leads(s.w, ev, s'.w) && s' == s.(w := s'.w)
    case Fetch(page) => IsPage(s.w.db, wk.did, wk.skills, s.cursor, wk.limit, page) && s' == s.(page := page)
    case Send => s.page != [] && s' == Sent(s)
  }

  function Sent(s: Stream): Stream
    requires s.page != []
  {
    Stream(s.w, s.page[0].sequence, s.received + [s.page[0]], s.page[1..])
  }

  const IDLE := Stream(START, 0, [], [])

  ghost predicate IsRun(wk: Worker, run: seq<Stream>, turns: seq<Turn>) {
    && |run| == |turns| + 1 && run[0] == IDLE
    && forall i: nat :: i < |turns| ==> IsTurn(wk, run, turns, i)
  }

  ghost predicate IsTurn(wk: Worker, run: seq<Stream>, turns: seq<Turn>, i: nat)
    requires i < |turns| && |run| == |turns| + 1
  {
    TurnLeads(wk, run[i], turns[i], run[i + 1])
  }

  // ----- the log only grows

  lemma {:induction false} LatestAppend(a: seq<TaskId>, b: seq<TaskId>, id: TaskId)
    requires a <= b
    ensures if id in b[|a|..] then Latest(b, id) > |a| else Latest(b, id) == Latest(a, id)
  {
    if |a| < |b| {
      var n := |b| - 1;
      LatestAppend(a, b[..n], id);
      assert b[|a|..] == b[..n][|a|..] + [b[n]];
    } else {
      assert a == b;
    }
  }

  /** A requeued task gets a delivery beyond the old log. */
  lemma {:induction false} RequeueDelivers(db: Tables, ids: seq<TaskId>, now: int, id: TaskId)
    requires forall x :: x in ids ==> x in db.tasks
    requires forall i, j :: 0 <= i < j < |ids| ==> ids[i] != ids[j]
    requires id in ids && RequeueRows(db, ids, now).tasks[id].status == Submitted
    ensures db.deliveries <= RequeueRows(db, ids, now).deliveries
    ensures id in RequeueRows(db, ids, now).deliveries[|db.deliveries|..]
  {
    var init, last := ids[..|ids| - 1], ids[|ids| - 1];
    assert ids == init + [last];
    RequeueRowsAt(db, init, now, last);
    var before, after := RequeueRows(db, init, now), RequeueRows(db, ids, now);
    if last == id {
      assert after.deliveries == before.deliveries + [id];
      assert after.deliveries[|before.deliveries|] == id;
    } else {
      RequeueDelivers(db, init, now, id);
      assert before.deliveries <= after.deliveries;
      assert before.deliveries[|db.deliveries|..] <= after.deliveries[|db.deliveries|..];
    }
  }

  ghost predicate LogKnown(db: Tables) {
    forall id :: id in db.deliveries ==> id in db.tasks
  }

  lemma {:induction false} RequeueLog(db: Tables, ids: seq<TaskId>, now: int)
    requires forall x :: x in ids ==> x in db.tasks
    ensures db.deliveries <= RequeueRows(db, ids, now).deliveries
    ensures LogKnown(db) ==> LogKnown(RequeueRows(db, ids, now))
  {
    if ids != [] {
      RequeueLog(db, ids[..|ids| - 1], now);
    }
  }

  lemma LogGrows(w: World, ev: Event, w': World)
    requires Leads(w, ev, w')
    ensures w.db.deliveries <= w'.db.deliveries
    ensures LogKnown(w.db) ==> LogKnown(w'.db)
  {
    if ev.DoRequeue? {
      RequeueLog(w.db, ev.ids, ev.now);
    }
  }

  // ----- the invariant

  /** The task needs no further delivery at or below the cursor. */
  ghost predicate Served(wk: Worker, db: Tables, cursor: nat, received: seq<Delivery>, id: TaskId)
    requires id in db.tasks
  {
    Wanted(db.tasks[id], wk.did, wk.skills) && 1 <= Latest(db.deliveries, id) <= cursor ==>
      Delivery(Latest(db.deliveries, id), id) in received
  }

  /** Nothing between the cursor and the end of the fetched page is missing from the page. */
  ghost predicate PageCovers(wk: Worker, db: Tables, cursor: nat, page: seq<Delivery>, id: TaskId)
    requires id in db.tasks
  {
    page != [] && Wanted(db.tasks[id], wk.did, wk.skills)
    && cursor < Latest(db.deliveries, id) <= page[|page| - 1].sequence ==>
      Delivery(Latest(db.deliveries, id), id) in page
  }

  /** The page continues the deliveries received so far. */
  ghost predicate InOrder(s: Stream) {
    && s.cursor <= |s.w.db.deliveries|
    && Increasing(s.received) && (forall d :: d in s.received ==> d.sequence <= s.cursor)
    && Increasing(s.page) && (forall d :: d in s.page ==> s.cursor < d.sequence <= |s.w.db.deliveries|)
  }

  ghost predicate NothingMissed(wk: Worker, s: Stream) {
    && Sound(s.w) && LogKnown(s.w.db) && InOrder(s)
    && (forall id :: id in s.w.db.tasks ==> Served(wk, s.w.db, s.cursor, s.received, id))
    && (forall id :: id in s.w.db.tasks ==> PageCovers(wk, s.w.db, s.cursor, s.page, id))
  }

  /** A task becomes submitted only together with a delivery beyond the old log. */
  lemma SubmittedNeedsDelivery(w: World, ev: Event, w': World, id: TaskId)
    requires Leads(w, ev, w') && Sound(w) && LogKnown(w.db)
    requires id in w'.db.tasks && w'.db.tasks[id].status == Submitted
    ensures w.db.deliveries <= w'.db.deliveries
    ensures || id in w'.db.deliveries[|w.db.deliveries|..]
            || (id in w.db.tasks && w.db.tasks[id].status == Submitted
                && w'.db.tasks[id].assignee == w.db.tasks[id].assignee && w'.db.tasks[id].skill == w.db.tasks[id].skill)
            || Latest(w'.db.deliveries, id) == 0
  {
    LogGrows(w, ev, w');
    if id in w.db.tasks {
      var c := RowChange(w, ev, w', id);
      if c.Requeued? {
        RequeueDelivers(w.db, ev.ids, ev.now, id) by { RequeueEvent(w, ev, w', id); }
      }
    } else {
      NewRow(w, ev, w', id);
      LatestIsMax(w'.db.deliveries, id);
    }
  }

  lemma RequeueEvent(w: World, ev: Event, w': World, id: TaskId)
    requires Leads(w, ev, w') && Sound(w)
    requires id in w.db.tasks && id in w'.db.tasks && w.db.tasks[id].status == Working
    requires w'.db.tasks[id].status == Submitted
    ensures ev.DoRequeue? && id in ev.ids
  {
    if ev.DoRequeue? {
      RequeueRowsAt(w.db, ev.ids, ev.now, id);
    }
  }

  /** Store steps between and during polls miss nothing. */
  lemma StoreStep(wk: Worker, s: Stream, ev: Event, w': World)
    requires NothingMissed(wk, s) && Leads(s.w, ev, w')
    ensures NothingMissed(wk, s.(w := w'))
  {
    SoundStep(s.w, ev, w');
    LogGrows(s.w, ev, w');
    forall id | id in w'.db.tasks
      ensures Served(wk, w'.db, s.cursor, s.received, id) && PageCovers(wk, w'.db, s.cursor, s.page, id)
    {
      if w'.db.tasks[id].status == Submitted {
        SubmittedNeedsDelivery(s.w, ev, w', id);
        LatestAppend(s.w.db.deliveries, w'.db.deliveries, id);
        if id in s.w.db.tasks {
          assert Served(wk, s.w.db, s.cursor, s.received, id) && PageCovers(wk, s.w.db, s.cursor, s.page, id);
        }
      }
    }
  }

  /** A page leaves nothing out before its last delivery, although it is cut at the limit. */
  lemma FetchStep(wk: Worker, s: Stream, page: seq<Delivery>)
    requires NothingMissed(wk, s) && IsPage(s.w.db, wk.did, wk.skills, s.cursor, wk.limit, page)
    ensures NothingMissed(wk, s.(page := page))
  {
    forall id | id in s.w.db.tasks ensures PageCovers(wk, s.w.db, s.cursor, page, id) {
      var d := Delivery(Latest(s.w.db.deliveries, id), id);
      LatestIsMax(s.w.db.deliveries, id);
      if Wanted(s.w.db.tasks[id], wk.did, wk.skills) && s.cursor < d.sequence {
        assert Selected(s.w.db, wk.did, wk.skills, s.cursor, d);
      }
    }
  }

  /** Each delivery that arrives moves the cursor past nothing else. */
  lemma SendServes(wk: Worker, s: Stream, id: TaskId)
    requires NothingMissed(wk, s) && s.page != [] && id in s.w.db.tasks
    ensures Served(wk, s.w.db, Sent(s).cursor, Sent(s).received, id)
    ensures PageCovers(wk, s.w.db, Sent(s).cursor, Sent(s).page, id)
  {
    assert Served(wk, s.w.db, s.cursor, s.received, id) && PageCovers(wk, s.w.db, s.cursor, s.page, id);
    var d := Delivery(Latest(s.w.db.deliveries, id), id);
    if d in s.page {
      var m :| 0 <= m < |s.page| && s.page[m] == d;
      assert m > 0 ==> s.page[1..][m - 1] == d;
    }
    assert s.page[0] in s.page && s.page[|s.page| - 1] in s.page;
  }

  lemma SendStep(wk: Worker, s: Stream)
    requires NothingMissed(wk, s) && s.page != []
    ensures NothingMissed(wk, Sent(s))
  {
    assert s.page[0] in s.page;
    forall id | id in s.w.db.tasks
      ensures Served(wk, s.w.db, Sent(s).cursor, Sent(s).received, id)
      ensures PageCovers(wk, s.w.db, Sent(s).cursor, Sent(s).page, id)
    {
      SendServes(wk, s, id);
    }
  }

  lemma TurnStep(wk: Worker, s: Stream, turn: Turn, s': Stream)
    requires NothingMissed(wk, s) && TurnLeads(wk, s, turn, s')
    ensures NothingMissed(wk, s')
  {
    match turn {
      case Store(ev) => StoreStep(wk, s, ev, s'.w);
      case Fetch(page) => FetchStep(wk, s, page);
      case Send => SendStep(wk, s);
    }
  }

  lemma {:induction false} NothingMissedAlways(wk: Worker, run: seq<Stream>, turns: seq<Turn>, i: nat)
    requires IsRun(wk, run, turns) && i < |run|
    ensures NothingMissed(wk, run[i])
  {
    if i > 0 {
      NothingMissedAlways(wk, run, turns, i - 1);
      assert IsTurn(wk, run, turns, i - 1);
      TurnStep(wk, run[i - 1], turns[i - 1], run[i]);
    }
  }

  /** No missed delivery: in every run and for every submitted task that is assigned to the worker with a
      skill it asked for, if the task's latest delivery is at or below the cursor, then exactly that
      delivery was received. */
  lemma NoMissedDelivery(wk: Worker, run: seq<Stream>, turns: seq<Turn>, i: nat, id: TaskId)
    requires IsRun(wk, run, turns) && i < |run| && id in run[i].w.db.tasks
    requires Wanted(run[i].w.db.tasks[id], wk.did, wk.skills)
    requires 1 <= Latest(run[i].w.db.deliveries, id) <= run[i].cursor
    ensures Delivery(Latest(run[i].w.db.deliveries, id), id) in run[i].received
  {
    NothingMissedAlways(wk, run, turns, i);
    assert Served(wk, run[i].w.db, run[i].cursor, run[i].received, id);
  }

  /** No sequence is received twice. */
  lemma NoDeliveryTwice(wk: Worker, run: seq<Stream>, turns: seq<Turn>, i: nat, a: nat, b: nat)
    requires IsRun(wk, run, turns) && i < |run| && a < |run[i].received| && b < |run[i].received|
    requires run[i].received[a].sequence == run[i].received[b].sequence
    ensures a == b
  {
    NothingMissedAlways(wk, run, turns, i);
  }

  lemma WholePageServes(wk: Worker, db: Tables, cursor: nat, received: seq<Delivery>, page: seq<Delivery>, id: TaskId)
    requires id in db.tasks && Served(wk, db, cursor, received, id)
    requires IsPage(db, wk.did, wk.skills, cursor, wk.limit, page)
    requires wk.limit <= 0 || |page| < wk.limit
    requires Wanted(db.tasks[id], wk.did, wk.skills) && Latest(db.deliveries, id) >= 1
    ensures Delivery(Latest(db.deliveries, id), id) in received + page
  {
    var d := Delivery(Latest(db.deliveries, id), id);
    LatestIsMax(db.deliveries, id);
    if d.sequence > cursor {
      assert Selected(db, wk.did, wk.skills, cursor, d);
    }
  }

  /** Sending moves deliveries from the page to the received ones, in order. */
  lemma {:induction false} SendsDeliver(wk: Worker, run: seq<Stream>, turns: seq<Turn>, i: nat, j: nat)
    requires IsRun(wk, run, turns) && i <= j < |run| && forall k :: i <= k < j ==> turns[k].Send?
    ensures run[j].w == run[i].w && run[j].received + run[j].page == run[i].received + run[i].page
  {
    if i < j {
      SendsDeliver(wk, run, turns, i, j - 1);
      assert IsTurn(wk, run, turns, j - 1);
      var s := run[j - 1];
      assert s.received + [s.page[0]] + s.page[1..] == s.received + s.page;
    }
  }

  /** Nothing is left over: after a page that was not cut at the limit was fetched and sent in full, every submitted
      task for the worker that has a delivery has been received with its latest one. */
  lemma CaughtUp(wk: Worker, run: seq<Stream>, turns: seq<Turn>, i: nat, j: nat, id: TaskId)
    requires IsRun(wk, run, turns) && i < j < |run| && turns[i].Fetch?
    requires wk.limit <= 0 || |turns[i].page| < wk.limit
    requires (forall k :: i < k < j ==> turns[k].Send?) && run[j].page == []
    requires id in run[j].w.db.tasks && Wanted(run[j].w.db.tasks[id], wk.did, wk.skills)
    requires Latest(run[j].w.db.deliveries, id) >= 1
    ensures Delivery(Latest(run[j].w.db.deliveries, id), id) in run[j].received
  {
    NothingMissedAlways(wk, run, turns, i);
    assert IsTurn(wk, run, turns, i);
    SendsDeliver(wk, run, turns, i + 1, j);
    var s := run[i];
    assert Served(wk, s.w.db, s.cursor, s.received, id);
    WholePageServes(wk, s.w.db, s.cursor, s.received, turns[i].page, id);
  }
}
