/** One worker's `SubscribeTasks` stream over a running store. Whatever is done with the store in between, polling is a
    run of `TaskDelivery`, so the theorems about runs hold of the object. */
module TaskFeed {
  import opened ThreadTypes
  import opened Tasks
  import opened TaskRuns
  import opened TaskDelivery
  import opened TaskLedger

  lemma OneMoreTurn(wk: Worker, run: seq<Stream>, turns: seq<Turn>, turn: Turn, next: Stream)
    requires IsRun(wk, run, turns) && TurnLeads(wk, run[|turns|], turn, next)
    ensures IsRun(wk, run + [next], turns + [turn])
  {
    var run', turns' := run + [next], turns + [turn];
    forall i: nat | i < |turns'| ensures IsTurn(wk, run', turns', i) {
      if i < |turns| {
        assert IsTurn(wk, run, turns, i);
      }
    }
  }

  /** What the store has done since a stream last looked at it becomes turns of the stream. */
  lemma {:induction false} Follow(wk: Worker, run: seq<Stream>, turns: seq<Turn>, trace: seq<World>, evs: seq<Event>,
                                  seen: nat)
    returns (run': seq<Stream>, turns': seq<Turn>)
    requires IsRun(wk, run, turns) && IsTrace(trace, evs) && seen <= |evs| && run[|turns|].w == trace[seen]
    ensures IsRun(wk, run', turns') && run <= run' && turns <= turns'
    ensures run'[|turns'|] == run[|turns|].(w := trace[|evs|])
    decreases |evs| - seen
  {
    if seen == |evs| {
      run', turns' := run, turns;
    } else {
      assert IsStep(trace, evs, seen);
      var next := run[|turns|].(w := trace[seen + 1]);
      OneMoreTurn(wk, run, turns, Store(evs[seen]), next);
      run', turns' := Follow(wk, run + [next], turns + [Store(evs[seen])], trace, evs, seen + 1);
    }
  }

  const PAGE_LIMIT := 100

  class Subscription {
    const worker: Did
    const skills: seq<string>
    const ledger: Ledger
    var after: nat
    var received: seq<Delivery>
    ghost var rest: seq<Delivery>
    ghost var seen: nat
    ghost var run: seq<Stream>
    ghost var turns: seq<Turn>

    ghost function Reader(): Worker {
      Worker(worker, skills, PAGE_LIMIT)
    }

    /** What the stream has seen so far is a run that ends in the fields of the object; the store may have moved on. */
    ghost predicate Valid()
      reads this, ledger, ledger.store
    {
      && ledger.Valid() && seen <= |ledger.evs| && IsRun(Reader(), run, turns)
      && run[|turns|] == Stream(ledger.trace[seen], after, received, rest)
    }

    /** A stream from the beginning of a fresh store. */
    constructor (worker: Did, skills: seq<string>, ledger: Ledger)
      requires ledger.Valid()
      ensures Valid() && this.worker == worker && this.skills == skills && this.ledger == ledger
      ensures after == 0 && received == []
    {
      this.worker, this.skills, this.ledger, after, received := worker, skills, ledger, 0, [];
      rest, seen, run, turns := [], 0, [IDLE], [];
    }

    /** The stream takes notice of the page that the store returned. */
    ghost method Look(page: seq<Delivery>)
      requires Valid() && IsPage(ledger.store.db, worker, skills, after, PAGE_LIMIT, page)
      modifies `rest, `seen, `run, `turns
      ensures Valid() && rest == page && seen == |ledger.evs|
    {
      var run1, turns1 := Follow(Reader(), run, turns, ledger.trace, ledger.evs, seen);
      var next := run1[|turns1|].(page := page);
      OneMoreTurn(Reader(), run1, turns1, Fetch(page), next);
      run, turns, rest, seen := run1 + [next], turns1 + [Fetch(page)], page, |ledger.evs|;
    }

    /** One delivery goes out, and the cursor follows it. */
    method SendOne(d: Delivery)
      requires Valid() && rest != [] && rest[0] == d
      modifies this
      ensures Valid() && after == d.sequence && received == old(received) + [d] && rest == old(rest)[1..]
    {
      ghost var next := Sent(run[|turns|]);
      OneMoreTurn(Reader(), run, turns, Turn.Send, next);
      received, after := received + [d], d.sequence;
      run, turns, rest := run + [next], turns + [Turn.Send], rest[1..];
    }

    /** One turn of the loop: list up to 100 deliveries and send them in order; the send after the first `sendable`
        fails. The cursor follows the last delivery that was sent. */
    method Poll(now: int, sendable: nat) returns (page: seq<Delivery>)
      requires Valid() && worker != "" && now >= ledger.Last().clock
      modifies this, ledger, ledger.store
      ensures Valid() && IsPage(ledger.store.db, worker, skills, old(after), PAGE_LIMIT, page)
      ensures var k := if sendable < |page| then sendable else |page|;
              && received == old(received) + page[..k] && rest == page[k..]
              && after == if k == 0 then old(after) else page[k - 1].sequence
    {
      ghost var ids;
      var r;
      r, ids := ledger.ListDeliveries(worker, skills, after, PAGE_LIMIT, now);
      page := r.value;
      ghost var db := ledger.store.db;
      Look(page);
      var i := 0;
      while i < |page| && i < sendable
        invariant Valid() && 0 <= i <= |page| && i <= sendable && ledger.store.db == db
        invariant received == old(received) + page[..i] && rest == page[i..]
        invariant after == if i == 0 then old(after) else page[i - 1].sequence
      {
        SendOne(page[i]);
        i := i + 1;
      }
    }

    /** No missed delivery, for the object: whatever was done with the store, also since the last poll, a submitted
        task of the worker whose latest delivery is at or below the cursor was received with exactly that one. */
    lemma NothingMissedNow(id: TaskId)
      requires Valid() && id in ledger.store.db.tasks && Wanted(ledger.store.db.tasks[id], worker, skills)
      requires 1 <= Latest(ledger.store.db.deliveries, id) <= after
      ensures Delivery(Latest(ledger.store.db.deliveries, id), id) in received
    {
      var run', turns' := Follow(Reader(), run, turns, ledger.trace, ledger.evs, seen);
      NoMissedDelivery(Reader(), run', turns', |turns'|, id);
    }

    /** No sequence was received twice. */
    lemma ReceivedOnce(a: nat, b: nat)
      requires Valid() && a < |received| && b < |received| && received[a].sequence == received[b].sequence
      ensures a == b
    {
      NoDeliveryTwice(Reader(), run, turns, |turns|, a, b);
    }
  }
}
