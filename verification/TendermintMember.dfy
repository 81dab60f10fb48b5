/** One running backend among the validators of a thread. Whatever is done with the object, in any order and
    interleaved with any steps of the other validators and with any rows that other threads of its daemon write, is
    a run of `TendermintSystem`, so the theorems about runs hold of the object. */
module TendermintMember {
  import opened ThreadTypes
  import opened TendermintNode
  import opened TendermintSystem
  import opened TendermintAgreement
  import opened TendermintBackend
  import Chain

  /** Everything that was broadcast counts as sent. */
  ghost predicate Sent(msgs: seq<Message>, sys: System) {
    (forall v :: VoteMsg(v) in msgs ==> v in sys.votes) && (forall p :: ProposalMsg(p) in msgs ==> p in sys.proposals)
  }

  lemma SentMore(msgs: seq<Message>, sys: System, n: Did, e: Effect)
    requires Sent(msgs, sys)
    ensures Sent(msgs + Messages(e), Absorb(sys, n, e))
  {
  }

  /** One more step at the end of a run. */
  lemma Longer(cfg: Config, correct: set<Did>, trace: seq<System>, evs: seq<Event>, ev: Event, next: System)
    requires IsRun(cfg, correct, trace, evs) && Typed(correct, trace[|evs|])
    requires Possible(cfg, correct, trace[|evs|], ev) && next == Apply(cfg, correct, trace[|evs|], ev)
    ensures IsRun(cfg, correct, trace + [next], evs + [ev])
  {
    var trace', evs' := trace + [next], evs + [ev];
    forall i: nat | i < |evs'| ensures IsPossibleStep(cfg, correct, trace', evs', i) {
      if i < |evs| {
        assert IsPossibleStep(cfg, correct, trace, evs, i);
      }
    }
  }

  class Member {
    ghost const correct: set<Did>
    var node: Backend
    ghost var trace: seq<System>
    ghost var evs: seq<Event>
    ghost var last: System

    /** What was done so far is a run, and `last` is its last state. */
    ghost predicate History(cfg: Config)
      reads `trace, `evs, `last
    {
      IsRun(cfg, correct, trace, evs) && trace[|evs|] == last && Typed(correct, last)
    }

    /** The object is in the state that the run has it in, and has broadcast nothing else. */
    ghost predicate Valid()
      reads this, node
    {
      && History(node.cfg)
      && node.self in correct && last.nodes[node.self] == node.View() && Sent(node.broadcast, last)
    }

    constructor (ghost correct: set<Did>, node: Backend)
      requires node.self in correct && node.View() == INIT_NODE && node.broadcast == []
      ensures Valid() && this.correct == correct && this.node == node && evs == []
    {
      this.correct, this.node := correct, node;
      trace, evs, last := [Init(correct)], [], Init(correct);
    }

    /** Records the event that has moved the object by effect e, after it had broadcast `sent`. */
    ghost method Record(ev: Event, e: Effect, sent: seq<Message>)
      requires History(node.cfg) && Sent(sent, last) && node.self in correct
      requires !ev.FaultyVote? && !ev.FaultyProposal? && ev.n == node.self
      requires Possible(node.cfg, correct, last, ev) && e == NodeEffect(node.cfg, last.nodes[ev.n], ev)
      modifies `trace, `evs, `last
      ensures History(node.cfg) && last == Absorb(old(last), ev.n, e) && last.nodes[ev.n] == e.node
      ensures Sent(sent + Messages(e), last) && evs == old(evs) + [ev] && old(trace) <= trace
    {
      var next := Absorb(last, ev.n, e);
      Longer(node.cfg, correct, trace, evs, ev, next);
      TypedStays(correct, last, ev.n, e);
      SentMore(sent, last, ev.n, e);
      last, trace, evs := next, trace + [next], evs + [ev];
    }

    method StartUp(now: int)
      requires Valid()
      modifies this, node
      ensures Valid() && node == old(node) && evs == old(evs) + [Event.StartUp(node.self, now)] && old(trace) <= trace
    {
      ghost var e, sent := Start(node.cfg, node.self, node.View(), now), node.broadcast;
      node.Begin(now);
      Record(Event.StartUp(node.self, now), e, sent);
    }

    method DeliverProposal(p: Proposal, sigOk: bool, now: int)
      requires Valid()
      modifies this, node
      ensures Valid() && node == old(node) && evs == old(evs) + [Event.DeliverProposal(node.self, p, sigOk, now)]
      ensures old(trace) <= trace
    {
      ghost var e, sent := HandleProposal(node.cfg, node.self, node.View(), p, sigOk, now), node.broadcast;
      node.OnProposal(p, sigOk, now);
      Record(Event.DeliverProposal(node.self, p, sigOk, now), e, sent);
    }

    /** A vote of this thread that verifies was sent by its voter. */
    method DeliverVote(v: Vote, sigOk: bool, now: int) returns (ghost pick: Pick)
      requires Valid() && now > 0 && (sigOk && v.threadId == node.cfg.threadId ==> v in last.votes)
      modifies this, node
      ensures Valid() && node == old(node) && evs == old(evs) + [Event.DeliverVote(node.self, v, sigOk, now, pick)]
      ensures old(trace) <= trace
    {
      ghost var s, sent := node.View(), node.broadcast;
      pick := node.OnVote(v, sigOk, now);
      Record(Event.DeliverVote(node.self, v, sigOk, now, pick),
             HandleVote(node.cfg, node.self, s, v, sigOk, now, pick), sent);
    }

    /** The three timeouts of one call count as three events. */
    method Tick(now: int)
      requires Valid()
      modifies this, node
      ensures Valid() && node == old(node) && old(trace) <= trace
      ensures evs == old(evs) +
                     [ProposeTimeout(node.self, now), PrevoteTimeout(node.self, now), PrecommitTimeout(node.self, now)]
    {
      ghost var sent := node.broadcast;
      ghost var e1 := TickPropose(node.cfg, node.self, node.View(), now);
      ghost var e2 := TickPrevote(node.cfg, node.self, e1.node, now);
      ghost var e3 := TickPrecommit(node.cfg, node.self, e2.node, now);
      node.Tick(now);
      Record(ProposeTimeout(node.self, now), e1, sent);
      Record(PrevoteTimeout(node.self, now), e2, sent + Messages(e1));
      Record(PrecommitTimeout(node.self, now), e3, sent + Messages(e1) + Messages(e2));
    }

    method Submit(entry: Entry)
      requires Valid()
      modifies this, node
      ensures Valid() && node == old(node) && evs == old(evs) + [Event.Submit(node.self, entry)] && old(trace) <= trace
    {
      ghost var e, sent := Quiet(node.View().(pending := node.pending + [entry])), node.broadcast;
      node.Submit(entry);
      Record(Event.Submit(node.self, entry), e, sent);
    }

    /** The process dies, and a new object takes over its store. */
    method Crash()
      requires Valid()
      modifies this
      ensures Valid() && fresh(node) && node.self == old(node.self) && node.cfg == old(node.cfg)
      ensures evs == old(evs) + [Event.Crash(node.self)] && old(trace) <= trace
    {
      ghost var s := node.View();
      node := new Backend(node.cfg, node.self, Some(node.cs), node.votes, node.blocks, node.pending);
      Record(Event.Crash(node.self), Quiet(Restart(s)), []);
    }

    /** Another thread of the daemon stores a vote. If it is for this thread and in the name of a correct validator,
        that one has signed it; nothing else is known of it. */
    method ForeignVote(v: Vote)
      requires Valid() && (v.threadId == node.cfg.threadId && v.voter in correct ==> v in last.votes)
      modifies this, node
      ensures Valid() && node == old(node) && evs == old(evs) + [Event.ForeignVote(node.self, v)] && old(trace) <= trace
    {
      ghost var e, sent := Quiet(SaveVote(node.View(), v)), node.broadcast;
      node.SaveVoteRow(v);
      Record(Event.ForeignVote(node.self, v), e, sent);
    }

    /** Another thread of the daemon commits a block, which may name this thread. */
    method ForeignBlock(b: Block, now: int)
      requires Valid()
      modifies this, node
      ensures Valid() && node == old(node) && evs == old(evs) + [Event.ForeignBlock(node.self, b, now)]
      ensures old(trace) <= trace
    {
      ghost var e, sent := Quiet(SaveBlock(node.View(), b, now)), node.broadcast;
      node.SaveBlockRow(b, now);
      Record(Event.ForeignBlock(node.self, b, now), e, sent);
    }

    /** Any step of another validator, and anything a faulty one sends. */
    ghost method Others(ev: Event)
      requires Valid() && (ev.FaultyVote? || ev.FaultyProposal? || ev.n != node.self)
      requires Possible(node.cfg, correct, last, ev)
      modifies `trace, `evs, `last
      ensures Valid() && evs == old(evs) + [ev] && old(trace) <= trace
    {
      var next := Apply(node.cfg, correct, last, ev);
      Longer(node.cfg, correct, trace, evs, ev, next);
      assert Typed(correct, next) && next.nodes[node.self] == last.nodes[node.self];
      last, trace, evs := next, trace + [next], evs + [ev];
    }

    /** What agreement means for the object: after any calls whatever, if proposals were honest, other threads wrote
        no rows of this one except votes sent by its validators, and no hash collided, its committed chain passes
        `VerifyChain`, and is a prefix of that of any other correct validator at any moment or the other way round. */
    lemma ChainAgrees(i: nat, n: Did)
      requires Valid() && GoodRun(node.cfg, correct, trace, evs) && i < |trace| && n in correct
      ensures HasChain(node.cfg, node.View()) && n in trace[i].nodes && HasChain(node.cfg, trace[i].nodes[n])
      ensures Chain.ChainOK(HashFn(node.cfg), Committed(node.cfg, node.View())) <==> node.cs.height > 1
      ensures var a := Chain.Contents(ContentOf, Committed(node.cfg, node.View()));
              var b := Chain.Contents(ContentOf, Committed(node.cfg, trace[i].nodes[n]));
              a <= b || b <= a
    {
      CommittedChainVerifies(node.cfg, correct, trace, evs, |evs|, node.self);
      PrefixAgreement(node.cfg, correct, trace, evs, |evs|, node.self, i, n);
    }
  }
}
