/** What the bounded instance pool of wasm/runtime.ts answers to whom: who is rejected, who is granted, which
    instances are created and closed, and how close() settles. */
module PoolAnswers {
  import opened Common
  import opened PoolModel

  // ---- what a pump may do ----

  /** Only waiters whose signal has fired are rejected, only others granted, and no creation starts that nobody waits for. */
  ghost predicate Pumped(p: Pool, q: Pool) {
    && q.signalOf == p.signalOf && q.aborted == p.aborted && q.closed == p.closed && |q.waiters| <= |p.waiters|
    && q.created == p.created && q.closeCalls == p.closeCalls && q.failures == p.failures && q.outcome == p.outcome
    && p.rejected <= q.rejected && (forall t | t in p.granted :: t in q.granted)
    && (forall t | t in q.rejected && t !in p.rejected :: SignalFired(p, t))
    && (forall t | t in q.granted && t !in p.granted :: !SignalFired(p, t))
    && (q.creating == p.creating || p.creating < q.creating <= |p.waiters|)
    && (!p.closed ==> q.entries == p.entries)
  }

  lemma PumpedTwice(p: Pool, q: Pool, r: Pool)
    requires Pumped(p, q) && Pumped(q, r)
    ensures Pumped(p, r)
  {
    assert forall t :: SignalFired(q, t) <==> SignalFired(p, t);
  }

  lemma OnePump(p: Pool, id: nat)
    ensures Pumped(p, MaybeFinishClose(p)) && Pumped(p, p)
    ensures p.waiters != [] && SignalFired(p, p.waiters[0]) ==> Pumped(p, RejectFirst(p))
    ensures p.waiters != [] && !SignalFired(p, p.waiters[0]) ==> Pumped(p, Grant(p, id))
    ensures p.creating < |p.waiters| ==> Pumped(p, StartCreate(p))
  {
  }

  lemma {:induction false} PumpLoopPumped(p: Pool)
    ensures Pumped(p, PumpLoop(p))
    decreases |p.waiters|, if |p.entries| + p.creating < p.max then p.max - |p.entries| - p.creating else 0
  {
    hide Pumped;
    OnePump(p, 0);
    if p.waiters != [] {
      var i := FirstIdle(p.entries, p.busy);
      if i < |p.entries| {
        OnePump(p, p.entries[i]);
        var q := if SignalFired(p, p.waiters[0]) then RejectFirst(p) else Grant(p, p.entries[i]);
        PumpLoopPumped(q);
        PumpedTwice(p, q, PumpLoop(q));
      } else if p.creating < |p.waiters| && |p.entries| + p.creating < p.max {
        PumpLoopPumped(StartCreate(p));
        PumpedTwice(p, StartCreate(p), PumpLoop(StartCreate(p)));
      }
    }
  }

  lemma PumpPumped(p: Pool)
    ensures Pumped(p, Pump(p)) && Pumped(p, MaybeFinishClose(p)) && Pumped(p, p)
  {
    hide Pumped, PumpLoop, MaybeFinishClose;
    OnePump(p, 0);
    PumpLoopPumped(p);
  }

  // ---- one step ----

  /** What a step may do to the callers' tickets. */
  ghost predicate Answered(p: Pool, e: Event, q: Pool) {
    && (forall t | t in q.rejected && t !in p.rejected :: MayReject(p, e, q, t))
    && (forall t | t in q.granted && t !in p.granted :: !SignalFired(q, t))
    && p.rejected <= q.rejected && (forall t | t in p.granted :: t in q.granted)
    && (q.creating <= p.creating || q.creating <= |p.waiters| + if e.Acquire? then 1 else 0)
  }

  /** A rejection has a reason: the pool is closed, the caller's signal has fired, or a creation failed and the caller
      was the first in the queue. */
  predicate MayReject(p: Pool, e: Event, q: Pool, t: nat) {
    || q.closed || SignalFired(q, t)
    || (e.CreateFail? && e.id in p.pending && p.waiters != [] && t == p.waiters[0])
  }

  lemma PumpedAnswers(p: Pool, e: Event, mid: Pool, q: Pool)
    requires Pumped(mid, q)
    requires mid.rejected == p.rejected && mid.granted == p.granted
    requires mid.creating <= p.creating && |mid.waiters| <= |p.waiters| + if e.Acquire? then 1 else 0
    ensures Answered(p, e, q)
  {
    assert forall t :: SignalFired(q, t) <==> SignalFired(mid, t);
  }

  lemma AcquireAnswers(p: Pool, s: nat)
    requires Core(p)
    ensures Answered(p, Acquire(s), DoAcquire(p, s))
  {
    var t := p.nextTicket;
    var mid := p.(nextTicket := t + 1, signalOf := p.signalOf[t := s], waiters := p.waiters + [t]);
    PumpPumped(mid);
    hide Core, Pump, Pumped;
    if !p.closed && s !in p.aborted { PumpedAnswers(p, Acquire(s), mid, Pump(mid)); }
  }

  lemma OnAbortPumps(p: Pool, ticket: nat)
    ensures var q := OnAbort(p, ticket);
      && q.aborted == p.aborted && q.signalOf == p.signalOf && |q.waiters| <= |Without(p.waiters, ticket)|
      && (forall t | t in q.rejected && t !in p.rejected :: t == ticket || SignalFired(p, t))
      && (forall t | t in q.granted && t !in p.granted :: !SignalFired(p, t))
      && p.rejected <= q.rejected && ticket in q.rejected && (forall t | t in p.granted :: t in q.granted)
      && (q.creating == p.creating || q.creating <= |Without(p.waiters, ticket)|)
      && q.created == p.created && q.closeCalls == p.closeCalls && q.failures == p.failures && q.outcome == p.outcome
      && q.closed == p.closed
  {
    var mid := p.(waiters := Without(p.waiters, ticket), rejected := p.rejected + {ticket});
    PumpPumped(mid);
    hide Pump, Without;
    assert forall t :: SignalFired(mid, t) <==> SignalFired(p, t);
  }

  lemma {:induction false} ListenersAnswer(p: Pool, s: nat)
    requires s in p.aborted
    ensures var q := RunListeners(p, s);
      && Answered(p, Abort(s), q) && q.aborted == p.aborted && q.signalOf == p.signalOf && Counted(p, q)
    decreases |p.waiters|
  {
    var i := FirstListening(p.waiters, p.signalOf, s);
    if i < |p.waiters| {
      var t := p.waiters[i];
      assert t in p.waiters;
      Removed(p.waiters, t);
      OnAbortPumps(p, t);
      var q := OnAbort(p, t);
      hide OnAbort, Without;
      ListenersAnswer(q, s);
      assert forall u :: SignalFired(q, u) <==> SignalFired(p, u);
      var r := RunListeners(q, s);
      hide RunListeners;
      assert forall u :: SignalFired(r, u) <==> SignalFired(p, u);
    }
  }

  /** No instance is created or closed meanwhile. */
  ghost predicate Counted(p: Pool, q: Pool) {
    && q.created == p.created && q.closeCalls == p.closeCalls && q.failures == p.failures && q.outcome == p.outcome
    && q.closed == p.closed
  }

  lemma AbortAnswers(p: Pool, s: nat)
    ensures Answered(p, Abort(s), DoAbort(p, s)) && Counted(p, DoAbort(p, s))
  {
    if s !in p.aborted {
      var mid := p.(aborted := p.aborted + {s});
      ListenersAnswer(mid, s);
      hide RunListeners;
    }
  }

  lemma CreateOkAnswers(p: Pool, id: nat)
    ensures Answered(p, CreateOk(id), DoCreateOk(p, id))
  {
    var mid := p.(creating := if p.creating > 0 then p.creating - 1 else 0, pending := p.pending - {id},
                  created := p.created + {id}, entries := p.entries + [id]);
    PumpPumped(mid);
    hide Pump, Pumped;
    if !p.closed { PumpedAnswers(p, CreateOk(id), mid, Pump(mid)); }
  }

  lemma CreateFailAnswers(p: Pool, id: nat)
    requires id in p.pending
    ensures Answered(p, CreateFail(id), DoCreateFail(p, id))
    ensures p.waiters != [] ==> p.waiters[0] in DoCreateFail(p, id).rejected
  {
    var mid := p.(creating := if p.creating > 0 then p.creating - 1 else 0, pending := p.pending - {id});
    var next := if mid.waiters == [] then mid else RejectFirst(mid);
    FailIs(p, id);
    PumpPumped(next);
    PumpPumped(Pump(next));
    hide Pump, MaybeFinishClose, Pumped, Answered, DoCreateFail;
    PumpedTwice(next, Pump(next), MaybeFinishClose(Pump(next)));
    FailedAnswers(p, id, next, MaybeFinishClose(Pump(next)));
  }

  lemma FailIs(p: Pool, id: nat)
    ensures var mid := p.(creating := if p.creating > 0 then p.creating - 1 else 0, pending := p.pending - {id});
      DoCreateFail(p, id) == MaybeFinishClose(Pump(if mid.waiters == [] then mid else RejectFirst(mid)))
  {
    hide Pump, MaybeFinishClose;
  }

  lemma FailedAnswers(p: Pool, id: nat, mid: Pool, q: Pool)
    requires Pumped(mid, q) && id in p.pending
    requires mid.granted == p.granted && mid.creating <= p.creating && |mid.waiters| <= |p.waiters|
    requires mid.rejected == if p.waiters == [] then p.rejected else p.rejected + {p.waiters[0]}
    ensures Answered(p, CreateFail(id), q) && (p.waiters != [] ==> p.waiters[0] in q.rejected)
  {
    assert forall t :: SignalFired(q, t) <==> SignalFired(mid, t);
  }

  lemma ReleaseAnswers(p: Pool, id: nat, t: nat, discard: bool)
    ensures Answered(p, Release(id, t, discard), DoRelease(p, id, t, discard))
  {
    var mid := p.(held := p.held - {id}, busy := p.busy - {id});
    PumpPumped(mid);
    hide Pump, Pumped, Without;
    if id in p.held && p.held[id] == t && id in p.entries && !discard && !p.closed {
      PumpedAnswers(p, Release(id, t, discard), mid, Pump(mid));
    }
  }

  lemma CloseSettledAnswers(p: Pool, id: nat, failed: bool)
    ensures Answered(p, CloseSettled(id, failed), DoCloseSettled(p, id, failed))
  {
    var mid := p.(closing := p.closing - multiset{id}, failures := if failed && p.closed then p.failures + 1 else p.failures);
    PumpPumped(mid);
    PumpPumped(Pump(mid));
    hide Pump, MaybeFinishClose, Pumped;
    PumpedTwice(mid, Pump(mid), MaybeFinishClose(Pump(mid)));
    PumpedAnswers(p, CloseSettled(id, failed), mid, MaybeFinishClose(Pump(mid)));
  }

  lemma CloseAnswers(p: Pool)
    ensures Answered(p, Close, DoClose(p))
  {
  }

  lemma FinalAnswers(p: Pool, e: Event)
    requires e.FinalCall? || e.FinalSettled? || e.SettleClose?
    ensures Answered(p, e, Step(p, e))
  {
  }

  lemma SameAnswers(p: Pool, e: Event)
    ensures Answered(p, e, p)
  {
  }

  lemma StepAnswers(p: Pool, e: Event)
    requires Core(p)
    ensures Answered(p, e, Step(p, e))
  {
    hide Answered, Core, DoAcquire, DoAbort, DoCreateOk, DoCreateFail, DoRelease, DoCloseSettled, DoClose;
    SameAnswers(p, e);
    match e
    case Acquire(s) => AcquireAnswers(p, s);
    case Abort(s) => AbortAnswers(p, s);
    case CreateOk(id) => CreateOkAnswers(p, id);
    case CreateFail(id) => if id in p.pending { CreateFailAnswers(p, id); }
    case Release(id, t, discard) => ReleaseAnswers(p, id, t, discard);
    case CloseSettled(id, failed) => CloseSettledAnswers(p, id, failed);
    case Close => CloseAnswers(p);
    case _ => hide Step; FinalAnswers(p, e);
  }

  // ---- the instances ----

  /** The instance whose close a step calls: a discarded or late one, or one left to finalization. */
  function ClosedBy(p: Pool, e: Event): multiset<nat> {
    match e
    case Release(id, t, discard) => if id in p.held && p.held[id] == t && (discard || p.closed) then multiset{id} else multiset{}
    case CreateOk(id) => if id in p.pending && p.closed then multiset{id} else multiset{}
    case FinalCall(id) => if id in p.finalists then multiset{id} else multiset{}
    case _ => multiset{}
  }

  /** A close that failed, and that close() reports: of a closed pool, or of finalization. */
  predicate FailsClose(p: Pool, e: Event) {
    (e.CloseSettled? && e.failed && e.id in p.closing && p.closed) || (e.FinalSettled? && e.failed && e.id in p.finalClosing)
  }

  ghost predicate Booked(p: Pool, e: Event, q: Pool) {
    && q.closeCalls == p.closeCalls + ClosedBy(p, e)
    && q.created == p.created + (if e.CreateOk? && e.id in p.pending then {e.id} else {})
    && q.failures == p.failures + (if FailsClose(p, e) then 1 else 0)
    && (q.closed <==> p.closed || e.Close?)
    && (q.outcome != p.outcome ==> e.SettleClose? && p.outcome == Unsettled && (q.outcome == Rejected <==> p.failures > 0))
  }

  lemma PumpCounts(p: Pool)
    ensures Counted(p, Pump(p)) && Counted(p, MaybeFinishClose(p)) && Counted(p, MaybeFinishClose(Pump(p)))
  {
    PumpPumped(p);
    PumpPumped(Pump(p));
    hide Pump, MaybeFinishClose, SignalFired;
  }

  lemma BookedOn(p: Pool, e: Event, mid: Pool, q: Pool)
    requires Booked(p, e, mid) && Counted(mid, q)
    ensures Booked(p, e, q)
  {
    hide ClosedBy, FailsClose;
  }

  lemma AcquireBooks(p: Pool, s: nat)
    ensures Booked(p, Acquire(s), DoAcquire(p, s))
  {
    var mid := p.(nextTicket := p.nextTicket + 1, signalOf := p.signalOf[p.nextTicket := s], waiters := p.waiters + [p.nextTicket]);
    PumpCounts(mid);
    hide Pump;
  }

  lemma AbortBooks(p: Pool, s: nat)
    ensures Booked(p, Abort(s), DoAbort(p, s))
  {
    AbortAnswers(p, s);
    hide DoAbort, Answered;
  }

  lemma CreateOkBooks(p: Pool, id: nat)
    requires id in p.pending
    ensures Booked(p, CreateOk(id), DoCreateOk(p, id))
  {
    var mid := p.(creating := if p.creating > 0 then p.creating - 1 else 0, pending := p.pending - {id},
                  created := p.created + {id}, entries := p.entries + [id]);
    PumpCounts(mid);
    hide Pump;
  }

  lemma CreateFailBooks(p: Pool, id: nat)
    ensures Booked(p, CreateFail(id), DoCreateFail(p, id))
  {
    var mid := p.(creating := if p.creating > 0 then p.creating - 1 else 0, pending := p.pending - {id});
    var next := if mid.waiters == [] then mid else RejectFirst(mid);
    assert Booked(p, CreateFail(id), next);
    hide Booked, Counted, Pump, MaybeFinishClose, DoCreateFail;
    PumpCounts(next);
    FailIs(p, id);
    BookedOn(p, CreateFail(id), next, MaybeFinishClose(Pump(next)));
  }

  lemma ReleaseBooks(p: Pool, id: nat, t: nat, discard: bool)
    requires Core(p)
    ensures Booked(p, Release(id, t, discard), DoRelease(p, id, t, discard))
  {
    PumpCounts(p.(held := p.held - {id}, busy := p.busy - {id}));
    assert id in p.held ==> id in p.entries;
    hide Pump, Without, Core;
  }

  lemma CloseSettledBooks(p: Pool, id: nat, failed: bool)
    requires id in p.closing
    ensures Booked(p, CloseSettled(id, failed), DoCloseSettled(p, id, failed))
  {
    var mid := p.(closing := p.closing - multiset{id}, failures := if failed && p.closed then p.failures + 1 else p.failures);
    assert Booked(p, CloseSettled(id, failed), mid);
    assert DoCloseSettled(p, id, failed) == MaybeFinishClose(Pump(mid));
    hide Booked, Counted, Pump, MaybeFinishClose, DoCloseSettled;
    PumpCounts(mid);
    BookedOn(p, CloseSettled(id, failed), mid, MaybeFinishClose(Pump(mid)));
  }

  lemma OtherBooks(p: Pool, e: Event)
    requires e.Close? || e.FinalCall? || e.FinalSettled? || e.SettleClose?
    ensures Booked(p, e, Step(p, e))
  {
  }

  lemma SameBooks(p: Pool, e: Event)
    requires (e.CreateOk? || e.CreateFail? ==> e.id !in p.pending) && (e.CloseSettled? ==> e.id !in p.closing)
    requires e.CreateOk? || e.CreateFail? || e.CloseSettled?
    ensures Booked(p, e, p)
  {
  }

  lemma StepBooks(p: Pool, e: Event)
    requires Core(p)
    ensures Booked(p, e, Step(p, e))
  {
    hide Booked, Core, DoAcquire, DoAbort, DoCreateOk, DoCreateFail, DoRelease, DoCloseSettled, DoClose;
    match e
    case Acquire(s) => AcquireBooks(p, s);
    case Abort(s) => AbortBooks(p, s);
    case CreateOk(id) => if id in p.pending { CreateOkBooks(p, id); } else { SameBooks(p, e); }
    case CreateFail(id) => if id in p.pending { CreateFailBooks(p, id); } else { SameBooks(p, e); }
    case Release(id, t, discard) => ReleaseBooks(p, id, t, discard);
    case CloseSettled(id, failed) => if id in p.closing { CloseSettledBooks(p, id, failed); } else { SameBooks(p, e); }
    case _ => hide Step; OtherBooks(p, e);
  }

  // ---- serving ----

  predicate Idle(p: Pool, id: nat) { id in p.entries && id !in p.busy }

  /** With an idle instance, a pump serves the first waiter whose signal has not fired. */
  lemma FirstServed(p: Pool, id: nat)
    requires !p.closed && p.waiters != [] && !SignalFired(p, p.waiters[0]) && Idle(p, id)
    requires p.held.Keys == p.busy && p.waiters[0] !in p.granted
    ensures p.waiters[0] in Pump(p).granted && HeldBy(Pump(p).held, p.waiters[0])
  {
    var i := FirstIdle(p.entries, p.busy);
    assert i < |p.entries|;
    PumpLoopPumped(Grant(p, p.entries[i]));
    PumpFrame(p);
    hide PumpLoop;
    assert p.waiters[0] in Grant(p, p.entries[i]).granted;
  }

  lemma NobodyServed(p: Pool)
    requires !p.closed && p.waiters == []
    ensures Pump(p) == p
  {
  }

  lemma Unserved(p: Pool, t: nat)
    requires Core(p) && t in p.waiters
    ensures t !in p.granted && t !in p.rejected
  {
    Fresh(p, t);
  }

  lemma NotYetCreated(p: Pool, id: nat)
    requires Bounded(p) && id in p.pending
    ensures id !in p.entries
  {
    assert multiset(p.created)[id] == 0;
  }

  // ---- main results ----

  /** A caller is rejected only because the pool is closed, its signal has fired, or a creation failed while it was the
      first in the queue, and then always; nobody is granted after its signal has fired; a creation is started only for
      a waiter; and no answer is taken back. */
  lemma RejectedOnlyFor(p: Pool, e: Event)
    requires Inv(p)
    ensures var q := Step(p, e);
      && (forall t | t in q.rejected && t !in p.rejected ::
            q.closed || SignalFired(q, t) || (e.CreateFail? && e.id in p.pending && p.waiters != [] && t == p.waiters[0]))
      && (e.CreateFail? && e.id in p.pending && p.waiters != [] ==> p.waiters[0] in q.rejected)
      && (forall t | t in q.granted && t !in p.granted :: !SignalFired(q, t))
      && p.rejected <= q.rejected && (forall t | t in p.granted :: t in q.granted)
      && (q.creating > p.creating ==> q.creating <= |p.waiters| + if e.Acquire? then 1 else 0)
  {
    StepAnswers(p, e);
    if e.CreateFail? && e.id in p.pending { CreateFailAnswers(p, e.id); }
    hide Inv, SignalFired, DoAcquire, DoAbort, DoCreateOk, DoCreateFail, DoRelease, DoCloseSettled, DoClose;
  }

  lemma Listed(p: Pool, t: nat)
    requires Served(p) && (t in p.waiters || t in p.granted || t in p.rejected)
    ensures t in p.signalOf
  {
    assert t in multiset(p.granted) + multiset(p.waiters) + multiset(p.rejected);
  }

  /** Whoever has a ticket is granted, parked or rejected, and only one of these. */
  lemma Accounted(q: Pool, t: nat)
    requires Served(q) && t in q.signalOf
    ensures t !in q.rejected <==> t in q.granted || t in q.waiters
  {
    assert multiset(q.signalOf.Keys)[t] == 1;
    assert multiset(q.rejected)[t] == if t in q.rejected then 1 else 0;
  }

  /** An abort takes every parked caller that listens to it out of the queue, rejected; close() takes all. */
  lemma AbortedAreRejected(p: Pool, s: nat, t: nat)
    requires Inv(p) && t in p.waiters
    ensures t in p.signalOf && (p.signalOf[t] == s ==> t in Step(p, Abort(s)).rejected)
    ensures t in Step(p, Close).rejected
  {
    Listed(p, t);
    if p.signalOf[t] == s { ListenerRejected(p, s, t); }
    hide Inv, DoAbort;
  }

  lemma ListenerRejected(p: Pool, s: nat, t: nat)
    requires Inv(p) && t in p.waiters && t in p.signalOf && p.signalOf[t] == s
    ensures t in DoAbort(p, s).rejected
  {
    var q := DoAbort(p, s);
    AbortKeeps(p, s);
    AbortAnswers(p, s);
    AbortFrame(p, s);
    Unserved(p, t);
    assert SignalFired(q, t) && t !in q.granted && t !in q.waiters && Served(q);
    hide *;
    Accounted(q, t);
  }

  /** A caller of acquire() is turned away exactly when the pool is closed or its signal has fired. Otherwise it is
      granted or parked: granted at once when an instance is idle and nobody is before it, and parked only while every
      instance is busy and enough are being created, or the pool is full. */
  lemma Admitted(max: nat, events: seq<Event>, s: nat)
    ensures var p := Run(Initial(max), events); var q, t := Step(p, Acquire(s)), p.nextTicket;
      && t !in p.granted && t !in p.rejected && t !in p.waiters && t in q.signalOf && q.signalOf[t] == s
      && (t in q.rejected <==> p.closed || s in p.aborted)
      && (t !in q.rejected <==> t in q.granted || t in q.waiters)
      && (t !in q.rejected && p.waiters == [] && (exists id :: Idle(p, id)) ==> t in q.granted && HeldBy(q.held, t))
      && (t in q.waiters && p.closing == multiset{} ==>
            && (forall id | id in q.entries :: id in q.busy)
            && (q.creating >= |q.waiters| || |q.entries| + q.creating >= max))
  {
    RunKeeps(max, events);
    AcquireAdmits(Run(Initial(max), events), s);
    hide Step, Inv;
  }

  lemma AcquireAdmits(p: Pool, s: nat)
    requires Inv(p)
    ensures var q, t := Step(p, Acquire(s)), p.nextTicket;
      && t !in p.granted && t !in p.rejected && t !in p.waiters && t in q.signalOf && q.signalOf[t] == s
      && (t in q.rejected <==> p.closed || s in p.aborted)
      && (t !in q.rejected <==> t in q.granted || t in q.waiters)
      && (t !in q.rejected && p.waiters == [] && (exists id :: Idle(p, id)) ==> t in q.granted && HeldBy(q.held, t))
      && (t in q.waiters && p.closing == multiset{} ==>
            && (forall id | id in q.entries :: id in q.busy)
            && (q.creating >= |q.waiters| || |q.entries| + q.creating >= q.max))
  {
    var t, q := p.nextTicket, Step(p, Acquire(s));
    AcquireIs(p, s);
    AcquireKeeps(p, s);
    TicketIsNew(p, s);
    RefusedIff(p, s);
    if !p.closed && s !in p.aborted && p.waiters == [] { ParkedFirst(p, s); }
    assert Served(q) && Quiet(q) && Closing(q);
    hide DoAcquire, Inv, Step, Served, Idle, HeldBy;
    Accounted(q, t);
  }

  lemma AcquireIs(p: Pool, s: nat)
    requires p.held.Keys == p.busy
    ensures var q := DoAcquire(p, s);
      Step(p, Acquire(s)) == q && q.closing == p.closing && q.closed == p.closed && q.signalOf == p.signalOf[p.nextTicket := s]
  {
    AcquireFrame(p, s);
    hide DoAcquire;
  }

  lemma TicketIsNew(p: Pool, s: nat)
    requires Served(p)
    ensures p.nextTicket !in p.granted && p.nextTicket !in p.rejected && p.nextTicket !in p.waiters
  {
    NewTicket(p);
    if p.nextTicket in p.granted { Listed(p, p.nextTicket); }
    if p.nextTicket in p.waiters { Listed(p, p.nextTicket); }
  }

  lemma RefusedIff(p: Pool, s: nat)
    requires Inv(p)
    ensures p.nextTicket in DoAcquire(p, s).rejected <==> p.closed || s in p.aborted
  {
    AcquireAnswers(p, s);
    AcquireFrame(p, s);
    NewTicket(p);
    if !p.closed && s !in p.aborted { hide DoAcquire, Core, Quiet, Listening, Winding; }
  }

  lemma ParkedFirst(p: Pool, s: nat)
    requires Inv(p) && !p.closed && s !in p.aborted && p.waiters == []
    ensures (exists id :: Idle(p, id)) ==>
      p.nextTicket in DoAcquire(p, s).granted && HeldBy(DoAcquire(p, s).held, p.nextTicket)
  {
    var t := p.nextTicket;
    var mid := p.(nextTicket := t + 1, signalOf := p.signalOf[t := s], waiters := p.waiters + [t]);
    assert DoAcquire(p, s) == Pump(mid);
    TicketIsNew(p, s);
    hide Pump, DoAcquire;
    if id :| Idle(p, id) {
      assert Idle(mid, id);
      FirstServed(mid, id);
    }
  }

  /** An instance that was created, or given back in health, while the pool is open stays in it: it serves the first
      waiter, or is idle when there is none. */
  lemma ReadyServes(p: Pool, e: Event)
    requires Inv(p) && !p.closed
    requires (e.CreateOk? && e.id in p.pending) || (e.Release? && !e.discard && e.id in p.held && p.held[e.id] == e.ticket)
    ensures var q := Step(p, e);
      && e.id in q.entries
      && (p.waiters != [] ==> p.waiters[0] in q.granted && HeldBy(q.held, p.waiters[0]))
      && (p.waiters == [] ==> Idle(q, e.id) && q.granted == p.granted)
  {
    if e.CreateOk? { CreatedServes(p, e.id); } else { ReturnedServes(p, e.id, e.ticket); }
    hide Inv, Idle, HeldBy, DoCreateOk, DoRelease;
  }

  lemma CreatedServes(p: Pool, id: nat)
    requires Inv(p) && !p.closed && id in p.pending
    ensures var q := DoCreateOk(p, id);
      && id in q.entries
      && (p.waiters != [] ==> p.waiters[0] in q.granted && HeldBy(q.held, p.waiters[0]))
      && (p.waiters == [] ==> Idle(q, id) && q.granted == p.granted)
  {
    NotYetCreated(p, id);
    assert p.creating > 0;
    var mid := p.(creating := p.creating - 1, pending := p.pending - {id},
                  created := p.created + {id}, entries := p.entries + [id]);
    assert DoCreateOk(p, id) == Pump(mid) && Idle(mid, id);
    MidServes(p, mid, id);
    hide *;
  }

  lemma ReturnedServes(p: Pool, id: nat, t: nat)
    requires Inv(p) && !p.closed && id in p.held && p.held[id] == t
    ensures var q := DoRelease(p, id, t, false);
      && id in q.entries
      && (p.waiters != [] ==> p.waiters[0] in q.granted && HeldBy(q.held, p.waiters[0]))
      && (p.waiters == [] ==> Idle(q, id) && q.granted == p.granted)
  {
    var mid := p.(held := p.held - {id}, busy := p.busy - {id});
    assert id in p.entries;
    assert DoRelease(p, id, t, false) == Pump(mid) && Idle(mid, id);
    MidServes(p, mid, id);
    hide *;
  }

  lemma MidServes(p: Pool, mid: Pool, id: nat)
    requires Inv(p) && !p.closed && Idle(mid, id) && mid.held.Keys == mid.busy
    requires mid.waiters == p.waiters && mid.granted == p.granted && mid.signalOf == p.signalOf
    requires mid.aborted == p.aborted && !mid.closed
    ensures var q := Pump(mid);
      && id in q.entries
      && (p.waiters != [] ==> p.waiters[0] in q.granted && HeldBy(q.held, p.waiters[0]))
      && (p.waiters == [] ==> q == mid)
  {
    PumpPumped(mid);
    if p.waiters == [] {
      NobodyServed(mid);
    } else {
      Unserved(p, p.waiters[0]);
      assert !SignalFired(p, p.waiters[0]);
      hide Pump, Inv, HeldBy;
      FirstServed(mid, id);
    }
  }

  /** close() of an instance is called for exactly these: a lease given back as broken or to a closed pool, a creation
      that ends after close(), and what is left to finalization. close() itself settles by itself only, as a rejection
      exactly when a close failed that it reports. */
  lemma ClosedOnlyFor(max: nat, events: seq<Event>, e: Event)
    ensures var p := Run(Initial(max), events); Booked(p, e, Step(p, e))
  {
    RunKeeps(max, events);
    StepBooks(Run(Initial(max), events), e);
    hide Step, Booked;
  }

  /** Finalization calls close of each instance left to it, and close() settles when all of these have settled, not before. */
  lemma SettlesIff(p: Pool, id: nat, failed: bool)
    ensures var q := Step(p, SettleClose);
      && (q.outcome != Unsettled <==> p.outcome != Unsettled || (p.finalizing && p.finalists == {} && p.finalClosing == {}))
      && (p.outcome != Unsettled ==> q == p)
    ensures id in p.finalists ==>
      var q := Step(p, FinalCall(id)); q.finalists == p.finalists - {id} && q.finalClosing == p.finalClosing + {id}
    ensures id in p.finalClosing ==>
      var q := Step(p, FinalSettled(id, failed)); q.finalists == p.finalists && q.finalClosing == p.finalClosing - {id}
  {
  }

  /** How many closes failed that close() reports. */
  function Failed(max: nat, events: seq<Event>): nat
    decreases |events|
  {
    if events == [] then 0 else
    var front, last := events[..|events| - 1], events[|events| - 1];
    Failed(max, front) + if FailsClose(Run(Initial(max), front), last) then 1 else 0
  }

  lemma {:induction false} FailuresCounted(max: nat, events: seq<Event>)
    ensures Run(Initial(max), events).failures == Failed(max, events)
    decreases |events|
  {
    if events != [] {
      var front, last := events[..|events| - 1], events[|events| - 1];
      FailuresCounted(max, front);
      RunKeeps(max, front);
      StepBooks(Run(Initial(max), front), last);
      hide Step, Inv, ClosedBy;
    }
  }
}
