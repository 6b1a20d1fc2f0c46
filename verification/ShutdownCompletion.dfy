/** When the shutdown of the runtime in wasm/runtime.ts gets through: exactly when no call with refused options was made. */
module ShutdownCompletion {
  import opened Common
  import opened RuntimeModel
  import P = PoolModel

  lemma {:induction false} RunOn(r: Runtime, xs: seq<Event>, ys: seq<Event>)
    ensures Run(r, xs + ys) == Run(Run(r, xs), ys)
    decreases |ys|
  {
    if ys == [] {
      assert xs + ys == xs;
    } else {
      assert (xs + ys)[..|xs + ys| - 1] == xs + ys[..|ys| - 1];
      RunOn(r, xs, ys[..|ys| - 1]);
      hide Step;
    }
  }

  lemma RunOne(r: Runtime, e: Event)
    ensures Run(r, [e]) == Step(r, e)
  {
    hide Step;
    assert [e][..0] == [];
  }

  lemma RunFirst(r: Runtime, e: Event, rest: seq<Event>)
    ensures Run(r, [e] + rest) == Run(Step(r, e), rest)
  {
    hide *;
    RunOn(r, [e], rest);
    RunOne(r, e);
  }

  // ---- a call that was granted a lease still holds it until it goes on ----

  /** A ticket that was granted, if it was, still has its lease. */
  ghost predicate Live(p: P.Pool, t: nat) { t in p.signalOf && (t in p.granted ==> P.HeldBy(p.held, t)) }

  ghost predicate Answered(r: Runtime) {
    forall c | c in r.calls && r.calls[c].Acquiring? :: Live(r.pool, r.calls[c].ticket)
  }

  ghost predicate Sound(r: Runtime) { Inv(r) && Answered(r) }

  lemma LiveOn(p: P.Pool, q: P.Pool, t: nat)
    requires P.Grown(p, q) && Live(p, t)
    ensures Live(q, t)
  {
    if t in q.granted && t in p.granted {
      var id :| id in p.held && p.held[id] == t;
      assert id in q.held && q.held[id] == t;
    }
  }

  lemma PoolAnswers(r: Runtime, p: P.Pool)
    requires Answered(r) && P.Grown(r.pool, p)
    ensures Answered(r.(pool := p))
  {
    forall c | c in r.calls && r.calls[c].Acquiring? ensures Live(p, r.calls[c].ticket) {
      LiveOn(r.pool, p, r.calls[c].ticket);
    }
  }

  lemma AttemptAnswers(r: Runtime, call: nat)
    requires Sound(r) && call in r.calls
    ensures Answered(StartAttempt(r, call))
  {
    var p, t, q := r.pool, r.pool.nextTicket, StartAttempt(r, call);
    P.AcquireFrame(p, call);
    var parked := p.(signalOf := p.signalOf[t := call]);
    var from := if p.closed || call in p.aborted then parked else parked.(waiters := parked.waiters + [t]);
    assert t !in p.granted by { if t in p.granted { P.GrantedOnly(p, t); } }
    forall c | c in q.calls && q.calls[c].Acquiring? ensures Live(q.pool, q.calls[c].ticket) {
      var u := q.calls[c].ticket;
      if c != call {
        assert Live(p, u);
        if u in p.granted {
          var id :| id in p.held && p.held[id] == u;
          assert from.held[id] == u;
        }
      }
      assert Live(from, u);
      LiveOn(from, q.pool, u);
    }
  }

  /** Giving back the lease of `t` concerns no other ticket. */
  lemma ReleaseAnswers(r: Runtime, id: nat, t: nat, discard: bool, u: nat)
    requires Inv(r) && id in r.pool.held && r.pool.held[id] == t && u != t && Live(r.pool, u)
    ensures Live(P.DoRelease(r.pool, id, t, discard), u)
  {
    var from := r.pool.(held := r.pool.held - {id});
    P.ReleaseFrame(r.pool, id, t, discard);
    if u in r.pool.granted {
      var other :| other in r.pool.held && r.pool.held[other] == u;
      assert other in from.held && from.held[other] == u;
    }
    assert Live(from, u);
    LiveOn(from, P.DoRelease(r.pool, id, t, discard), u);
  }

  lemma DropAnswers(r: Runtime, call: nat, id: nat)
    requires Sound(r) && call in r.calls && r.calls[call].Acquiring?
    requires id in r.pool.held && r.pool.held[id] == r.calls[call].ticket
    ensures Answered(r.(pool := P.DoRelease(r.pool, id, r.calls[call].ticket, true), calls := r.calls[call := Discarding(id)]))
  {
    var t := r.calls[call].ticket;
    assert Asked(r, t, call);
    forall c | c in r.calls && r.calls[c].Acquiring? && c != call ensures Live(P.DoRelease(r.pool, id, t, true), r.calls[c].ticket) {
      assert Asked(r, r.calls[c].ticket, c);
      ReleaseAnswers(r, id, t, true, r.calls[c].ticket);
    }
  }

  lemma SettlesAnswers(r: Runtime, t: nat, valid: bool)
    requires Sound(r) && t in r.guests && r.guests[t].Running?
    ensures Answered(DoGuestSettles(r, t, valid))
  {
    var Running(call, id) := r.guests[t];
    var discard := call in r.pool.aborted || !valid;
    assert RuntimeModel.Holds(r, t, call, id) && !Waits(r, t);
    forall c | c in r.calls && r.calls[c].Acquiring? ensures Live(P.DoRelease(r.pool, id, t, discard), r.calls[c].ticket) {
      assert Asked(r, r.calls[c].ticket, c);
      ReleaseAnswers(r, id, t, discard, r.calls[c].ticket);
    }
  }

  /** Calls that go on, without asking for a lease, answer for none. */
  lemma OthersAnswer(r: Runtime, q: Runtime)
    requires Answered(r) && q.pool == r.pool
    requires forall c | c in q.calls && q.calls[c].Acquiring? :: c in r.calls && q.calls[c] == r.calls[c]
    ensures Answered(q)
  {
    hide Live;
  }

  lemma PhaseAnswers(r: Runtime, call: nat, phase: Phase)
    requires Answered(r) && !phase.Acquiring?
    ensures Answered(r.(calls := r.calls[call := phase]))
  {
    OthersAnswer(r, r.(calls := r.calls[call := phase]));
    hide Answered;
  }

  lemma DispatchAnswers(r: Runtime, call: nat, id: nat)
    requires Answered(r) && call in r.calls && r.calls[call].Acquiring? && call !in r.pool.aborted
    requires id in r.pool.held && r.pool.held[id] == r.calls[call].ticket && r.calls[call].ticket !in r.pool.rejected
    ensures Answered(DoResume(r, call, id, false, false))
  {
    OthersAnswer(r, DoResume(r, call, id, false, false));
    hide Answered;
  }

  lemma ResumeAnswers(r: Runtime, call: nat, id: nat, throws: bool, retry: bool)
    requires Sound(r) && call in r.calls
    ensures Answered(DoResume(r, call, id, throws, retry))
  {
    hide Inv, Answered, StartAttempt, P.DoRelease, P.DoAcquire;
    match r.calls[call]
    case Loading =>
      if r.load == Loaded && !throws { AttemptAnswers(r, call); } else { PhaseAnswers(r, call, Unwinding); }
    case Acquiring(t) =>
      if t in r.pool.rejected {
        PhaseAnswers(r, call, AfterThrow(r, call, retry));
      } else if id in r.pool.held && r.pool.held[id] == t {
        if call in r.pool.aborted || throws { DropAnswers(r, call, id); } else { DispatchAnswers(r, call, id); }
      }
    case Sleeping => if throws { PhaseAnswers(r, call, Unwinding); } else { AttemptAnswers(r, call); }
    case Unwinding => OthersAnswer(r, r.(calls := r.calls - {call}));
    case Leaked =>
    case _ => PhaseAnswers(r, call, AfterThrow(r, call, retry));
  }

  lemma StepAnswers(r: Runtime, e: Event)
    requires Sound(r)
    ensures Answered(Step(r, e))
  {
    match e
    case CallerAborts(call) =>
      P.AbortFrame(r.pool, call);
      PoolAnswers(r, P.DoAbort(r.pool, call));
    case Resume(call, id, throws, retry) => if call in r.calls { ResumeAnswers(r, call, id, throws, retry); }
    case GuestSettles(t, valid) => if t in r.guests && r.guests[t].Running? { SettlesAnswers(r, t, valid); }
    case PoolEvent(event) =>
      if P.Environment(event) {
        P.EnvironmentFrame(r.pool, event);
        PoolAnswers(r, P.Step(r.pool, event));
      }
    case CloseRuntime =>
      AbortAllFrame(r.pool, r.calls.Keys, r.nextCall);
      PoolAnswers(r, AbortAll(r.pool, r.calls.Keys, r.nextCall));
    case _ =>
  }

  lemma StepSound(r: Runtime, e: Event)
    requires Sound(r)
    ensures Sound(Step(r, e))
  {
    StepKeeps(r, e);
    StepAnswers(r, e);
  }

  lemma {:induction false} RunSound(r: Runtime, events: seq<Event>)
    requires Sound(r)
    ensures Sound(Run(r, events))
    decreases |events|
  {
    hide Step, Sound;
    if events != [] {
      RunSound(r, events[..|events| - 1]);
      StepSound(Run(r, events[..|events| - 1]), events[|events| - 1]);
    }
  }

  // ---- ending one call ----

  ghost predicate Aborting(r: Runtime, c: nat) {
    Sound(r) && r.stage == WaitCalls && c in r.calls && r.calls[c] != Leaked
  }

  function Stages(phase: Phase): nat {
    match phase case Acquiring(_) => 3 case Discarding(_) => 2 case Unwinding => 0 case _ => 1
  }

  function Pending(r: Runtime, c: nat): nat
    requires c in r.calls
  {
    if r.calls[c].Discarding? then r.pool.closing[r.calls[c].id] else 0
  }

  /** The call is over, or closer to its end; no other call is touched. */
  ghost predicate CallCloser(r: Runtime, q: Runtime, c: nat)
    requires c in r.calls
  {
    && q.stage == r.stage
    && (q.calls == r.calls - {c} ||
        (c in q.calls && q.calls == r.calls[c := q.calls[c]] && q.calls[c] != Leaked &&
         (Stages(q.calls[c]) < Stages(r.calls[c]) || (q.calls[c] == r.calls[c] && Pending(q, c) < Pending(r, c)))))
  }

  lemma AcquiringNext(r: Runtime, c: nat) returns (e: Event)
    requires Aborting(r, c) && r.calls[c].Acquiring?
    ensures CallCloser(r, Step(r, e), c)
  {
    hide P.DoRelease, P.DoAcquire, P.DoAbort, AbortAll, P.Step;
    if r.calls[c].ticket in r.pool.rejected {
      e := Resume(c, 0, false, false);
    } else {
      var id := GrantedHolds(r, c);
      assert c in r.pool.aborted;
      hide Inv, Answered;
      e := Resume(c, id, false, false);
    }
  }

  lemma DiscardingNext(r: Runtime, c: nat) returns (e: Event)
    requires Aborting(r, c) && r.calls[c].Discarding?
    ensures CallCloser(r, Step(r, e), c)
  {
    hide P.DoRelease, P.DoAcquire, P.DoAbort, AbortAll, P.Step;
    var own := r.calls[c].id;
    if r.pool.closing[own] == 0 {
      e := Resume(c, 0, false, false);
    } else {
      e := PoolEvent(P.CloseSettled(own, false));
      SettledCloses(r.pool, own);
      hide Inv, Answered;
      assert Step(r, e).calls == r.calls == r.calls[c := r.calls[c]];
    }
  }

  lemma OtherNext(r: Runtime, c: nat) returns (e: Event)
    requires Aborting(r, c) && !r.calls[c].Acquiring? && !r.calls[c].Discarding?
    ensures CallCloser(r, Step(r, e), c)
  {
    assert c in r.pool.aborted;
    hide P.DoRelease, P.DoAcquire, P.DoAbort, AbortAll, P.Step, Inv, Answered;
    e := if r.calls[c] == Unwinding then Resume(c, 0, false, false) else Cut(c);
  }

  /** An event that brings an aborted call closer to its end. */
  lemma NextEvent(r: Runtime, c: nat) returns (e: Event)
    requires Aborting(r, c)
    ensures CallCloser(r, Step(r, e), c)
  {
    hide CallCloser, Step, Inv, Answered;
    if r.calls[c].Acquiring? {
      e := AcquiringNext(r, c);
    } else if r.calls[c].Discarding? {
      e := DiscardingNext(r, c);
    } else {
      e := OtherNext(r, c);
    }
  }

  lemma SettledCloses(p: P.Pool, id: nat)
    requires P.Inv(p) && id in p.closing
    ensures P.Step(p, P.CloseSettled(id, false)).closing == p.closing - multiset{id}
  {
    P.PumpFrame(p.(closing := p.closing - multiset{id}));
  }

  /** An aborted call that was not rejected has its lease: aborted waiters do not stay parked. */
  lemma GrantedHolds(r: Runtime, c: nat) returns (id: nat)
    requires Aborting(r, c) && r.calls[c].Acquiring? && r.calls[c].ticket !in r.pool.rejected
    ensures id in r.pool.held && r.pool.held[id] == r.calls[c].ticket
  {
    var t := r.calls[c].ticket;
    assert Asked(r, t, c) && Live(r.pool, t) && c in r.pool.aborted;
    assert P.SignalFired(r.pool, t) && t !in r.pool.waiters;
    assert multiset(r.pool.signalOf.Keys)[t] == 1;
    assert multiset(r.pool.waiters)[t] == 0 && multiset(r.pool.rejected)[t] == 0;
    assert t in r.pool.granted;
    id :| id in r.pool.held && r.pool.held[id] == t;
  }

  lemma {:induction false} EndCall(r: Runtime, c: nat) returns (more: seq<Event>)
    requires Aborting(r, c)
    ensures var q := Run(r, more); Sound(q) && q.stage == WaitCalls && q.calls == r.calls - {c}
    decreases Stages(r.calls[c]), Pending(r, c)
  {
    var e := NextEvent(r, c);
    var q := Step(r, e);
    StepSound(r, e);
    hide Step, Sound, Pending, Stages;
    RunOne(r, e);
    if q.calls == r.calls - {c} {
      more := [e];
    } else {
      var rest := EndCall(q, c);
      more := [e] + rest;
      RunFirst(r, e, rest);
      assert q.calls - {c} == r.calls - {c};
    }
  }

  ghost predicate NoLeak(r: Runtime) { forall c | c in r.calls :: r.calls[c] != Leaked }

  lemma {:induction false} EndCalls(r: Runtime) returns (more: seq<Event>)
    requires Sound(r) && r.stage == WaitCalls && NoLeak(r)
    ensures var q := Run(r, more); Sound(q) && q.stage == WaitCalls && q.calls == map[]
    decreases |r.calls|
  {
    hide Sound, Step;
    if r.calls == map[] {
      more := [];
    } else {
      var c :| c in r.calls;
      var first := EndCall(r, c);
      var q := Run(r, first);
      assert q.calls.Keys == r.calls.Keys - {c} && |q.calls.Keys| == |r.calls.Keys| - 1;
      var rest := EndCalls(q);
      more := first + rest;
      RunOn(r, first, rest);
    }
  }

  // ---- ending the background ----

  ghost predicate Settling(r: Runtime, t: nat) { Sound(r) && r.stage.WaitBackground? && t in r.guests }

  function Rest(g: Guest): nat { match g case Running(_, _) => 2 case Draining(_) => 1 case Returned => 0 }

  function Closes(r: Runtime, t: nat): nat
    requires t in r.guests
  {
    if r.guests[t].Draining? then r.pool.closing[r.guests[t].id] else 0
  }

  /** An event that brings a guest closer to its end, and touches no other guest. */
  lemma NextSettles(r: Runtime, t: nat) returns (e: Event)
    requires Settling(r, t)
    ensures var q := Step(r, e);
      && q.stage == r.stage && q.load == r.load
      && (q.guests == r.guests - {t} ||
          (t in q.guests && q.guests == r.guests[t := q.guests[t]] &&
           (Rest(q.guests[t]) < Rest(r.guests[t]) || (q.guests[t] == r.guests[t] && Closes(q, t) < Closes(r, t)))))
  {
    hide P.DoRelease, P.DoAcquire, P.DoAbort, AbortAll, P.Step;
    match r.guests[t]
    case Running(_, _) => e := GuestSettles(t, false);
    case Returned => e := GuestDone(t);
    case Draining(id) =>
      if r.pool.closing[id] == 0 { e := GuestDone(t); } else {
        e := PoolEvent(P.CloseSettled(id, false));
        SettledCloses(r.pool, id);
        assert Step(r, e).guests == r.guests == r.guests[t := r.guests[t]];
      }
  }

  lemma {:induction false} EndGuest(r: Runtime, t: nat) returns (more: seq<Event>)
    requires Settling(r, t)
    ensures var q := Run(r, more); Sound(q) && q.stage == r.stage && q.load == r.load && q.guests == r.guests - {t}
    decreases Rest(r.guests[t]), Closes(r, t)
  {
    var e := NextSettles(r, t);
    var q := Step(r, e);
    StepSound(r, e);
    RunOne(r, e);
    if q.guests == r.guests - {t} {
      more := [e];
    } else {
      SettlesOn(r, t, q);
      hide *;
      var rest := EndGuest(q, t);
      more := [e] + rest;
      RunFirst(r, e, rest);
    }
  }

  lemma SettlesOn(r: Runtime, t: nat, q: Runtime)
    requires Settling(r, t) && Sound(q) && q.stage == r.stage && t in q.guests && q.guests == r.guests[t := q.guests[t]]
    requires Rest(q.guests[t]) < Rest(r.guests[t]) || (q.guests[t] == r.guests[t] && Closes(q, t) < Closes(r, t))
    ensures Settling(q, t) && q.guests - {t} == r.guests - {t}
    ensures Rest(q.guests[t]) < Rest(r.guests[t]) || (Rest(q.guests[t]) == Rest(r.guests[t]) && Closes(q, t) < Closes(r, t))
  {
    hide Sound, Closes, Rest;
  }

  lemma {:induction false} EndGuests(r: Runtime) returns (more: seq<Event>)
    requires Sound(r) && r.stage.WaitBackground?
    ensures var q := Run(r, more); Sound(q) && q.stage == r.stage && q.load == r.load && q.guests == map[]
    decreases |r.guests|
  {
    hide Sound, Step;
    if r.guests == map[] {
      more := [];
    } else {
      var t :| t in r.guests;
      var first := EndGuest(r, t);
      var q := Run(r, first);
      assert q.guests.Keys == r.guests.Keys - {t} && |q.guests.Keys| == |r.guests.Keys| - 1;
      var rest := EndGuests(q);
      more := first + rest;
      RunOn(r, first, rest);
    }
  }

  // ---- ending the pool ----

  ghost predicate Ending(p: P.Pool) { P.Inv(p) && p.closed && p.busy == {} && p.outcome == P.Unsettled }

  /** Fewer creations, else fewer closes, else fewer instances to finalize, else fewer of those closing. */
  ghost predicate Closer(p: P.Pool, q: P.Pool) {
    && q.closed && q.busy == {}
    && (q.outcome != P.Unsettled || |q.pending| < |p.pending| ||
        (q.pending == p.pending && |q.closing| < |p.closing|) ||
        (q.pending == p.pending && q.closing == p.closing && |q.finalists| < |p.finalists|) ||
        (q.pending == p.pending && q.closing == p.closing && q.finalists == p.finalists && |q.finalClosing| < |p.finalClosing|))
  }

  lemma CreationEnds(p: P.Pool, id: nat)
    requires Ending(p) && id in p.pending
    ensures Closer(p, P.Step(p, P.CreateFail(id)))
  {
    assert p.waiters == [];
    assert |p.pending - {id}| < |p.pending|;
  }

  lemma CloseEnds(p: P.Pool, id: nat)
    requires Ending(p) && id in p.closing
    ensures Closer(p, P.Step(p, P.CloseSettled(id, false)))
  {
    assert |p.closing - multiset{id}| < |p.closing|;
  }

  lemma FinalEnds(p: P.Pool, id: nat)
    requires Ending(p)
    ensures id in p.finalists ==> Closer(p, P.Step(p, P.FinalCall(id)))
    ensures id in p.finalClosing ==> Closer(p, P.Step(p, P.FinalSettled(id, false)))
  {
  }

  lemma CloseSettles(p: P.Pool)
    requires Ending(p) && p.pending == {} && p.closing == multiset{} && p.finalists == {} && p.finalClosing == {}
    ensures Closer(p, P.Step(p, P.SettleClose))
  {
    assert p.finalizing;
  }

  /** An event of the environment that brings a closed pool closer to its end. */
  lemma NextPoolEvent(p: P.Pool) returns (e: P.Event)
    requires Ending(p)
    ensures P.Environment(e) && Closer(p, P.Step(p, e)) && P.Inv(P.Step(p, e))
  {
    assert P.Inv(p);
    hide P.Step, P.Inv, Closer;
    if p.pending != {} {
      var id :| id in p.pending;
      e := P.CreateFail(id);
      CreationEnds(p, id);
    } else if p.closing != multiset{} {
      var id :| id in p.closing;
      e := P.CloseSettled(id, false);
      CloseEnds(p, id);
    } else if p.finalists != {} {
      var id :| id in p.finalists;
      e := P.FinalCall(id);
      FinalEnds(p, id);
    } else if p.finalClosing != {} {
      var id :| id in p.finalClosing;
      e := P.FinalSettled(id, false);
      FinalEnds(p, id);
    } else {
      e := P.SettleClose;
      CloseSettles(p);
    }
    P.StepKeeps(p, e);
  }

  lemma {:induction false} EndPool(p: P.Pool) returns (more: seq<P.Event>)
    requires Ending(p)
    ensures P.Run(p, more).outcome != P.Unsettled && forall e | e in more :: P.Environment(e)
    decreases |p.pending|, |p.closing|, |p.finalists|, |p.finalClosing|
  {
    var e := NextPoolEvent(p);
    var q := P.Step(p, e);
    hide P.Step, P.Inv, P.Environment;
    if q.outcome != P.Unsettled {
      more := [e];
      PoolRunFirst(p, e, []);
      assert [e] + [] == [e];
    } else {
      var rest := EndPool(q);
      more := [e] + rest;
      PoolRunFirst(p, e, rest);
    }
  }

  lemma {:induction false} PoolRunFirst(p: P.Pool, e: P.Event, rest: seq<P.Event>)
    ensures P.Run(p, [e] + rest) == P.Run(P.Step(p, e), rest)
    decreases |rest|
  {
    hide P.Step;
    if rest == [] {
      assert [e] + rest == [e] && [e][..0] == [];
    } else {
      assert ([e] + rest)[..|rest|] == [e] + rest[..|rest| - 1];
      PoolRunFirst(p, e, rest[..|rest| - 1]);
    }
  }

  function Lift(events: seq<P.Event>): (r: seq<Event>)
    ensures |r| == |events|
  {
    if events == [] then [] else [PoolEvent(events[0])] + Lift(events[1..])
  }

  lemma LiftFirst(events: seq<P.Event>)
    requires events != []
    ensures Lift(events) == [PoolEvent(events[0])] + Lift(events[1..])
  {
  }

  lemma LiftStep(r: Runtime, e: P.Event)
    requires P.Environment(e)
    ensures Step(r, PoolEvent(e)) == r.(pool := P.Step(r.pool, e))
  {
    hide P.Step;
  }

  lemma {:induction false} RunLift(r: Runtime, events: seq<P.Event>)
    requires forall e | e in events :: P.Environment(e)
    ensures Run(r, Lift(events)) == r.(pool := P.Run(r.pool, events))
    decreases |events|
  {
    if events == [] {
      hide Step, P.Step;
      assert Run(r, []) == r;
    } else {
      hide *;
      var e, rest := events[0], events[1..];
      assert e in events && forall x | x in rest :: x in events;
      LiftFirst(events);
      LiftStep(r, e);
      RunFirst(r, PoolEvent(e), Lift(rest));
      RunLift(Step(r, PoolEvent(e)), rest);
      PoolRunFirst(r.pool, e, rest);
      assert [e] + rest == events;
    }
  }

  // ---- from any point of a shutdown to its end ----

  function Ahead(s: Stage): nat {
    match s case Open => 5 case WaitCalls => 4 case WaitLoad => 3 case WaitBackground(_) => 2 case PoolClosing => 1 case Done => 0
  }

  /** Events that take a shutdown from one stage to a later one. */
  lemma NextStage(r: Runtime) returns (more: seq<Event>)
    requires Sound(r) && NoLeak(r) && r.stage != Open && r.stage != Done
    ensures var q := Run(r, more); Sound(q) && NoLeak(q) && q.stage != Open && Ahead(q.stage) < Ahead(r.stage)
  {
    hide Sound, NoLeak, Run, Step;
    match r.stage
    case WaitCalls =>
      var first := EndCalls(r);
      more := LeaveCalls(r, first);
    case WaitLoad =>
      more := LeaveLoad(r);
    case WaitBackground(_) =>
      var first := EndGuests(r);
      more := LeaveBackground(r, first);
    case PoolClosing =>
      more := LeavePool(r);
  }

  lemma LeaveCalls(r: Runtime, first: seq<Event>) returns (more: seq<Event>)
    requires var q := Run(r, first); Sound(q) && q.stage == WaitCalls && q.calls == map[]
    ensures var q := Run(r, more); Sound(q) && NoLeak(q) && q.stage == WaitLoad
  {
    var q := Run(r, first);
    more := first + [Advance];
    StepSound(q, Advance);
    RunOn(r, first, [Advance]);
    RunOne(q, Advance);
    hide Run, Sound;
  }

  lemma LeaveLoad(r: Runtime) returns (more: seq<Event>)
    requires Sound(r) && r.stage == WaitLoad
    ensures var q := Run(r, more); Sound(q) && NoLeak(q) && q.stage.WaitBackground?
  {
    var e := LoadSettles(false);
    LoadLeaves(r);
    StepSound(r, e);
    StepSound(Step(r, e), Advance);
    RunFirst(r, e, [Advance]);
    RunOne(Step(r, e), Advance);
    more := [e] + [Advance];
    hide *;
  }

  lemma LoadLeaves(r: Runtime)
    requires Sound(r) && r.stage == WaitLoad
    ensures var q := Step(Step(r, LoadSettles(false)), Advance); q.stage.WaitBackground? && NoLeak(q)
  {
    assert r.calls == map[];
    hide Sound;
  }

  lemma LeaveBackground(r: Runtime, first: seq<Event>) returns (more: seq<Event>)
    requires var q := Run(r, first); Sound(q) && q.stage.WaitBackground? && q.guests == map[]
    ensures var q := Run(r, more); Sound(q) && NoLeak(q) && q.stage == PoolClosing
  {
    var q := Run(r, first);
    BackgroundLeaves(q);
    StepSound(q, Advance);
    hide *;
    more := first + [Advance];
    RunOn(r, first, [Advance]);
    RunOne(q, Advance);
  }

  lemma BackgroundLeaves(r: Runtime)
    requires Sound(r) && r.stage.WaitBackground? && r.guests == map[]
    ensures Step(r, Advance).stage == PoolClosing && NoLeak(Step(r, Advance))
  {
    assert r.calls == map[];
    hide Sound, P.DoClose;
  }

  lemma PoolSettles(r: Runtime) returns (events: seq<P.Event>)
    requires Sound(r) && r.stage == PoolClosing
    ensures forall e | e in events :: P.Environment(e)
    ensures r.load == Loaded ==> P.Run(r.pool, events).outcome != P.Unsettled
    ensures r.calls == map[]
  {
    events := [];
    if r.load == Loaded && r.pool.outcome == P.Unsettled {
      NothingLeft(r);
      events := EndPool(r.pool);
    } else {
      assert P.Run(r.pool, []) == r.pool;
    }
  }

  lemma PoolLeaves(r: Runtime)
    requires r.stage == PoolClosing && (r.load == Loaded ==> r.pool.outcome != P.Unsettled)
    ensures Step(r, Advance).stage == Done && Step(r, Advance).calls == r.calls
  {
  }

  lemma LeavePool(r: Runtime) returns (more: seq<Event>)
    requires Sound(r) && r.stage == PoolClosing
    ensures var q := Run(r, more); Sound(q) && NoLeak(q) && q.stage == Done
  {
    hide Sound, Run, Step, P.Run, Lift, P.Environment;
    var events := PoolSettles(r);
    var q := r.(pool := P.Run(r.pool, events));
    RunLift(r, events);
    RunSound(r, Lift(events));
    PoolLeaves(q);
    StepSound(q, Advance);
    more := Lift(events) + [Advance];
    RunOn(r, Lift(events), [Advance]);
    RunOne(q, Advance);
  }

  /** A shutdown without a leaked call can always still get through. */
  lemma {:induction false} Completes(r: Runtime) returns (more: seq<Event>)
    requires Sound(r) && NoLeak(r) && r.stage != Open
    ensures Run(r, more).stage == Done
    decreases Ahead(r.stage)
  {
    if r.stage == Done {
      more := [];
    } else {
      var first := NextStage(r);
      hide Sound, NoLeak, Run;
      var rest := Completes(Run(r, first));
      more := first + rest;
      RunOn(r, first, rest);
    }
  }

  // ---- a call whose options are refused ----

  ghost predicate Stuck(r: Runtime, call: nat) {
    call in r.calls && r.calls[call] == Leaked && call < r.nextCall && (r.stage == Open || r.stage == WaitCalls)
  }

  lemma StuckStays(r: Runtime, e: Event, call: nat)
    requires Stuck(r, call)
    ensures Stuck(Step(r, e), call)
  {
    hide P.DoRelease, P.DoAcquire, P.DoAbort, P.Step, AbortAll;
  }

  lemma {:induction false} StuckForever(r: Runtime, call: nat, more: seq<Event>)
    requires Stuck(r, call)
    ensures Stuck(Run(r, more), call)
    decreases |more|
  {
    hide Step, Stuck;
    if more != [] {
      StuckForever(r, call, more[..|more| - 1]);
      StuckStays(Run(r, more[..|more| - 1]), more[|more| - 1], call);
    }
  }

  /** A call with refused options was made before close(). */
  ghost predicate AnyRefused(events: seq<Event>) {
    exists i :: 0 <= i < |events| && RefusedAt(events, i)
  }

  predicate RefusedAt(events: seq<Event>, i: int) {
    0 <= i < |events| && events[i].Invoke? && Refused(events[i].options) && CloseRuntime !in events[..i]
  }

  lemma RunNone(r: Runtime)
    ensures Run(r, []) == r
  {
  }

  lemma RunLast(r: Runtime, events: seq<Event>)
    requires events != []
    ensures Run(r, events) == Step(Run(r, events[..|events| - 1]), events[|events| - 1])
    ensures CloseRuntime in events <==> CloseRuntime in events[..|events| - 1] || events[|events| - 1] == CloseRuntime
  {
    hide Step;
    assert events == events[..|events| - 1] + [events[|events| - 1]];
  }

  lemma {:induction false} OpenUntilClosed(poolSize: nat, events: seq<Event>)
    ensures Run(Initial(poolSize), events).stage == Open <==> CloseRuntime !in events
    decreases |events|
  {
    var start := Initial(poolSize);
    assert start.stage == Open;
    hide *;
    if events == [] {
      RunNone(start);
    } else {
      var init, last := events[..|events| - 1], events[|events| - 1];
      OpenUntilClosed(poolSize, init);
      RunLast(start, events);
      OpenStays(Run(start, init), last);
    }
  }

  lemma OpenStays(r: Runtime, e: Event)
    ensures Step(r, e).stage == Open <==> r.stage == Open && e != CloseRuntime
  {
    hide P.DoRelease, P.DoAcquire, P.DoAbort, P.Step, AbortAll;
  }

  lemma LeakStep(r: Runtime, e: Event)
    requires Staged(r) && (NoLeak(r) || r.stage == Open || r.stage == WaitCalls)
    ensures NoLeak(Step(r, e)) <==> NoLeak(r) && !(r.stage == Open && e.Invoke? && Refused(e.options))
  {
    hide P.DoRelease, P.DoAcquire, P.DoAbort, P.Step, AbortAll;
    if !NoLeak(r) {
      var c :| c in r.calls && r.calls[c] == Leaked;
      StuckStays(r, e, c);
      assert Step(r, e).calls[c] == Leaked;
    } else if r.stage == Open && e.Invoke? && Refused(e.options) {
      assert Step(r, e).calls[r.nextCall] == Leaked;
    }
  }

  /** A counted call leaks exactly when its options are refused. */
  lemma {:induction false} LeakedIff(poolSize: nat, events: seq<Event>)
    ensures NoLeak(Run(Initial(poolSize), events)) <==> !AnyRefused(events)
    decreases |events|
  {
    if events != [] {
      var init, last := events[..|events| - 1], events[|events| - 1];
      LeakedIff(poolSize, init);
      OpenUntilClosed(poolSize, init);
      RunKeeps(poolSize, init);
      LeakStep(Run(Initial(poolSize), init), last);
      RefusedLast(events);
      hide Step, NoLeak, Inv, AnyRefused;
    } else {
      assert Run(Initial(poolSize), []).calls == map[];
    }
  }

  lemma RefusedLast(events: seq<Event>)
    requires events != []
    ensures AnyRefused(events) <==> AnyRefused(events[..|events| - 1]) || RefusedAt(events, |events| - 1)
  {
    var init := events[..|events| - 1];
    assert forall i | 0 <= i < |init| :: init[i] == events[i] && init[..i] == events[..i];
    assert forall i | 0 <= i < |init| :: RefusedAt(init, i) <==> RefusedAt(events, i);
  }

  lemma InitialSound(poolSize: nat)
    ensures Sound(Initial(poolSize))
  {
    RunKeeps(poolSize, []);
  }

  // ---- main result: every sequence of events before close(), in any interleaving ----

  /** From any point, a shutdown can get through exactly when no call was made whose options are refused. Such a call is
      counted before resolveDeadline throws and is never uncounted: close() then waits for it forever. */
  lemma ShutdownCompletesIff(poolSize: nat, events: seq<Event>)
    ensures (exists more :: Run(Initial(poolSize), events + [CloseRuntime] + more).stage == Done) <==> !AnyRefused(events)
  {
    var start, closing := Initial(poolSize), events + [CloseRuntime];
    var r := Run(start, closing);
    InitialSound(poolSize);
    RunSound(start, closing);
    OpenUntilClosed(poolSize, closing);
    LeakedIff(poolSize, closing);
    RefusedLast(closing);
    assert closing[..|events|] == events && closing[|events|] == CloseRuntime;
    forall more ensures Run(start, closing + more) == Run(r, more) { RunOn(start, closing, more); }
    if NoLeak(r) {
      var more := Completes(r);
      assert Run(start, closing + more).stage == Done;
    } else {
      var c :| c in r.calls && r.calls[c] == Leaked;
      assert Stuck(r, c);
      forall more ensures Run(start, closing + more).stage != Done { StuckForever(r, c, more); }
    }
  }
}
