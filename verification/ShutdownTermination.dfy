/** Every shutdown of the runtime in wasm/runtime.ts comes to rest: once close() has started, each event that changes
    anything uses up work, and whoever comes to rest without a refused call has closed everything. */
module ShutdownTermination {
  import opened RuntimeModel
  import opened ShutdownCompletion
  import P = PoolModel

  // ---- the work left in a pool that nobody waits for ----

  function PoolWork(p: P.Pool): nat {
    5 * |p.pending| + 4 * |p.entries| + |p.held| + |p.closing| + 3 * |p.finalists| + 2 * |p.finalClosing| +
    if p.outcome == P.Unsettled then 1 else 0
  }

  function Members(s: seq<nat>): set<nat> { set x | x in s }

  lemma {:induction false} FewerDistinct(s: seq<nat>)
    ensures |Members(s)| <= |s|
    decreases |s|
  {
    if s != [] {
      FewerDistinct(s[1..]);
      assert Members(s) == Members(s[1..]) + {s[0]};
    }
  }

  lemma FinishWork(p: P.Pool)
    requires !p.finalizing ==> p.finalists == {}
    ensures PoolWork(P.MaybeFinishClose(p)) <= PoolWork(p)
  {
    FewerDistinct(p.entries);
    var q := P.MaybeFinishClose(p);
    if q != p { assert q.finalists == Members(p.entries); }
  }

  /** Without waiters a pump creates and grants nothing. */
  lemma PumpWork(p: P.Pool)
    requires p.waiters == [] && (!p.finalizing ==> p.finalists == {})
    ensures PoolWork(P.Pump(p)) <= PoolWork(p) && P.Pump(p).waiters == []
    ensures !P.Pump(p).finalizing ==> P.Pump(p).finalists == {}
  {
    FinishWork(p);
  }

  lemma CreationWork(p: P.Pool, id: nat)
    requires P.Core(p) && p.waiters == [] && id in p.pending
    ensures PoolWork(P.DoCreateOk(p, id)) < PoolWork(p) && PoolWork(P.DoCreateFail(p, id)) < PoolWork(p)
  {
    assert |p.pending - {id}| == |p.pending| - 1;
    assert p.creating > 0;
    var q := p.(creating := p.creating - 1, pending := p.pending - {id});
    PumpWork(q.(created := p.created + {id}, entries := q.entries + [id]));
    PumpWork(q);
    FinishWork(P.Pump(q));
    hide P.Pump, P.MaybeFinishClose;
  }

  lemma FewerClosing(p: P.Pool, q: P.Pool, id: nat)
    requires id in p.closing && q == p.(closing := p.closing - multiset{id}, failures := q.failures)
    ensures PoolWork(q) < PoolWork(p)
  {
    assert |p.closing - multiset{id}| == |p.closing| - 1;
  }

  lemma Unfinished(p: P.Pool)
    requires P.Core(p)
    ensures !p.finalizing ==> p.finalists == {}
  {
    hide P.Bounded, P.Leased, P.Served, P.Fifo;
  }

  lemma CloseIs(p: P.Pool, id: nat, failed: bool)
    ensures var q := p.(closing := p.closing - multiset{id}, failures := if failed && p.closed then p.failures + 1 else p.failures);
      P.DoCloseSettled(p, id, failed) == P.MaybeFinishClose(P.Pump(q))
  {
    hide P.Pump, P.MaybeFinishClose;
  }

  lemma CloseWork(p: P.Pool, id: nat, failed: bool)
    requires P.Core(p) && p.waiters == [] && id in p.closing
    ensures PoolWork(P.DoCloseSettled(p, id, failed)) < PoolWork(p)
  {
    hide *;
    var q := p.(closing := p.closing - multiset{id}, failures := if failed && p.closed then p.failures + 1 else p.failures);
    Unfinished(p);
    FewerClosing(p, q, id);
    PumpWork(q);
    FinishWork(P.Pump(q));
    CloseIs(p, id, failed);
  }

  lemma FinalCallWork(p: P.Pool, id: nat)
    requires id in p.finalists
    ensures PoolWork(P.Step(p, P.FinalCall(id))) < PoolWork(p)
  {
    assert |p.finalists - {id}| == |p.finalists| - 1 && |p.finalClosing + {id}| <= |p.finalClosing| + 1;
  }

  lemma FinalSettledWork(p: P.Pool, id: nat, failed: bool)
    requires id in p.finalClosing
    ensures PoolWork(P.Step(p, P.FinalSettled(id, failed))) < PoolWork(p)
  {
    assert |p.finalClosing - {id}| == |p.finalClosing| - 1;
  }

  lemma FinalWork(p: P.Pool, e: P.Event)
    requires e.FinalCall? || e.FinalSettled? || e.SettleClose?
    ensures P.Step(p, e) == p || PoolWork(P.Step(p, e)) < PoolWork(p)
  {
    match e
    case FinalCall(id) => if id in p.finalists { hide PoolWork; FinalCallWork(p, id); }
    case FinalSettled(id, failed) => if id in p.finalClosing { hide PoolWork; FinalSettledWork(p, id, failed); }
    case SettleClose =>
  }

  lemma EnvironmentWork(p: P.Pool, e: P.Event)
    requires P.Core(p) && p.waiters == [] && P.Environment(e)
    ensures P.Step(p, e) == p || PoolWork(P.Step(p, e)) < PoolWork(p)
  {
    hide P.Core, P.DoCreateOk, P.DoCreateFail, P.DoCloseSettled, PoolWork;
    match e
    case CreateOk(id) => if id in p.pending { CreationWork(p, id); }
    case CreateFail(id) => if id in p.pending { CreationWork(p, id); }
    case CloseSettled(id, failed) => if id in p.closing { CloseWork(p, id, failed); }
    case _ => FinalWork(p, e);
  }

  lemma ReleaseWork(p: P.Pool, id: nat, discard: bool)
    requires P.Core(p) && p.waiters == [] && id in p.held
    ensures PoolWork(P.DoRelease(p, id, p.held[id], discard)) < PoolWork(p)
  {
    assert id in p.busy && id in p.entries;
    assert (p.held - {id}).Keys == p.held.Keys - {id} && |p.held - {id}| == |p.held| - 1;
    var q := p.(held := p.held - {id});
    P.Removed(p.entries, id);
    PumpWork(q.(busy := q.busy - {id}));
    hide P.Pump, P.Without, P.Core;
  }

  lemma ClosingWork(p: P.Pool)
    requires P.Core(p)
    ensures PoolWork(P.DoClose(p)) <= PoolWork(p)
  {
    FinishWork(p.(closed := true, rejected := p.rejected + (set t | t in p.waiters), waiters := []));
    hide P.MaybeFinishClose;
  }

  // ---- the work left in the calls and guests ----

  function Rank(phase: Phase): nat {
    match phase case Loading => 4 case Sleeping => 4 case Acquiring(_) => 3 case Unwinding => 1 case Leaked => 1 case _ => 2
  }

  function CallWork(calls: map<nat, Phase>, bound: nat): nat {
    if bound == 0 then 0 else
    CallWork(calls, bound - 1) + if bound - 1 in calls then Rank(calls[bound - 1]) else 0
  }

  lemma {:induction false} CallMoves(calls: map<nat, Phase>, c: nat, phase: Phase, bound: nat)
    requires c in calls
    ensures CallWork(calls[c := phase], bound) == CallWork(calls, bound) + if c < bound then Rank(phase) - Rank(calls[c]) else 0
    ensures CallWork(calls - {c}, bound) == CallWork(calls, bound) - if c < bound then Rank(calls[c]) else 0
  {
    hide Rank;
    if bound > 0 { CallMoves(calls, c, phase, bound - 1); }
  }

  function Dispatched(guests: map<nat, Guest>): set<nat> { set t | t in guests && guests[t].Running? }

  function GuestWork(guests: map<nat, Guest>): nat { |guests| + |Dispatched(guests)| }

  lemma GuestMoves(guests: map<nat, Guest>, t: nat, guest: Guest)
    requires t in guests
    ensures guests[t].Running? && !guest.Running? ==> GuestWork(guests[t := guest]) < GuestWork(guests)
    ensures GuestWork(guests - {t}) < GuestWork(guests)
  {
    if !guest.Running? { assert Dispatched(guests[t := guest]) == Dispatched(guests) - {t}; }
    assert guests[t := guest].Keys == guests.Keys && |guests[t := guest].Keys| == |guests[t := guest]|;
    assert Dispatched(guests - {t}) == Dispatched(guests) - {t};
    assert (guests - {t}).Keys == guests.Keys - {t} && |(guests - {t}).Keys| == |guests - {t}|;
  }

  function LoadWork(load: Load): nat { if load == InFlight then 1 else 0 }

  /** What is left to do once close() has started. */
  function Work(r: Runtime): nat {
    CallWork(r.calls, r.nextCall) + GuestWork(r.guests) + PoolWork(r.pool) + Ahead(r.stage) + LoadWork(r.load)
  }

  lemma WorkIs(r: Runtime)
    ensures Work(r) == CallWork(r.calls, r.nextCall) + GuestWork(r.guests) + PoolWork(r.pool) + Ahead(r.stage) + LoadWork(r.load)
  {
  }

  ghost predicate Shutting(r: Runtime) { Inv(r) && r.stage != Open }

  /** Every call is aborted, so nobody is parked: no instance is created any more. */
  lemma NobodyWaits(r: Runtime)
    requires Shutting(r)
    ensures r.pool.waiters == [] && P.Core(r.pool) && forall c | c in r.calls :: c < r.nextCall && c in r.pool.aborted
  {
    if r.pool.waiters != [] {
      var t := r.pool.waiters[0];
      assert t in r.pool.waiters && Waits(r, t);
      assert P.SignalFired(r.pool, t);
      assert false;
    }
  }

  lemma PhaseWork(r: Runtime, call: nat, phase: Phase)
    requires call in r.calls && call < r.nextCall && Rank(phase) < Rank(r.calls[call])
    ensures Work(r.(calls := r.calls[call := phase])) < Work(r)
  {
    CallMoves(r.calls, call, phase, r.nextCall);
    hide CallWork, GuestWork, PoolWork, Rank, Ahead;
  }

  lemma AttemptWork(r: Runtime, call: nat)
    requires Shutting(r) && call in r.calls && Rank(r.calls[call]) == 4
    ensures Work(StartAttempt(r, call)) < Work(r)
  {
    var q := StartAttempt(r, call);
    NobodyWaits(r);
    CallMoves(r.calls, call, Acquiring(r.pool.nextTicket), r.nextCall);
    assert PoolWork(q.pool) == PoolWork(r.pool);
    hide CallWork, GuestWork, PoolWork, Ahead, P.DoAcquire, Inv, Work;
    WorkIs(r);
    WorkIs(q);
  }

  lemma DropWork(r: Runtime, call: nat, id: nat)
    requires Shutting(r) && call in r.calls && r.calls[call].Acquiring?
    requires id in r.pool.held && r.pool.held[id] == r.calls[call].ticket
    ensures Work(r.(pool := P.DoRelease(r.pool, id, r.calls[call].ticket, true), calls := r.calls[call := Discarding(id)])) < Work(r)
  {
    hide CallWork, GuestWork, PoolWork, Ahead, P.DoRelease, Inv, Work, P.Core;
    var q := r.(pool := P.DoRelease(r.pool, id, r.calls[call].ticket, true), calls := r.calls[call := Discarding(id)]);
    NobodyWaits(r);
    ReleaseWork(r.pool, id, true);
    CallMoves(r.calls, call, Discarding(id), r.nextCall);
    WorkIs(r);
    WorkIs(q);
  }

  lemma EndWork(r: Runtime, call: nat)
    requires call in r.calls && call < r.nextCall
    ensures Work(r.(calls := r.calls - {call})) < Work(r)
  {
    CallMoves(r.calls, call, Unwinding, r.nextCall);
    hide CallWork, GuestWork, PoolWork, Ahead, Work;
    WorkIs(r);
    WorkIs(r.(calls := r.calls - {call}));
  }

  lemma ResumeWork(r: Runtime, call: nat, id: nat, throws: bool, retry: bool)
    requires Shutting(r) && call in r.calls
    ensures var q := DoResume(r, call, id, throws, retry); q == r || Work(q) < Work(r)
  {
    NobodyWaits(r);
    hide Work, Shutting, StartAttempt, P.DoRelease, P.Core;
    match r.calls[call]
    case Loading =>
      if r.load == Loaded && !throws { AttemptWork(r, call); } else { PhaseWork(r, call, Unwinding); }
    case Acquiring(t) =>
      if t in r.pool.rejected { PhaseWork(r, call, Unwinding); }
      else if id in r.pool.held && r.pool.held[id] == t { DropWork(r, call, id); }
    case Discarding(_) => PhaseWork(r, call, Unwinding);
    case Racing(_) => PhaseWork(r, call, Unwinding);
    case Sleeping => if throws { PhaseWork(r, call, Unwinding); } else { AttemptWork(r, call); }
    case Unwinding => EndWork(r, call);
    case Leaked =>
  }

  lemma SettlesWork(r: Runtime, t: nat, valid: bool)
    requires Shutting(r) && t in r.guests && r.guests[t].Running?
    ensures Work(DoGuestSettles(r, t, valid)) < Work(r)
  {
    var Running(call, id) := r.guests[t];
    var discard := call in r.pool.aborted || !valid;
    assert RuntimeModel.Holds(r, t, call, id);
    hide CallWork, GuestWork, PoolWork, Ahead, P.DoRelease, Inv, Work, P.Core;
    NobodyWaits(r);
    ReleaseWork(r.pool, id, discard);
    GuestMoves(r.guests, t, if discard || r.pool.closed then Draining(id) else Returned);
    WorkIs(r);
    WorkIs(DoGuestSettles(r, t, valid));
  }

  lemma DoneWork(r: Runtime, t: nat)
    ensures var q := Step(r, GuestDone(t)); q == r || Work(q) < Work(r)
  {
    hide CallWork, GuestWork, PoolWork, Ahead, Work;
    var q := Step(r, GuestDone(t));
    if q != r { GuestMoves(r.guests, t, Returned); }
    WorkIs(r);
    WorkIs(q);
  }

  lemma AdvanceWork(r: Runtime)
    requires Shutting(r)
    ensures DoAdvance(r) == r || Work(DoAdvance(r)) < Work(r)
  {
    hide CallWork, GuestWork, PoolWork, P.DoClose, Inv, Work, P.Core;
    NobodyWaits(r);
    ClosingWork(r.pool);
    WorkIs(r);
    WorkIs(DoAdvance(r));
  }

  lemma PoolEventWork(r: Runtime, e: P.Event)
    requires Shutting(r)
    ensures var q := Step(r, PoolEvent(e)); q == r || Work(q) < Work(r)
  {
    hide CallWork, GuestWork, PoolWork, Ahead, P.Step, Inv, P.Environment, Work, P.Core;
    NobodyWaits(r);
    if P.Environment(e) { EnvironmentWork(r.pool, e); }
    WorkIs(r);
    WorkIs(Step(r, PoolEvent(e)));
  }

  lemma CutWork(r: Runtime, call: nat)
    requires Shutting(r)
    ensures var q := Step(r, Cut(call)); q == r || Work(q) < Work(r)
  {
    NobodyWaits(r);
    hide Work, Shutting, P.Core;
    if call in r.calls && Rank(r.calls[call]) > 1 { PhaseWork(r, call, Unwinding); }
  }

  /** Once close() has started, an event changes nothing or uses up work. */
  lemma StepWork(r: Runtime, e: Event)
    requires Shutting(r)
    ensures Step(r, e) == r || Work(Step(r, e)) < Work(r)
  {
    match e
    case Resume(call, id, throws, retry) =>
      hide Work, Inv, DoResume;
      if call in r.calls { ResumeWork(r, call, id, throws, retry); }
    case GuestSettles(t, valid) =>
      hide Work, Inv, DoGuestSettles;
      if t in r.guests && r.guests[t].Running? { SettlesWork(r, t, valid); }
    case GuestDone(t) => DoneWork(r, t);
    case PoolEvent(event) => PoolEventWork(r, event);
    case Cut(call) => CutWork(r, call);
    case Advance => AdvanceWork(r);
    case _ => OtherWork(r, e);
  }

  lemma OtherWork(r: Runtime, e: Event)
    requires Shutting(r) && (e.Invoke? || e.LoadSettles? || e.CallerAborts? || e.CloseRuntime?)
    ensures Step(r, e) == r || Work(Step(r, e)) < Work(r)
  {
    NobodyWaits(r);
    hide CallWork, GuestWork, PoolWork, Ahead, Inv, P.RunListeners;
  }

  lemma StepShuts(r: Runtime, e: Event)
    requires Shutting(r)
    ensures Shutting(Step(r, e))
  {
    StepKeeps(r, e);
    OpenStays(r, e);
    hide Step, Inv;
  }

  // ---- runs ----

  /** How many of the events change something. */
  function Changes(r: Runtime, events: seq<Event>): nat
    decreases |events|
  {
    if events == [] then 0 else
    var front, last := events[..|events| - 1], events[|events| - 1];
    Changes(r, front) + if Step(Run(r, front), last) == Run(r, front) then 0 else 1
  }

  lemma {:induction false} ChangesUseWork(r: Runtime, events: seq<Event>)
    requires Shutting(r)
    ensures Shutting(Run(r, events)) && Changes(r, events) + Work(Run(r, events)) <= Work(r)
    decreases |events|
  {
    hide Step, Work, Shutting;
    if events != [] {
      var front, last := events[..|events| - 1], events[|events| - 1];
      ChangesUseWork(r, front);
      StepWork(Run(r, front), last);
      StepShuts(Run(r, front), last);
    }
  }

  /** No event changes anything any more. */
  ghost predicate AtRest(r: Runtime) { forall e :: Step(r, e) == r }

  lemma {:induction false} RestLasts(r: Runtime, events: seq<Event>)
    requires AtRest(r)
    ensures Run(r, events) == r
    decreases |events|
  {
    hide Step;
    if events != [] { RestLasts(r, events[..|events| - 1]); }
  }

  lemma RestIsDone(r: Runtime)
    requires Sound(r) && NoLeak(r) && r.stage != Open && AtRest(r)
    ensures r.stage == Done
  {
    hide *;
    var more := Completes(r);
    RestLasts(r, more);
  }

  /** The states along a schedule that never ends. */
  function Along(r: Runtime, schedule: nat -> Event, n: nat): Runtime {
    if n == 0 then r else Step(Along(r, schedule, n - 1), schedule(n - 1))
  }

  ghost predicate Moves(r: Runtime, schedule: nat -> Event, n: nat) {
    Step(Along(r, schedule, n), schedule(n)) != Along(r, schedule, n)
  }

  /** As long as some event could change something, sooner or later one does. */
  ghost predicate Fair(r: Runtime, schedule: nat -> Event) {
    forall n: nat :: AtRest(Along(r, schedule, n)) || exists m: nat :: n <= m && Moves(r, schedule, m)
  }

  ghost predicate Closes(r: Runtime) { Sound(r) && NoLeak(r) && r.stage != Open }

  lemma StepCloses(r: Runtime, e: Event)
    requires Closes(r)
    ensures Closes(Step(r, e)) && Work(Step(r, e)) <= Work(r) && (Step(r, e) != r ==> Work(Step(r, e)) < Work(r))
  {
    assert Shutting(r) && Staged(r);
    hide Inv, Step, Work, NoLeak, Answered;
    StepSound(r, e);
    StepShuts(r, e);
    StepWork(r, e);
    LeakStep(r, e);
  }

  lemma {:induction false} AlongCloses(r: Runtime, schedule: nat -> Event, n: nat, m: nat)
    requires n <= m && Closes(Along(r, schedule, n))
    ensures Closes(Along(r, schedule, m)) && Work(Along(r, schedule, m)) <= Work(Along(r, schedule, n))
    decreases m
  {
    hide Closes, Step, Work;
    if n < m {
      AlongCloses(r, schedule, n, m - 1);
      StepCloses(Along(r, schedule, m - 1), schedule(m - 1));
    }
  }

  lemma NextMove(r: Runtime, schedule: nat -> Event, n: nat) returns (m: nat)
    requires Fair(r, schedule) && !AtRest(Along(r, schedule, n))
    ensures n <= m && Moves(r, schedule, m)
  {
    hide AtRest, Moves, Along;
    m :| n <= m && Moves(r, schedule, m);
  }

  lemma MoveWorks(r: Runtime, schedule: nat -> Event, n: nat, m: nat)
    requires n <= m && Moves(r, schedule, m) && Closes(Along(r, schedule, n))
    ensures Closes(Along(r, schedule, m + 1)) && Work(Along(r, schedule, m + 1)) < Work(Along(r, schedule, n))
  {
    hide Closes, Step, Work;
    AlongCloses(r, schedule, n, m);
    StepCloses(Along(r, schedule, m), schedule(m));
    assert Along(r, schedule, m + 1) == Step(Along(r, schedule, m), schedule(m));
  }

  lemma {:induction false} FairCloses(r: Runtime, schedule: nat -> Event, n: nat) returns (end: nat)
    requires Fair(r, schedule) && Closes(Along(r, schedule, n))
    ensures Along(r, schedule, end).stage == Done
    decreases Work(Along(r, schedule, n))
  {
    if AtRest(Along(r, schedule, n)) {
      hide AtRest, Step, Work, Fair, Along, Sound, NoLeak;
      RestIsDone(Along(r, schedule, n));
      end := n;
    } else {
      hide *;
      var m := NextMove(r, schedule, n);
      MoveWorks(r, schedule, n, m);
      end := FairCloses(r, schedule, m + 1);
    }
  }

  lemma {:induction false} StuckAlong(r: Runtime, schedule: nat -> Event, n: nat, call: nat)
    requires Stuck(r, call)
    ensures Stuck(Along(r, schedule, n), call)
  {
    hide Stuck, Step;
    if n > 0 {
      StuckAlong(r, schedule, n - 1, call);
      StuckStays(Along(r, schedule, n - 1), schedule(n - 1), call);
    }
  }

  // ---- main results: every run before close(), and everything that may follow it ----

  /** The state in which close() leaves the runtime. */
  function Closed(poolSize: nat, events: seq<Event>): Runtime { Run(Initial(poolSize), events + [CloseRuntime]) }

  lemma ClosedCloses(poolSize: nat, events: seq<Event>)
    ensures Shutting(Closed(poolSize, events)) && Sound(Closed(poolSize, events))
    ensures NoLeak(Closed(poolSize, events)) <==> !AnyRefused(events)
    ensures !NoLeak(Closed(poolSize, events)) ==> exists c :: Stuck(Closed(poolSize, events), c)
  {
    var closing := events + [CloseRuntime];
    InitialSound(poolSize);
    RunSound(Initial(poolSize), closing);
    OpenUntilClosed(poolSize, closing);
    LeakedIff(poolSize, closing);
    RefusedLast(closing);
    assert closing[..|events|] == events && closing[|events|] == CloseRuntime;
    var r := Closed(poolSize, events);
    assert Inv(r) && Staged(r);
    if c :| c in r.calls && r.calls[c] == Leaked { assert Stuck(r, c); }
    hide Run, Inv, Answered;
  }

  /** After close() only boundedly many events change anything, whatever happens; and when nothing can change any more,
      the shutdown is done exactly when no call with refused options was made. */
  lemma ShutdownComesToRest(poolSize: nat, events: seq<Event>, more: seq<Event>)
    ensures Changes(Closed(poolSize, events), more) <= Work(Closed(poolSize, events))
    ensures var q := Run(Closed(poolSize, events), more); AtRest(q) ==> (q.stage == Done <==> !AnyRefused(events))
  {
    var r := Closed(poolSize, events);
    ClosedCloses(poolSize, events);
    ChangesUseWork(r, more);
    RunSound(r, more);
    hide Step, Work, Sound, Inv, Closed, AnyRefused, AtRest;
    if NoLeak(r) {
      NoLeakOn(r, more);
      if AtRest(Run(r, more)) { RestIsDone(Run(r, more)); }
    } else {
      var c :| Stuck(r, c);
      StuckForever(r, c, more);
    }
  }

  lemma {:induction false} NoLeakOn(r: Runtime, more: seq<Event>)
    requires Shutting(r) && NoLeak(r)
    ensures NoLeak(Run(r, more))
    decreases |more|
  {
    hide Step, Inv, NoLeak, Shutting;
    if more != [] {
      NoLeakOn(r, more[..|more| - 1]);
      ChangesUseWork(r, more[..|more| - 1]);
      LeakNever(Run(r, more[..|more| - 1]), more[|more| - 1]);
    }
  }

  lemma LeakNever(r: Runtime, e: Event)
    requires Shutting(r) && NoLeak(r)
    ensures NoLeak(Step(r, e))
  {
    LeakStep(r, e);
    hide Step, NoLeak;
  }

  /** On every schedule on which something that can change sooner or later does, the shutdown gets done, exactly when no
      call with refused options was made before it. */
  lemma FairShutdownIff(poolSize: nat, events: seq<Event>, schedule: nat -> Event)
    requires Fair(Closed(poolSize, events), schedule)
    ensures (exists n :: Along(Closed(poolSize, events), schedule, n).stage == Done) <==> !AnyRefused(events)
  {
    var r := Closed(poolSize, events);
    ClosedCloses(poolSize, events);
    hide Step, Work, Sound, Inv, Closed, AnyRefused, Fair, NoLeak;
    if NoLeak(r) {
      assert Along(r, schedule, 0) == r;
      var n := FairCloses(r, schedule, 0);
    } else {
      var c :| Stuck(r, c);
      forall n: nat ensures Along(r, schedule, n).stage != Done { StuckAlong(r, schedule, n, c); }
    }
  }
}
