/** What a call of the runtime in wasm/runtime.ts meets on its way: the load, the pool, its guest, its retry, its end. */
module RuntimeAnswers {
  import opened Common
  import opened RuntimeModel
  import P = PoolModel
  import A = PoolAnswers
  import opened ShutdownCompletion

  predicate Calling(r: Runtime, c: nat, phase: Phase) { c in r.calls && r.calls[c] == phase }

  /** No other call moved, and nothing but calls did. */
  predicate OnlyPhase(r: Runtime, q: Runtime, c: nat, phase: Phase) {
    q == r.(calls := r.calls[c := phase])
  }

  /** An open runtime counts every call, and starts to load with the first whose options are accepted; a closed one turns
      it away. */
  lemma InvokeAnswers(r: Runtime, options: CallOptions)
    requires Inv(r)
    ensures var q := Step(r, Invoke(options));
      && (r.stage != Open ==> q == r)
      && (r.stage == Open ==>
            && r.nextCall !in r.calls && q.calls == r.calls[r.nextCall := if Refused(options) then Leaked else Loading]
            && q.pool == r.pool && q.stage == Open
            && (q.load == InFlight <==> r.load == InFlight || (r.load == NotStarted && !Refused(options)))
            && (r.load != NotStarted ==> q.load == r.load))
  {
    hide P.Inv, Owned, Awaited, Refused;
  }

  /** The load succeeds exactly when the bundle loads and close() has not been called meanwhile; it settles once. */
  lemma LoadAnswers(r: Runtime, ok: bool)
    ensures var q := Step(r, LoadSettles(ok));
      && q.calls == r.calls && q.pool == r.pool && q.stage == r.stage && q.guests == r.guests
      && (r.load != InFlight ==> q.load == r.load)
      && (r.load == InFlight ==> q.load != InFlight && (q.load == Loaded <==> ok && r.stage == Open) && (q.load == Failed <==> !(ok && r.stage == Open)))
  {
  }

  /** Behind the load, and behind each retry delay, a call asks the pool for an instance with its own signal; it ends when
      the load failed, or when it throws itself. */
  lemma AsksPool(r: Runtime, c: nat, id: nat, throws: bool, retry: bool)
    requires c in r.calls && (r.calls[c].Loading? || r.calls[c].Sleeping?)
    ensures var q := Step(r, Resume(c, id, throws, retry));
      && (r.calls[c].Loading? && (r.load == NotStarted || r.load == InFlight) ==> q == r)
      && (r.calls[c].Loading? && r.load == Failed ==> OnlyPhase(r, q, c, Unwinding))
      && ((r.calls[c].Sleeping? || r.load == Loaded) && throws ==> OnlyPhase(r, q, c, Unwinding))
      && ((r.calls[c].Sleeping? || r.load == Loaded) && !throws ==>
            q == r.(calls := r.calls[c := Acquiring(r.pool.nextTicket)], pool := P.Step(r.pool, P.Acquire(c))))
  {
    hide P.DoAcquire;
  }

  /** A granted instance is dispatched to, unless the call was aborted or throws; then it is given back to be closed. */
  lemma Dispatches(r: Runtime, c: nat, t: nat, id: nat, throws: bool, retry: bool)
    requires Inv(r) && Calling(r, c, Acquiring(t)) && id in r.pool.held && r.pool.held[id] == t
    ensures var q := Step(r, Resume(c, id, throws, retry));
      && (c !in r.pool.aborted && !throws ==>
            && Calling(q, c, Racing(t)) && q.dispatches == r.dispatches + [t] && q.pool == r.pool
            && t in q.guests && q.guests[t] == Running(c, id))
      && (c in r.pool.aborted || throws ==>
            && Calling(q, c, Discarding(id)) && q.dispatches == r.dispatches && q.guests == r.guests
            && q.pool.closeCalls == r.pool.closeCalls + multiset{id} && id !in q.pool.held)
  {
    assert P.Core(r.pool) && t in r.pool.granted;
    P.GrantedOnly(r.pool, t);
    A.ReleaseBooks(r.pool, id, t, true);
    GivenUp(r.pool, id, t);
    hide P.DoRelease, Inv, P.Core;
  }

  lemma GivenUp(p: P.Pool, id: nat, t: nat)
    requires P.Core(p) && id in p.held && p.held[id] == t
    ensures id !in P.DoRelease(p, id, t, true).held
  {
    assert id in p.entries;
  }

  /** While it waits for the pool a call goes on only with its answer: rejected, it may be retried as after a throw. */
  lemma WaitsForPool(r: Runtime, c: nat, t: nat, id: nat, throws: bool, retry: bool)
    requires Calling(r, c, Acquiring(t))
    ensures var q := Step(r, Resume(c, id, throws, retry));
      && (t in r.pool.rejected ==> OnlyPhase(r, q, c, if retry && c !in r.pool.aborted then Sleeping else Unwinding))
      && (t !in r.pool.rejected && !(id in r.pool.held && r.pool.held[id] == t) ==> q == r)
  {
    hide P.DoRelease;
  }

  /** The guest's answer decides what becomes of its instance: it goes back to the pool after a valid answer to a call that
      was not aborted, and is closed otherwise. */
  lemma GuestAnswers(r: Runtime, t: nat, valid: bool)
    requires Inv(r) && t in r.guests && r.guests[t].Running?
    ensures var Running(c, id) := r.guests[t]; var q := Step(r, GuestSettles(t, valid));
      && q.calls == r.calls && t in q.guests
      && (valid && c !in r.pool.aborted ==>
            q.guests[t] == Returned && id in q.pool.entries && q.pool.closeCalls == r.pool.closeCalls)
      && (!valid || c in r.pool.aborted ==>
            q.guests[t] == Draining(id) && q.pool.closeCalls == r.pool.closeCalls + multiset{id})
  {
    var Running(c, id) := r.guests[t];
    var discard := c in r.pool.aborted || !valid;
    LeaseHeld(r, t);
    GuestIs(r, t, valid);
    hide Step, Inv, P.DoRelease, P.Inv;
    A.ReleaseBooks(r.pool, id, t, discard);
    if !discard { A.ReadyServes(r.pool, P.Release(id, t, false)); }
    ReleaseIs(r.pool, id, t, discard);
  }

  lemma ReleaseIs(p: P.Pool, id: nat, t: nat, discard: bool)
    ensures P.Step(p, P.Release(id, t, discard)) == P.DoRelease(p, id, t, discard)
  {
    hide P.DoRelease;
  }

  lemma LeaseHeld(r: Runtime, t: nat)
    requires Inv(r) && t in r.guests && r.guests[t].Running?
    ensures r.guests[t].id in r.pool.held && r.pool.held[r.guests[t].id] == t && P.Inv(r.pool) && P.Core(r.pool) && !r.pool.closed
  {
    assert RuntimeModel.Holds(r, t, r.guests[t].call, r.guests[t].id);
    hide P.Bounded, P.Served, P.Fifo, Awaited;
  }

  lemma GuestIs(r: Runtime, t: nat, valid: bool)
    requires t in r.guests && r.guests[t].Running?
    ensures var Running(c, id) := r.guests[t]; var discard := c in r.pool.aborted || !valid;
      Step(r, GuestSettles(t, valid)) ==
        r.(pool := P.DoRelease(r.pool, id, t, discard),
           guests := r.guests[t := if discard || r.pool.closed then Draining(id) else Returned])
  {
    hide P.DoRelease;
  }

  /** A call whose attempt is over waits for its retry when it may, and is not aborted; otherwise it ends. */
  lemma AttemptOver(r: Runtime, c: nat, id: nat, throws: bool, retry: bool)
    requires c in r.calls && (r.calls[c].Racing? || r.calls[c].Discarding? || r.calls[c].Unwinding?)
    ensures var q := Step(r, Resume(c, id, throws, retry)); var next := if retry && c !in r.pool.aborted then Sleeping else Unwinding;
      match r.calls[c]
      case Racing(t) => if t in r.guests then q == r else OnlyPhase(r, q, c, next)
      case Discarding(own) => if own in r.pool.closing then q == r else OnlyPhase(r, q, c, next)
      case _ => q == r.(calls := r.calls - {c})
  {
  }

  /** An abort cuts a call short exactly while it races its signal: at the load, at its guest, and in its retry delay. */
  lemma CutIff(r: Runtime, c: nat)
    ensures var q := Step(r, Cut(c));
      if c in r.calls && c in r.pool.aborted && (r.calls[c].Loading? || r.calls[c].Racing? || r.calls[c].Sleeping?)
      then OnlyPhase(r, q, c, Unwinding) else q == r
  {
  }

  /** A tracked guest is forgotten when it returned its instance, or the instance's close has settled. */
  lemma ForgottenIff(r: Runtime, t: nat)
    ensures var q := Step(r, GuestDone(t));
      if t in r.guests && (r.guests[t] == Returned || (r.guests[t].Draining? && r.guests[t].id !in r.pool.closing))
      then q == r.(guests := r.guests - {t}) else q == r
  {
  }

  function Under(calls: set<nat>, bound: nat): set<nat> { set c | c in calls && c < bound }

  lemma UnderOn(calls: set<nat>, bound: nat)
    ensures Under(calls, 0) == {}
    ensures Under(calls, bound + 1) == Under(calls, bound) + if bound in calls then {bound} else {}
    ensures (forall c | c in calls :: c < bound) ==> Under(calls, bound) == calls
  {
  }

  lemma OneAborted(p: P.Pool, calls: set<nat>, call: nat)
    requires P.Inv(p)
    ensures AbortOne(p, calls, call).aborted == p.aborted + if call in calls then {call} else {}
  {
    P.AbortFrame(p, call);
    hide P.DoAbort;
  }

  lemma {:induction false} AbortedAre(p: P.Pool, calls: set<nat>, bound: nat)
    requires P.Inv(p)
    ensures AbortAll(p, calls, bound).aborted == p.aborted + Under(calls, bound)
  {
    hide *;
    if bound == 0 {
      AbortNone(p, calls);
      UnderOn(calls, 0);
    } else {
      AbortedAre(p, calls, bound - 1);
      AbortAllKeeps(p, calls, bound - 1);
      AbortLast(p, calls, bound);
      OneAborted(AbortAll(p, calls, bound - 1), calls, bound - 1);
      UnderOn(calls, bound - 1);
    }
  }

  /** A caller's abort, or its deadline, fires the signal of its own call, while that is under way. */
  lemma AbortAnswers(r: Runtime, call: nat)
    requires Inv(r)
    ensures var q := Step(r, CallerAborts(call));
      if call in r.calls then q == r.(pool := q.pool) && q.pool.aborted == r.pool.aborted + {call} else q == r
  {
    P.AbortFrame(r.pool, call);
    hide P.DoAbort, Owned, Awaited, Staged;
  }

  /** The first close() aborts every call under way, and no other signal, and waits for them, if any; a second one does
      nothing. */
  lemma CloseAnswers(r: Runtime)
    requires Inv(r)
    ensures var q := Step(r, CloseRuntime);
      && (r.stage != Open ==> q == r)
      && (r.stage == Open ==>
            && q.calls == r.calls && q.guests == r.guests && q.load == r.load && q.dispatches == r.dispatches
            && q.stage == (if r.calls == map[] then WaitLoad else WaitCalls)
            && q.pool.aborted == r.pool.aborted + r.calls.Keys)
  {
    CloseIs(r);
    hide Step, P.Inv, Owned, Awaited, AbortAll;
    assert forall c | c in r.calls.Keys :: c < r.nextCall;
    hide Staged, Under;
    AbortedAre(r.pool, r.calls.Keys, r.nextCall);
    UnderOn(r.calls.Keys, r.nextCall);
  }

  lemma CloseIs(r: Runtime)
    ensures Step(r, CloseRuntime) ==
      if r.stage != Open then r
      else r.(pool := AbortAll(r.pool, r.calls.Keys, r.nextCall), stage := if r.calls == map[] then WaitLoad else WaitCalls)
  {
    hide AbortAll;
  }

  // ---- a call that gets through ----

  /** A lease is free: fewer are out than the pool may have instances, and nobody waits. */
  ghost predicate Free(r: Runtime) {
    r.pool.waiters == [] && r.pool.closing == multiset{} && |r.pool.held| < r.pool.max && !r.pool.closed
  }

  lemma FullMeansHeld(p: P.Pool)
    requires P.Core(p) && (forall id | id in p.entries :: id in p.busy) && p.creating == 0
    ensures |p.entries| <= |p.held|
  {
    AllBusy(p.entries, p.busy, p);
    assert |p.held.Keys| == |p.held|;
  }

  lemma NoneTwice(p: P.Pool, i: int, j: int)
    requires P.Bounded(p) && 0 <= i < j < |p.entries|
    ensures p.entries[i] != p.entries[j]
  {
    var s := p.entries;
    assert s == s[..j] + s[j..];
    assert multiset(s) == multiset(s[..j]) + multiset(s[j..]);
    assert s[..j][i] == s[i] && s[j..][0] == s[j];
    assert multiset(p.created)[s[i]] <= 1;
  }

  lemma AllBusy(entries: seq<nat>, busy: set<nat>, p: P.Pool)
    requires entries == p.entries && P.Bounded(p) && forall id | id in entries :: id in busy
    ensures |entries| <= |busy|
  {
    forall i, j | 0 <= i < j < |entries| ensures entries[i] != entries[j] { NoneTwice(p, i, j); }
    hide P.Bounded;
    DistinctIn(entries, busy);
  }

  lemma {:induction false} DistinctIn(s: seq<nat>, all: set<nat>)
    requires (forall i, j | 0 <= i < j < |s| :: s[i] != s[j]) && forall x | x in s :: x in all
    ensures |s| <= |all|
    decreases |s|
  {
    if s != [] {
      var rest := s[1..];
      assert s[0] !in rest;
      DistinctIn(rest, all - {s[0]});
    }
  }

  lemma GrantedNext(r: Runtime, c: nat, t: nat) returns (more: seq<Event>)
    requires Sound(r) && Calling(r, c, Acquiring(t)) && c !in r.pool.aborted && t in r.pool.granted
    ensures var q := Run(r, more); Calling(q, c, Racing(t)) && t in q.dispatches
  {
    assert Live(r.pool, t);
    var id :| id in r.pool.held && r.pool.held[id] == t;
    Dispatches(r, c, t, id, false, false);
    var e := Resume(c, id, false, false);
    hide Step, Inv, Answered;
    RunOne(r, e);
    more := [e];
    assert t in Step(r, e).dispatches;
  }

  /** A parked caller that is first in the queue gets the next instance that is created. */
  lemma ParkedNext(r: Runtime, c: nat, t: nat) returns (more: seq<Event>)
    requires Sound(r) && Calling(r, c, Acquiring(t)) && c !in r.pool.aborted && !r.pool.closed
    requires r.pool.waiters != [] && r.pool.waiters[0] == t && r.pool.pending != {}
    ensures var q := Run(r, more); Calling(q, c, Racing(t)) && t in q.dispatches
  {
    var id :| id in r.pool.pending;
    var e := PoolEvent(P.CreateOk(id));
    CreationGrants(r, c, t, id);
    StepSound(r, e);
    hide Step, Sound;
    var rest := GrantedNext(Step(r, e), c, t);
    more := [e] + rest;
    RunFirst(r, e, rest);
  }

  lemma CreationGrants(r: Runtime, c: nat, t: nat, id: nat)
    requires Inv(r) && Calling(r, c, Acquiring(t)) && c !in r.pool.aborted && !r.pool.closed
    requires r.pool.waiters != [] && r.pool.waiters[0] == t && id in r.pool.pending
    ensures var q := Step(r, PoolEvent(P.CreateOk(id)));
      Calling(q, c, Acquiring(t)) && c !in q.pool.aborted && t in q.pool.granted
  {
    hide Inv, Step, P.Inv, P.Step, Owned, Awaited, Staged;
    InvParts(r);
    CreationIs(r, id);
    A.ReadyServes(r.pool, P.CreateOk(id));
    CreationAborts(r.pool, id);
  }

  lemma CreationIs(r: Runtime, id: nat)
    ensures Step(r, PoolEvent(P.CreateOk(id))) == r.(pool := P.Step(r.pool, P.CreateOk(id)))
  {
    hide P.Step;
  }

  lemma CreationAborts(p: P.Pool, id: nat)
    requires P.Inv(p)
    ensures P.Step(p, P.CreateOk(id)).aborted == p.aborted
  {
    P.CreateOkFrame(p, id);
    hide P.DoCreateOk, P.Grown, P.Bounded, P.Served, P.Fifo, P.Quiet, P.Winding, P.Listening;
  }

  /** What asking does when a lease is free: it is granted, or is first in the queue with an instance being created. */
  lemma AskFree(r: Runtime, c: nat)
    requires Inv(r) && Free(r) && c !in r.pool.aborted
    ensures var t, p := r.pool.nextTicket, P.DoAcquire(r.pool, c);
      && !p.closed && p.aborted == r.pool.aborted
      && (t in p.granted || (p.waiters != [] && p.waiters[0] == t && p.pending != {}))
  {
    var t, p := r.pool.nextTicket, P.DoAcquire(r.pool, c);
    A.AcquireAdmits(r.pool, c);
    P.AcquireFrame(r.pool, c);
    P.AcquireKeeps(r.pool, c);
    assert P.Step(r.pool, P.Acquire(c)) == p;
    assert P.Core(r.pool) && P.Core(p) && P.Bounded(p);
    if t !in p.granted {
      assert t in p.waiters;
      assert p.waiters[0] == t by { assert p.waiters[0] in r.pool.waiters + [t]; }
      if p.creating == 0 {
        NobodyNew(r.pool, c);
        FullMeansHeld(p);
        assert false;
      }
      assert |p.pending| > 0;
    }
  }

  lemma SameLeases(held: map<nat, nat>, after: map<nat, nat>, t: nat)
    requires forall id | id in held :: id in after && after[id] == held[id]
    requires forall id | id in after && id !in held :: after[id] == t
    requires forall id | id in after :: after[id] != t
    ensures after == held
  {
  }

  lemma NobodyNew(p: P.Pool, s: nat)
    requires P.Inv(p) && p.waiters == [] && p.nextTicket !in P.DoAcquire(p, s).granted
    ensures P.DoAcquire(p, s).held == p.held && P.DoAcquire(p, s).max == p.max
  {
    var q := P.DoAcquire(p, s);
    P.AcquireFrame(p, s);
    P.AcquireKeeps(p, s);
    assert P.Core(q) && P.Leased(q);
    hide P.DoAcquire, P.Bounded, P.Served, P.Fifo, P.Quiet, P.Winding, P.Listening, P.Closing, P.Inv, P.Core;
    SameLeases(p.held, q.held, p.nextTicket);
  }

  /** Whatever happened before, a call of an open runtime whose load succeeds, that is not aborted and finds a lease free,
      gets its component dispatch. */
  lemma CallDispatches(poolSize: nat, events: seq<Event>, c: nat) returns (more: seq<Event>)
    requires var r := Run(Initial(poolSize), events);
      r.stage == Open && (r.load == InFlight || r.load == Loaded) && Calling(r, c, Loading) && c !in r.pool.aborted && Free(r)
    ensures var r := Run(Initial(poolSize), events); var q := Run(r, more);
      Calling(q, c, Racing(r.pool.nextTicket)) && r.pool.nextTicket in q.dispatches
  {
    var r := Run(Initial(poolSize), events);
    InitialSound(poolSize);
    RunSound(Initial(poolSize), events);
    hide Step, Sound, Free;
    if r.load == Loaded {
      more := LoadedDispatches(r, c);
    } else {
      var e := LoadSettles(true);
      StepSound(r, e);
      LoadAnswers(r, true);
      FreeIs(r, Step(r, e));
      var rest := LoadedDispatches(Step(r, e), c);
      more := [e] + rest;
      RunFirst(r, e, rest);
    }
  }

  lemma FreeIs(r: Runtime, q: Runtime)
    requires q.pool == r.pool
    ensures Free(q) <==> Free(r)
  {
  }

  lemma LoadedDispatches(r: Runtime, c: nat) returns (more: seq<Event>)
    requires Sound(r) && r.load == Loaded && Calling(r, c, Loading) && c !in r.pool.aborted && Free(r)
    ensures var q := Run(r, more); Calling(q, c, Racing(r.pool.nextTicket)) && r.pool.nextTicket in q.dispatches
  {
    var e, t := Resume(c, 0, false, false), r.pool.nextTicket;
    var q := Step(r, e);
    AsksPool(r, c, 0, false, false);
    AskFree(r, c);
    assert q.pool == P.DoAcquire(r.pool, c) && Calling(q, c, Acquiring(t));
    StepSound(r, e);
    hide Step, Sound, Free, P.DoAcquire;
    var rest: seq<Event>;
    if t in q.pool.granted { rest := GrantedNext(q, c, t); } else { rest := ParkedNext(q, c, t); }
    more := [e] + rest;
    RunFirst(r, e, rest);
  }
}
