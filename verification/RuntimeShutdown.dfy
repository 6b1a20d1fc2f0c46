/** Calls, guest executions and the two-layer shutdown of the runtime in wasm/runtime.ts, on top of its pool. */
module RuntimeModel {
  import opened Common
  import P = PoolModel

  /** A JavaScript number, as far as requireFinite tells them apart. */
  datatype Number = NaN | Infinite(positive: bool) | Finite(value: real)

  /** The deadline options of one call; a Date stands for its time value. */
  datatype CallOptions = CallOptions(timeoutMs: Option<Number>, deadline: Option<Number>)

  /** What requireFinite(_, _, 0) lets through. */
  predicate Acceptable(x: Number) { x.Finite? && x.value >= 0.0 }

  /** A caller can tell beforehand: an option that is there is not a finite number of at least zero. */
  predicate Refused(o: CallOptions) {
    (o.timeoutMs.Some? && !Acceptable(o.timeoutMs.value)) || (o.deadline.Some? && !Acceptable(o.deadline.value))
  }

  datatype RangeError = RangeError(option: string)

  /** resolveDeadline; the constructor of the runtime has checked the default. */
  function ResolveDeadline(o: CallOptions, defaultTimeoutMs: Option<Number>, now: real): Result<Option<int>, RangeError>
    requires defaultTimeoutMs.Some? ==> Acceptable(defaultTimeoutMs.value)
  {
    var relative := if o.timeoutMs.Some? then o.timeoutMs else defaultTimeoutMs;
    if relative.Some? && !Acceptable(relative.value) then Err(RangeError("timeoutMs")) else
    var deadline := if relative.Some? then Some((now + relative.value.value).Floor) else None;
    if o.deadline == None then Ok(deadline)
    else if !Acceptable(o.deadline.value) then Err(RangeError("deadline"))
    else
      var normalized := o.deadline.value.value.Floor;
      Ok(Some(if deadline == None || normalized < deadline.value then normalized else deadline.value))
  }

  /** It throws exactly for refused options, whatever the clock and the default; otherwise the earlier limit counts. */
  lemma DeadlineRefusedIff(o: CallOptions, defaultTimeoutMs: Option<Number>, now: real)
    requires defaultTimeoutMs.Some? ==> Acceptable(defaultTimeoutMs.value)
    ensures Refused(o) <==>
      (o.timeoutMs.Some? && !(o.timeoutMs.value.Finite? && o.timeoutMs.value.value >= 0.0)) ||
      (o.deadline.Some? && !(o.deadline.value.Finite? && o.deadline.value.value >= 0.0))
    ensures var r := ResolveDeadline(o, defaultTimeoutMs, now); var relative := if o.timeoutMs.Some? then o.timeoutMs else defaultTimeoutMs;
      && (r.Err? <==> Refused(o))
      && (r.Ok? && r.value.Some? ==>
            || (relative.Some? && r.value.value == (now + relative.value.value).Floor)
            || (o.deadline.Some? && r.value.value == o.deadline.value.value.Floor))
      && (r.Ok? && o.deadline.Some? ==> r.value.Some? && r.value.value as real <= o.deadline.value.value)
      && (r.Ok? && o.timeoutMs.Some? ==> r.value.Some? && r.value.value as real <= now + o.timeoutMs.value.value)
      && (r.Ok? ==> (r.value == None <==> o.timeoutMs == None && o.deadline == None && defaultTimeoutMs == None))
  {
  }

  /** Where a call of invoke() is suspended. */
  datatype Phase =
    | Loading                     // raced against the bundle load
    | Acquiring(ticket: nat)      // awaiting the pool
    | Discarding(id: nat)         // awaiting its own lease.release(true)
    | Racing(ticket: nat)         // raced against the guest's settled promise
    | Sleeping                    // raced against the retry delay
    | Unwinding                   // its outcome is known; the finally block has not run
    | Leaked                      // counted, but its options were refused before the try block: nothing ever uncounts it

  /** A tracked background promise: a dispatched guest, until its lease is released and the promise settles. */
  datatype Guest = Running(call: nat, id: nat) | Draining(id: nat) | Returned

  datatype Load = NotStarted | InFlight | Loaded | Failed

  datatype Stage = Open | WaitCalls | WaitLoad | WaitBackground(snapshot: set<nat>) | PoolClosing | Done

  /** `pool` is used once the load succeeded; before, it only records which abort signals fired. A call's
      signal carries the number of the call. */
  datatype Runtime = Runtime(
    load: Load, pool: P.Pool, calls: map<nat, Phase>, nextCall: nat,
    guests: map<nat, Guest>, dispatches: seq<nat>, stage: Stage)

  datatype Event =
    | Invoke(options: CallOptions)
    | LoadSettles(ok: bool)
    | CallerAborts(call: nat)                                   // cancellation or deadline
    | Cut(call: nat)                                            // the race is lost to the abort signal
    | Resume(call: nat, id: nat, throws: bool, retry: bool)     // the awaited promise settled
    | GuestSettles(ticket: nat, valid: bool)                    // the guest answered: validly, or not at all
    | GuestDone(ticket: nat)
    | PoolEvent(event: P.Event)
    | CloseRuntime
    | Advance

  function Initial(poolSize: nat): Runtime {
    Runtime(NotStarted, P.Initial(poolSize), map[], 0, map[], [], Open)
  }

  function StartAttempt(r: Runtime, call: nat): Runtime {
    r.(pool := P.DoAcquire(r.pool, call), calls := r.calls[call := Acquiring(r.pool.nextTicket)])
  }

  /** An attempt threw, or answered: a guest error may be retried, also one thrown by the factory or by an instance's
      close; an aborted call never is. */
  function AfterThrow(r: Runtime, call: nat, retry: bool): Phase {
    if retry && call !in r.pool.aborted then Sleeping else Unwinding
  }

  function DoResume(r: Runtime, call: nat, id: nat, throws: bool, retry: bool): Runtime
    requires call in r.calls
  {
    match r.calls[call]
    case Loading =>
      // the operation may be undeclared, or the request rejected
      if r.load == Loaded then (if throws then r.(calls := r.calls[call := Unwinding]) else StartAttempt(r, call))
      else if r.load == Failed then r.(calls := r.calls[call := Unwinding]) else r
    case Acquiring(t) =>
      if t in r.pool.rejected then r.(calls := r.calls[call := AfterThrow(r, call, retry)])
      else if !(id in r.pool.held && r.pool.held[id] == t) then r
      else if call in r.pool.aborted || throws then
        r.(pool := P.DoRelease(r.pool, id, t, true), calls := r.calls[call := Discarding(id)])
      else
        r.(guests := r.guests[t := Running(call, id)], calls := r.calls[call := Racing(t)],
           dispatches := r.dispatches + [t])
    case Discarding(own) => if r.pool.closing[own] == 0 then r.(calls := r.calls[call := AfterThrow(r, call, retry)]) else r
    case Racing(t) => if t in r.guests then r else r.(calls := r.calls[call := AfterThrow(r, call, retry)])
    case Sleeping => if throws then r.(calls := r.calls[call := Unwinding]) else StartAttempt(r, call)
    case Unwinding => r.(calls := r.calls - {call})
    case Leaked => r
  }

  function DoGuestSettles(r: Runtime, ticket: nat, valid: bool): Runtime
    requires ticket in r.guests && r.guests[ticket].Running?
  {
    var Running(call, id) := r.guests[ticket];
    var discard := call in r.pool.aborted || !valid;
    r.(pool := P.DoRelease(r.pool, id, ticket, discard),
       guests := r.guests[ticket := if discard || r.pool.closed then Draining(id) else Returned])
  }

  /** The shutdown signal aborts the scope of every live call, in the order the scopes were created. */
  function AbortAll(p: P.Pool, calls: set<nat>, bound: nat): P.Pool {
    if bound == 0 then p else
    AbortOne(AbortAll(p, calls, bound - 1), calls, bound - 1)
  }

  function AbortOne(p: P.Pool, calls: set<nat>, call: nat): P.Pool {
    if call in calls then P.DoAbort(p, call) else p
  }

  function DoAdvance(r: Runtime): Runtime {
    match r.stage
    case Open => r
    case WaitCalls => if r.calls == map[] then r.(stage := WaitLoad) else r
    case WaitLoad => if r.load != InFlight then r.(stage := WaitBackground(r.guests.Keys)) else r
    case WaitBackground(snapshot) =>
      if snapshot !! r.guests.Keys
        then r.(stage := PoolClosing, pool := if r.load == Loaded then P.DoClose(r.pool) else r.pool)
        else r
    case PoolClosing => if r.load != Loaded || r.pool.outcome != P.Unsettled then r.(stage := Done) else r
    case Done => r
  }

  function Step(r: Runtime, e: Event): Runtime {
    match e
    case Invoke(options) =>
      if r.stage != Open then r else     // closed: not even counted
      r.(calls := r.calls[r.nextCall := if Refused(options) then Leaked else Loading], nextCall := r.nextCall + 1,
         load := if r.load == NotStarted && !Refused(options) then InFlight else r.load)
    case LoadSettles(ok) =>
      if r.load != InFlight then r else r.(load := if ok && r.stage == Open then Loaded else Failed)
    case CallerAborts(call) => if call in r.calls then r.(pool := P.DoAbort(r.pool, call)) else r
    case Cut(call) =>
      if call in r.calls && call in r.pool.aborted
         && (r.calls[call].Loading? || r.calls[call].Racing? || r.calls[call].Sleeping?)
        then r.(calls := r.calls[call := Unwinding])
        else r
    case Resume(call, id, throws, retry) => if call in r.calls then DoResume(r, call, id, throws, retry) else r
    case GuestSettles(t, valid) => if t in r.guests && r.guests[t].Running? then DoGuestSettles(r, t, valid) else r
    case GuestDone(t) =>
      if t in r.guests && (r.guests[t].Returned? || (r.guests[t].Draining? && r.pool.closing[r.guests[t].id] == 0))
        then r.(guests := r.guests - {t})
        else r
    case PoolEvent(event) =>
      if P.Environment(event) then r.(pool := P.Step(r.pool, event)) else r
    case CloseRuntime =>
      if r.stage != Open then r else
      r.(pool := AbortAll(r.pool, r.calls.Keys, r.nextCall), stage := if r.calls == map[] then WaitLoad else WaitCalls)
    case Advance => DoAdvance(r)
  }

  function Run(r: Runtime, events: seq<Event>): Runtime
    decreases |events|
  {
    if events == [] then r else Step(Run(r, events[..|events| - 1]), events[|events| - 1])
  }

  // ---- what every step keeps ----

  /** Every lease is owned by a call that has not seen it yet, or by the running guest it was dispatched to. */
  ghost predicate Owned(r: Runtime) {
    && (forall id | id in r.pool.held :: Owner(r, id, r.pool.held[id]))
    && (forall t | t in r.guests && r.guests[t].Running? :: Holds(r, t, r.guests[t].call, r.guests[t].id))
    && (forall t | t in r.guests :: t in r.pool.signalOf && !Waits(r, t))
    && (forall t | t in r.pool.waiters :: Waits(r, t))
    && (forall c | c in r.calls && r.calls[c].Acquiring? :: Asked(r, r.calls[c].ticket, c))
  }

  ghost predicate Asked(r: Runtime, t: nat, c: nat) { t in r.pool.signalOf && r.pool.signalOf[t] == c }

  ghost predicate Waits(r: Runtime, t: nat) {
    t in r.pool.signalOf && r.pool.signalOf[t] in r.calls && r.calls[r.pool.signalOf[t]] == Acquiring(t)
  }

  ghost predicate Owner(r: Runtime, id: nat, t: nat) {
    Waits(r, t) || (t in r.guests && r.guests[t].Running? && r.guests[t].id == id)
  }

  ghost predicate Holds(r: Runtime, t: nat, call: nat, id: nat) {
    && id in r.pool.held && r.pool.held[id] == t
    && t in r.pool.signalOf && r.pool.signalOf[t] == call
    && t in r.dispatches
  }

  /** While the pool is open, someone awaits every close in progress. */
  ghost predicate Awaited(r: Runtime) {
    !r.pool.closed ==> forall id | id in r.pool.closing :: AwaitedBy(r, id)
  }

  ghost predicate AwaitedBy(r: Runtime, id: nat) {
    || (exists c :: c in r.calls && r.calls[c] == Discarding(id))
    || (exists t :: t in r.guests && r.guests[t] == Draining(id))
  }

  ghost predicate Staged(r: Runtime) {
    && (forall c | c in r.calls :: c < r.nextCall)
    && (r.stage != Open ==> forall c | c in r.calls :: c in r.pool.aborted)
    && (r.stage != Open && r.stage != WaitCalls ==> r.calls == map[])
    && (r.stage.WaitBackground? ==> r.guests.Keys <= r.stage.snapshot && r.load != InFlight)
    && (r.stage.PoolClosing? || r.stage.Done? ==> r.guests == map[] && r.load != InFlight)
    && (r.pool.closed <==> r.load == Loaded && (r.stage.PoolClosing? || r.stage.Done?))
    && (r.stage.Done? && r.load == Loaded ==> r.pool.outcome != P.Unsettled)
  }

  ghost predicate Inv(r: Runtime) { P.Inv(r.pool) && Owned(r) && Awaited(r) && Staged(r) }

  /** A pool event that hands out leases only to parked callers, and starts no close while the pool is open. */
  lemma PoolMoves(r: Runtime, p: P.Pool)
    requires Owned(r) && Awaited(r) && P.Grown(r.pool, p)
    requires !p.closed ==> forall id | id in p.closing :: id in r.pool.closing
    ensures Owned(r.(pool := p)) && Awaited(r.(pool := p))
  {
    var q := r.(pool := p);
    assert forall t :: Waits(q, t) <==> Waits(r, t);
    assert forall t, c :: Asked(q, t, c) <==> Asked(r, t, c);
    forall id | id in p.held ensures Owner(q, id, p.held[id]) {
      if id in r.pool.held { assert Owner(r, id, r.pool.held[id]); }
    }
    forall t | t in q.guests && q.guests[t].Running? ensures Holds(q, t, q.guests[t].call, q.guests[t].id) {
      assert Holds(r, t, r.guests[t].call, r.guests[t].id);
    }
    forall id | id in p.closing && !p.closed ensures AwaitedBy(q, id) { assert AwaitedBy(r, id); }
  }

  lemma PhaseMoves(r: Runtime, call: nat, phase: Phase)
    requires Owned(r) && Awaited(r) && call in r.calls && !phase.Acquiring?
    requires r.calls[call].Acquiring? ==> r.calls[call].ticket in r.pool.rejected
    requires r.calls[call].Discarding? ==> r.calls[call].id !in r.pool.closing
    requires P.Served(r.pool) && P.Leased(r.pool)
    ensures Owned(r.(calls := r.calls[call := phase])) && Awaited(r.(calls := r.calls[call := phase]))
  {
    var q := r.(calls := r.calls[call := phase]);
    forall t | Waits(r, t) && (t in r.pool.waiters || t in r.pool.granted) ensures Waits(q, t) {
      if t in r.pool.rejected { P.RejectedOnly(r.pool, t); }
    }
    assert forall t | Waits(q, t) :: Waits(r, t);
    assert forall t, c :: Asked(q, t, c) <==> Asked(r, t, c);
    forall id | id in q.pool.held ensures Owner(q, id, q.pool.held[id]) {
      assert Owner(r, id, r.pool.held[id]);
    }
    forall t | t in q.guests && q.guests[t].Running? ensures Holds(q, t, q.guests[t].call, q.guests[t].id) {
      assert Holds(r, t, r.guests[t].call, r.guests[t].id);
    }
    forall id | id in q.pool.closing && !q.pool.closed ensures AwaitedBy(q, id) {
      assert AwaitedBy(r, id);
      if c :| c in r.calls && r.calls[c] == Discarding(id) { assert q.calls[c] == Discarding(id); }
    }
  }

  lemma AttemptMoves(r: Runtime, call: nat)
    requires Inv(r) && call in r.calls && (r.calls[call].Loading? || r.calls[call].Sleeping?)
    ensures Owned(StartAttempt(r, call)) && Awaited(StartAttempt(r, call))
  {
    var t, p := r.pool.nextTicket, P.DoAcquire(r.pool, call);
    P.NewTicket(r.pool);
    P.AcquireFrame(r.pool, call);
    var parked := r.(calls := r.calls[call := Acquiring(t)], pool := r.pool.(
      signalOf := r.pool.signalOf[t := call],
      waiters := if r.pool.closed || call in r.pool.aborted then r.pool.waiters else r.pool.waiters + [t]));
    assert Owned(parked) && Awaited(parked) by { Parked(r, call, parked); }
    PoolMoves(parked, p);
  }

  lemma Parked(r: Runtime, call: nat, q: Runtime)
    requires Owned(r) && Awaited(r) && call in r.calls && (r.calls[call].Loading? || r.calls[call].Sleeping?)
    requires r.pool.nextTicket !in r.pool.signalOf
    requires var t := r.pool.nextTicket;
      q == r.(calls := r.calls[call := Acquiring(t)], pool := r.pool.(
        signalOf := r.pool.signalOf[t := call],
        waiters := if r.pool.closed || call in r.pool.aborted then r.pool.waiters else r.pool.waiters + [t]))
    ensures Owned(q) && Awaited(q)
  {
    var t := r.pool.nextTicket;
    assert Waits(q, t);
    assert forall u | u != t :: Waits(r, u) ==> Waits(q, u);
    assert forall u | Waits(q, u) :: u == t || Waits(r, u);
    assert t !in r.guests && forall u, c | Asked(r, u, c) :: Asked(q, u, c);
    forall id | id in q.pool.held ensures Owner(q, id, q.pool.held[id]) {
      assert Owner(r, id, r.pool.held[id]);
    }
    forall u | u in q.guests && q.guests[u].Running? ensures Holds(q, u, q.guests[u].call, q.guests[u].id) {
      assert Holds(r, u, r.guests[u].call, r.guests[u].id);
    }
    forall id | id in q.pool.closing && !q.pool.closed ensures AwaitedBy(q, id) {
      assert AwaitedBy(r, id);
      if c :| c in r.calls && r.calls[c] == Discarding(id) { assert q.calls[c] == Discarding(id); }
    }
  }

  /** The call drops the lease it was granted: it was aborted, or its dispatch threw. */
  /** A call gives back the lease of its own ticket and awaits the close. */
  lemma Dropped(r: Runtime, call: nat, t: nat, id: nat, p: P.Pool)
    requires Owned(r) && Awaited(r) && call in r.calls && r.calls[call] == Acquiring(t)
    requires t !in p.waiters && id in r.pool.held && r.pool.held[id] == t
    requires forall other | other in r.pool.held && other != id :: r.pool.held[other] != t
    requires p.waiters == r.pool.waiters && p.held == r.pool.held - {id} && p.signalOf == r.pool.signalOf
    requires p.closed == r.pool.closed && p.closing == r.pool.closing + multiset{id}
    ensures var q := r.(pool := p, calls := r.calls[call := Discarding(id)]); Owned(q) && Awaited(q)
  {
    var q := r.(pool := p, calls := r.calls[call := Discarding(id)]);
    assert Asked(r, t, call) && Waits(r, t);
    assert forall u | u != t :: Waits(r, u) ==> Waits(q, u);
    assert forall u | Waits(q, u) :: Waits(r, u);
    assert forall u, c :: Asked(q, u, c) <==> Asked(r, u, c);
    forall other | other in p.held ensures Owner(q, other, p.held[other]) {
      assert Owner(r, other, r.pool.held[other]);
    }
    forall u | u in q.guests && q.guests[u].Running? ensures Holds(q, u, q.guests[u].call, q.guests[u].id) {
      assert Holds(r, u, r.guests[u].call, r.guests[u].id);
    }
    forall x | x in p.closing && !p.closed ensures AwaitedBy(q, x) {
      if x == id { assert q.calls[call] == Discarding(id); }
      else {
        assert AwaitedBy(r, x);
        if c :| c in r.calls && r.calls[c] == Discarding(x) { assert q.calls[c] == Discarding(x); }
      }
    }
  }

  lemma DropMoves(r: Runtime, call: nat, id: nat)
    requires Inv(r) && call in r.calls && r.calls[call].Acquiring?
    requires id in r.pool.held && r.pool.held[id] == r.calls[call].ticket
    ensures var t := r.calls[call].ticket;
      var q := r.(pool := P.DoRelease(r.pool, id, t, true), calls := r.calls[call := Discarding(id)]);
      Owned(q) && Awaited(q)
  {
    var t := r.calls[call].ticket;
    P.GrantedOnly(r.pool, t);
    P.ReleaseFrame(r.pool, id, t, true);
    Dropped(r, call, t, id, P.DoRelease(r.pool, id, t, true));
    hide Owned, Awaited, Staged;
  }

  lemma DispatchMoves(r: Runtime, call: nat, id: nat)
    requires Inv(r) && call in r.calls && r.calls[call].Acquiring?
    requires id in r.pool.held && r.pool.held[id] == r.calls[call].ticket
    ensures var t := r.calls[call].ticket;
      var q := r.(guests := r.guests[t := Running(call, id)], calls := r.calls[call := Racing(t)],
                  dispatches := r.dispatches + [t]);
      Owned(q) && Awaited(q)
  {
    var t := r.calls[call].ticket;
    var q := r.(guests := r.guests[t := Running(call, id)], calls := r.calls[call := Racing(t)],
                dispatches := r.dispatches + [t]);
    P.GrantedOnly(r.pool, t);
    assert Asked(r, t, call) && Waits(r, t);
    assert forall u | u != t :: Waits(r, u) ==> Waits(q, u);
    assert forall u | Waits(q, u) :: Waits(r, u);
    assert forall u, c :: Asked(q, u, c) <==> Asked(r, u, c);
    forall other | other in q.pool.held ensures Owner(q, other, q.pool.held[other]) {
      assert Owner(r, other, r.pool.held[other]);
    }
    forall u | u in q.guests && q.guests[u].Running? ensures Holds(q, u, q.guests[u].call, q.guests[u].id) {
      if u != t { assert Holds(r, u, r.guests[u].call, r.guests[u].id); }
    }
    forall x | x in q.pool.closing && !q.pool.closed ensures AwaitedBy(q, x) {
      assert AwaitedBy(r, x);
      if c :| c in r.calls && r.calls[c] == Discarding(x) { assert q.calls[c] == Discarding(x); }
      else { var u :| u in r.guests && r.guests[u] == Draining(x); assert q.guests[u] == Draining(x); }
    }
  }

  /** Guests and finished calls change nothing for waiting callers. */
  lemma GuestMoves(r: Runtime, t: nat, guests: map<nat, Guest>, p: P.Pool)
    requires Owned(r) && Awaited(r) && t in r.guests && P.Leased(r.pool)
    requires forall u | u != t :: u in guests <==> u in r.guests
    requires forall u | u != t && u in guests :: guests[u] == r.guests[u]
    requires t in guests ==> !guests[t].Running?
    requires p.held.Keys <= r.pool.held.Keys && p.waiters == r.pool.waiters && p.signalOf == r.pool.signalOf
    requires forall id | id in p.held :: p.held[id] == r.pool.held[id]
    requires forall id | id in r.pool.held :: id in p.held <==> !(r.guests[t].Running? && id == r.guests[t].id)
    requires !p.closed ==> forall id | id in p.closing && !(t in guests && guests[t] == Draining(id)) ::
               id in r.pool.closing && r.guests[t] != Draining(id) && !r.pool.closed
    ensures Owned(r.(guests := guests, pool := p)) && Awaited(r.(guests := guests, pool := p))
  {
    var q := r.(guests := guests, pool := p);
    assert forall u :: Waits(q, u) <==> Waits(r, u);
    assert forall u, c :: Asked(q, u, c) <==> Asked(r, u, c);
    if r.guests[t].Running? { assert Holds(r, t, r.guests[t].call, r.guests[t].id); }
    forall id | id in p.held ensures Owner(q, id, p.held[id]) { assert Owner(r, id, r.pool.held[id]); }
    forall u | u in guests && guests[u].Running? ensures Holds(q, u, guests[u].call, guests[u].id) {
      assert Holds(r, u, r.guests[u].call, r.guests[u].id);
    }
    forall id | id in p.closing && !p.closed ensures AwaitedBy(q, id) {
      if t in guests && guests[t] == Draining(id) {
      } else {
        assert AwaitedBy(r, id);
        if u :| u in r.guests && r.guests[u] == Draining(id) { assert u != t && q.guests[u] == Draining(id); }
      }
    }
  }

  lemma SettlesMoves(r: Runtime, t: nat, valid: bool)
    requires Inv(r) && t in r.guests && r.guests[t].Running?
    ensures Owned(DoGuestSettles(r, t, valid)) && Awaited(DoGuestSettles(r, t, valid))
  {
    var Running(call, id) := r.guests[t];
    assert Holds(r, t, call, id);
    var discard := call in r.pool.aborted || !valid;
    P.ReleaseFrame(r.pool, id, t, discard);
    var p := P.DoRelease(r.pool, id, t, discard);
    var guests := r.guests[t := if discard || r.pool.closed then Draining(id) else Returned];
    var mid := r.pool.(held := r.pool.held - {id}, closing := p.closing);
    GuestMoves(r, t, guests, mid);
    PoolMoves(r.(guests := guests, pool := mid), p);
  }

  lemma DoneMoves(r: Runtime, t: nat)
    requires Inv(r) && t in r.guests
    requires r.guests[t].Returned? || (r.guests[t].Draining? && r.guests[t].id !in r.pool.closing)
    ensures Owned(r.(guests := r.guests - {t})) && Awaited(r.(guests := r.guests - {t}))
  {
    GuestMoves(r, t, r.guests - {t}, r.pool);
  }

  lemma CallsMove(r: Runtime, calls: map<nat, Phase>)
    requires Owned(r) && Awaited(r)
    requires forall c | c in r.calls && (r.calls[c].Acquiring? || r.calls[c].Discarding?) :: c in calls && calls[c] == r.calls[c]
    requires forall c | c in calls && calls[c].Acquiring? :: c in r.calls && calls[c] == r.calls[c]
    ensures Owned(r.(calls := calls)) && Awaited(r.(calls := calls))
  {
    var q := r.(calls := calls);
    assert forall u :: Waits(q, u) <==> Waits(r, u);
    assert forall u, c :: Asked(q, u, c) <==> Asked(r, u, c);
    forall id | id in q.pool.held ensures Owner(q, id, q.pool.held[id]) { assert Owner(r, id, r.pool.held[id]); }
    forall u | u in q.guests && q.guests[u].Running? ensures Holds(q, u, q.guests[u].call, q.guests[u].id) {
      assert Holds(r, u, r.guests[u].call, r.guests[u].id);
    }
    forall id | id in q.pool.closing && !q.pool.closed ensures AwaitedBy(q, id) {
      assert AwaitedBy(r, id);
      if c :| c in r.calls && r.calls[c] == Discarding(id) { assert q.calls[c] == Discarding(id); }
    }
  }

  lemma {:induction false} AbortAllKeeps(p: P.Pool, calls: set<nat>, bound: nat)
    requires P.Inv(p)
    ensures P.Inv(AbortAll(p, calls, bound))
  {
    hide P.Inv, AbortOne;
    if bound > 0 {
      AbortAllKeeps(p, calls, bound - 1);
      var q := AbortAll(p, calls, bound - 1);
      AbortOneKeeps(q, calls, bound - 1);
      assert AbortAll(p, calls, bound) == AbortOne(q, calls, bound - 1);
    }
  }

  lemma AbortOneKeeps(p: P.Pool, calls: set<nat>, call: nat)
    requires P.Inv(p)
    ensures P.Inv(AbortOne(p, calls, call))
  {
    P.AbortKeeps(p, call);
  }

  /** Every live call's signal fires, no lease is lost, no instance is closed. */
  lemma {:induction false} AbortAllFrame(p: P.Pool, calls: set<nat>, bound: nat)
    requires P.Inv(p)
    ensures var q := AbortAll(p, calls, bound);
      && P.Grown(p, q) && q.closing == p.closing && q.outcome == p.outcome
      && p.aborted <= q.aborted && (forall c | c in calls && c < bound :: c in q.aborted)
  {
    hide *;
    if bound > 0 {
      AbortAllFrame(p, calls, bound - 1);
      AbortAllKeeps(p, calls, bound - 1);
      var q := AbortAll(p, calls, bound - 1);
      AbortOneFrame(q, calls, bound - 1);
      P.GrownOn(p, q, AbortOne(q, calls, bound - 1));
      AbortLast(p, calls, bound);
    } else {
      AbortNone(p, calls);
    }
  }

  lemma AbortLast(p: P.Pool, calls: set<nat>, bound: nat)
    requires bound > 0
    ensures AbortAll(p, calls, bound) == AbortOne(AbortAll(p, calls, bound - 1), calls, bound - 1)
  {
    hide AbortOne;
  }

  lemma AbortNone(p: P.Pool, calls: set<nat>)
    ensures AbortAll(p, calls, 0) == p && P.Grown(p, p)
  {
  }

  lemma AbortOneFrame(p: P.Pool, calls: set<nat>, call: nat)
    requires P.Inv(p)
    ensures var q := AbortOne(p, calls, call);
      && P.Grown(p, q) && q.closing == p.closing && q.outcome == p.outcome
      && p.aborted <= q.aborted && (call in calls ==> call in q.aborted)
  {
    P.AbortFrame(p, call);
  }

  lemma AttemptKeeps(r: Runtime, call: nat)
    requires Inv(r) && call in r.calls && (r.calls[call].Loading? || r.calls[call].Sleeping?)
    ensures Inv(StartAttempt(r, call))
  {
    AttemptMoves(r, call);
    P.AcquireKeeps(r.pool, call);
    P.AcquireFrame(r.pool, call);
    hide Owned, Awaited, P.Inv, P.DoAcquire;
  }

  lemma DropKeeps(r: Runtime, call: nat, id: nat)
    requires Inv(r) && call in r.calls && r.calls[call].Acquiring?
    requires id in r.pool.held && r.pool.held[id] == r.calls[call].ticket
    ensures Inv(r.(pool := P.DoRelease(r.pool, id, r.calls[call].ticket, true), calls := r.calls[call := Discarding(id)]))
  {
    DropMoves(r, call, id);
    P.ReleaseKeeps(r.pool, id, r.calls[call].ticket, true);
    P.ReleaseFrame(r.pool, id, r.calls[call].ticket, true);
    hide Owned, Awaited, P.Inv, P.DoRelease;
  }

  lemma PhaseKeeps(r: Runtime, call: nat, phase: Phase)
    requires Inv(r) && call in r.calls && !phase.Acquiring?
    requires r.calls[call].Acquiring? ==> r.calls[call].ticket in r.pool.rejected
    requires r.calls[call].Discarding? ==> r.calls[call].id !in r.pool.closing
    ensures Inv(r.(calls := r.calls[call := phase]))
  {
    PhaseMoves(r, call, phase);
    hide Owned, Awaited, P.Inv;
  }

  lemma EndKeeps(r: Runtime, call: nat)
    requires Inv(r) && call in r.calls && r.calls[call] == Unwinding
    ensures Inv(r.(calls := r.calls - {call}))
  {
    CallsMove(r, r.calls - {call});
    hide Owned, Awaited, P.Inv;
  }

  lemma DispatchKeeps(r: Runtime, call: nat, id: nat)
    requires Inv(r) && call in r.calls && r.calls[call].Acquiring? && call !in r.pool.aborted
    requires id in r.pool.held && r.pool.held[id] == r.calls[call].ticket && r.calls[call].ticket !in r.pool.rejected
    ensures Inv(DoResume(r, call, id, false, false))
  {
    DispatchMoves(r, call, id);
    hide Owned, Awaited, P.Inv;
  }

  lemma ResumeKeeps(r: Runtime, call: nat, id: nat, throws: bool, retry: bool)
    requires Inv(r) && call in r.calls
    ensures Inv(DoResume(r, call, id, throws, retry))
  {
    hide Inv, StartAttempt, P.DoRelease, P.DoAcquire;
    match r.calls[call]
    case Loading =>
      if r.load == Loaded && !throws { AttemptKeeps(r, call); }
      else if r.load == Loaded || r.load == Failed { PhaseKeeps(r, call, Unwinding); }
    case Acquiring(t) =>
      if t in r.pool.rejected {
        PhaseKeeps(r, call, AfterThrow(r, call, retry));
      } else if id in r.pool.held && r.pool.held[id] == t {
        if call in r.pool.aborted || throws { DropKeeps(r, call, id); } else { DispatchKeeps(r, call, id); }
      }
    case Discarding(own) => if r.pool.closing[own] == 0 { PhaseKeeps(r, call, AfterThrow(r, call, retry)); }
    case Racing(t) => if t !in r.guests { PhaseKeeps(r, call, AfterThrow(r, call, retry)); }
    case Sleeping => if throws { PhaseKeeps(r, call, Unwinding); } else { AttemptKeeps(r, call); }
    case Unwinding => EndKeeps(r, call);
    case Leaked =>
  }

  lemma PoolKeeps(r: Runtime, p: P.Pool)
    requires Inv(r) && P.Inv(p) && P.Grown(r.pool, p)
    requires !p.closed ==> forall id | id in p.closing :: id in r.pool.closing
    requires r.pool.aborted <= p.aborted
    requires r.pool.outcome != P.Unsettled ==> p.outcome != P.Unsettled
    ensures Inv(r.(pool := p))
  {
    PoolMoves(r, p);
  }

  lemma PoolEventKeeps(r: Runtime, e: P.Event)
    requires Inv(r) && P.Environment(e)
    ensures Inv(r.(pool := P.Step(r.pool, e)))
  {
    P.StepKeeps(r.pool, e);
    P.EnvironmentFrame(r.pool, e);
    PoolKeeps(r, P.Step(r.pool, e));
  }

  /** The load, the stage and the call counter own nothing. */
  lemma Elsewhere(r: Runtime, q: Runtime)
    requires Owned(r) && Awaited(r)
    requires q.pool == r.pool && q.calls == r.calls && q.guests == r.guests && q.dispatches == r.dispatches
    ensures Owned(q) && Awaited(q)
  {
    assert forall u :: Waits(q, u) <==> Waits(r, u);
    assert forall u, c :: Asked(q, u, c) <==> Asked(r, u, c);
    assert forall id, u :: Owner(q, id, u) <==> Owner(r, id, u);
    assert forall u, c, id :: Holds(q, u, c, id) <==> Holds(r, u, c, id);
    assert forall id :: AwaitedBy(q, id) <==> AwaitedBy(r, id);
  }

  lemma InvokeStaged(r: Runtime, options: CallOptions)
    requires Staged(r) && r.stage == Open
    ensures Staged(Step(r, Invoke(options)))
  {
    hide Refused;
  }

  lemma InvokeKeeps(r: Runtime, options: CallOptions)
    requires Inv(r) && r.stage == Open
    ensures Inv(Step(r, Invoke(options)))
  {
    InvokeStaged(r, options);
    var calls := r.calls[r.nextCall := if Refused(options) then Leaked else Loading];
    assert r.nextCall !in r.calls;
    hide Owned, Awaited, Staged, P.Inv;
    CallsMove(r, calls);
    Elsewhere(r.(calls := calls), Step(r, Invoke(options)));
  }

  lemma LoadKeeps(r: Runtime, load: Load)
    requires Inv(r) && r.load == InFlight && !load.InFlight?
    ensures Inv(r.(load := load))
  {
    assert Staged(r.(load := load));
    hide Owned, Awaited, Staged, P.Inv;
    Elsewhere(r, r.(load := load));
  }

  lemma AbortEventKeeps(r: Runtime, call: nat)
    requires Inv(r)
    ensures Inv(r.(pool := P.DoAbort(r.pool, call)))
  {
    P.AbortKeeps(r.pool, call);
    P.AbortFrame(r.pool, call);
    PoolKeeps(r, P.DoAbort(r.pool, call));
  }

  lemma SettlesKeeps(r: Runtime, t: nat, valid: bool)
    requires Inv(r) && t in r.guests && r.guests[t].Running?
    ensures Inv(DoGuestSettles(r, t, valid))
  {
    var Running(call, id) := r.guests[t];
    assert Holds(r, t, call, id);
    SettlesMoves(r, t, valid);
    P.ReleaseKeeps(r.pool, id, t, call in r.pool.aborted || !valid);
    P.ReleaseFrame(r.pool, id, t, call in r.pool.aborted || !valid);
  }

  lemma StageKeeps(r: Runtime, stage: Stage)
    requires Inv(r)
    requires Staged(r.(stage := stage))
    ensures Inv(r.(stage := stage))
  {
    hide Owned, Awaited, Staged, P.Inv;
    Elsewhere(r, r.(stage := stage));
  }

  lemma InvParts(r: Runtime)
    ensures Inv(r) <==> P.Inv(r.pool) && Owned(r) && Awaited(r) && Staged(r)
    ensures P.Inv(r.pool) ==> P.Core(r.pool)
  {
    hide P.Core, P.Quiet, P.Listening, P.Winding, Owned, Awaited, Staged;
  }

  lemma CloseStages(r: Runtime, p: P.Pool)
    requires Staged(r) && r.stage == Open && p == AbortAll(r.pool, r.calls.Keys, r.nextCall)
    requires P.Grown(r.pool, p) && p.outcome == r.pool.outcome
    requires r.pool.aborted <= p.aborted && forall c | c in r.calls.Keys && c < r.nextCall :: c in p.aborted
    ensures var q := Step(r, CloseRuntime);
      q == r.(pool := p, stage := q.stage) && Staged(r.(pool := p, stage := q.stage)) && q.stage != Open
  {
    hide AbortAll;
  }

  lemma CloseRuntimeKeeps(r: Runtime)
    requires Inv(r) && r.stage == Open
    ensures Inv(Step(r, CloseRuntime))
  {
    hide *;
    var p := AbortAll(r.pool, r.calls.Keys, r.nextCall);
    InvParts(r);
    AbortAllKeeps(r.pool, r.calls.Keys, r.nextCall);
    AbortAllFrame(r.pool, r.calls.Keys, r.nextCall);
    PoolKeeps(r, p);
    CloseStages(r, p);
    StageKeeps(r.(pool := p), Step(r, CloseRuntime).stage);
  }

  /** By the time the runtime closes its pool, every lease is back and nothing is left to wait for but creations. */
  lemma NothingLeft(r: Runtime)
    requires Owned(r) && Awaited(r) && P.Leased(r.pool) && r.calls == map[] && r.guests == map[]
    ensures r.pool.held == map[] && r.pool.busy == {} && r.pool.waiters == []
    ensures !r.pool.closed ==> r.pool.closing == multiset{}
  {
    assert r.pool.waiters == [] || Waits(r, r.pool.waiters[0]);
    assert r.pool.closed || forall id | id in r.pool.closing :: AwaitedBy(r, id);
    assert forall t :: !Waits(r, t);
    assert forall id, t :: !Owner(r, id, t);
    assert forall id :: !AwaitedBy(r, id);
    assert forall id :: id !in r.pool.held;
  }

  lemma ClosePoolKeeps(r: Runtime)
    requires Inv(r) && r.stage.WaitBackground? && r.guests == map[] && r.load == Loaded
    ensures Inv(r.(stage := PoolClosing, pool := P.DoClose(r.pool)))
  {
    NothingLeft(r);
    P.CloseKeeps(r.pool);
    var p := P.DoClose(r.pool);
    var q := r.(stage := PoolClosing, pool := p);
    assert p.held == map[] && p.waiters == [] && p.closed && p.aborted == r.pool.aborted;
    assert Owned(q) && Awaited(q) && Staged(q);
  }

  lemma AdvanceKeeps(r: Runtime)
    requires Inv(r)
    ensures Inv(DoAdvance(r))
  {
    if r.stage.WaitBackground? && r.stage.snapshot !! r.guests.Keys {
      assert r.guests.Keys == {};
      if r.load == Loaded { ClosePoolKeeps(r); } else { StageKeeps(r, PoolClosing); }
    } else {
      StageKeeps(r, DoAdvance(r).stage);
    }
  }

  lemma CutKeeps(r: Runtime, call: nat)
    requires Inv(r)
    ensures Inv(Step(r, Cut(call)))
  {
    if Step(r, Cut(call)) != r {
      PhaseMoves(r, call, Unwinding);
      hide Owned, Awaited, P.Inv;
    }
  }

  lemma GuestDoneKeeps(r: Runtime, t: nat)
    requires Inv(r)
    ensures Inv(Step(r, GuestDone(t)))
  {
    if Step(r, GuestDone(t)) != r {
      DoneMoves(r, t);
      hide Owned, Awaited, P.Inv;
    }
  }

  lemma StepKeeps(r: Runtime, e: Event)
    requires Inv(r)
    ensures Inv(Step(r, e))
  {
    hide Inv, DoResume, DoGuestSettles, P.Environment, P.Step, DoAdvance, AbortAll, Refused;
    match e
    case Invoke(options) => if r.stage == Open { InvokeKeeps(r, options); }
    case LoadSettles(ok) => if r.load == InFlight { LoadKeeps(r, if ok && r.stage == Open then Loaded else Failed); }
    case Cut(call) => CutKeeps(r, call);
    case CallerAborts(call) => AbortEventKeeps(r, call);
    case Resume(call, id, throws, retry) => if call in r.calls { ResumeKeeps(r, call, id, throws, retry); }
    case GuestSettles(t, valid) => if t in r.guests && r.guests[t].Running? { SettlesKeeps(r, t, valid); }
    case GuestDone(t) => GuestDoneKeeps(r, t);
    case PoolEvent(event) => if Step(r, e) != r { PoolEventKeeps(r, event); }
    case CloseRuntime => if r.stage == Open { CloseRuntimeKeeps(r); }
    case Advance => AdvanceKeeps(r);
  }

  lemma {:induction false} RunKeeps(poolSize: nat, events: seq<Event>)
    ensures Inv(Run(Initial(poolSize), events))
    decreases |events|
  {
    if events != [] {
      RunKeeps(poolSize, events[..|events| - 1]);
      StepKeeps(Run(Initial(poolSize), events[..|events| - 1]), events[|events| - 1]);
    }
  }

  // ---- main results: every sequence of events, in any interleaving ----

  lemma ClosedStepDispatchesNothing(r: Runtime, e: Event)
    requires Staged(r) && r.stage != Open
    ensures Step(r, e).dispatches == r.dispatches && Step(r, e).stage != Open
  {
  }

  /** Once close() has started, no component dispatch begins. */
  lemma {:induction false} NoDispatchAfterClose(poolSize: nat, before: seq<Event>, after: seq<Event>)
    requires Run(Initial(poolSize), before).stage != Open
    ensures Run(Initial(poolSize), before + after).dispatches == Run(Initial(poolSize), before).dispatches
    ensures Run(Initial(poolSize), before + after).stage != Open
    decreases |after|
  {
    if after == [] {
      assert before + after == before;
    } else {
      var init, last := after[..|after| - 1], after[|after| - 1];
      assert (before + after)[..|before + after| - 1] == before + init;
      NoDispatchAfterClose(poolSize, before, init);
      RunKeeps(poolSize, before + init);
      ClosedStepDispatchesNothing(Run(Initial(poolSize), before + init), last);
    }
  }

  /** When the shutdown reaches the pool, every lease ever granted has been released and its discard has been
      closed, even if its call timed out while the guest was still running; nobody is parked. */
  lemma LeasesBackBeforePoolCloses(poolSize: nat, events: seq<Event>)
    ensures var r := Run(Initial(poolSize), events);
      (r.stage.WaitBackground? && Step(r, Advance).stage.PoolClosing?) ==>
        && r.calls == map[] && r.guests == map[] && !r.pool.closed
        && r.pool.held == map[] && r.pool.busy == {} && r.pool.waiters == [] && r.pool.closing == multiset{}
  {
    RunKeeps(poolSize, events);
    var r := Run(Initial(poolSize), events);
    if r.stage.WaitBackground? && Step(r, Advance).stage.PoolClosing? {
      assert r.guests.Keys == {};
      NothingLeft(r);
    }
  }

  /** A runtime that loaded its bundle and finished closing holds no lease and has closed every instance once. */
  lemma ShutdownClosesEverything(poolSize: nat, events: seq<Event>)
    ensures var r := Run(Initial(poolSize), events);
      r.stage == Done && r.load == Loaded ==>
        && r.calls == map[] && r.guests == map[] && r.pool.held == map[] && r.pool.creating == 0
        && (forall id | id in r.pool.created :: r.pool.closeCalls[id] == 1)
  {
    RunKeeps(poolSize, events);
    var r := Run(Initial(poolSize), events);
    if r.stage == Done && r.load == Loaded {
      NothingLeft(r);
      P.SettledClosed(r.pool);
    }
  }

  ghost predicate SameLease(r: Runtime, q: Runtime, id: nat) {
    id in r.pool.held && id in q.pool.held && q.pool.held[id] == r.pool.held[id]
  }

  lemma AttemptReuse(r: Runtime, call: nat, id: nat)
    requires P.Leased(r.pool) && id in r.pool.held
    ensures SameLease(r, StartAttempt(r, call), id)
  {
    P.AcquireFrame(r.pool, call);
  }

  lemma DropReuse(r: Runtime, other: nat, t: nat, id: nat)
    requires P.Core(r.pool) && id in r.pool.held && id in P.DoRelease(r.pool, other, t, true).entries
    ensures id in P.DoRelease(r.pool, other, t, true).held && P.DoRelease(r.pool, other, t, true).held[id] == r.pool.held[id]
  {
    P.ReturnedOnlyByRelease(r.pool, P.Release(other, t, true), id);
  }

  lemma ResumeReuse(r: Runtime, call: nat, other: nat, throws: bool, retry: bool, id: nat)
    requires P.Core(r.pool) && call in r.calls && id in r.pool.held
    requires id in DoResume(r, call, other, throws, retry).pool.entries
    ensures SameLease(r, DoResume(r, call, other, throws, retry), id)
  {
    hide P.DoRelease, P.DoAcquire;
    match r.calls[call]
    case Loading => if !throws { AttemptReuse(r, call, id); }
    case Acquiring(t) => if id in P.DoRelease(r.pool, other, t, true).entries { DropReuse(r, other, t, id); }
    case Sleeping => if !throws { AttemptReuse(r, call, id); }
    case _ =>
  }

  lemma SettlesReuse(r: Runtime, t: nat, valid: bool, id: nat)
    requires P.Core(r.pool) && Owned(r) && t in r.guests && r.guests[t].Running? && id in r.pool.held
    requires id in DoGuestSettles(r, t, valid).pool.entries
    ensures || SameLease(r, DoGuestSettles(r, t, valid), id)
            || (valid && r.pool.held[id] == t && AnsweredInTime(r, t))
  {
    assert Holds(r, t, r.guests[t].call, r.guests[t].id);
    var discard := r.guests[t].call in r.pool.aborted || !valid;
    P.ReturnedOnlyByRelease(r.pool, P.Release(r.guests[t].id, t, discard), id);
    hide Owned, P.Core, P.DoRelease;
  }

  /** The guest holding lease `t` was dispatched, and its call has not been aborted. */
  ghost predicate AnsweredInTime(r: Runtime, t: nat) {
    t in r.dispatches && t in r.pool.signalOf && r.pool.signalOf[t] !in r.pool.aborted
  }

  /** A lease ends with its instance still in the pool only when its dispatched guest answers validly, before
      any abort of the call. */
  lemma ReusedOnlyAfterValidAnswer(poolSize: nat, events: seq<Event>, e: Event, id: nat)
    requires var r := Run(Initial(poolSize), events); id in r.pool.held && id in Step(r, e).pool.entries
    ensures var r := Run(Initial(poolSize), events);
      || SameLease(r, Step(r, e), id)
      || (e == GuestSettles(r.pool.held[id], true) && AnsweredInTime(r, r.pool.held[id]))
  {
    RunKeeps(poolSize, events);
    var r := Run(Initial(poolSize), events);
    match e
    case CallerAborts(call) => AbortReuse(r, call, id);
    case CloseRuntime => AbortReuse(r, 0, id);
    case _ => ReuseStep(r, e, id);
  }

  lemma AbortReuse(r: Runtime, call: nat, id: nat)
    requires P.Inv(r.pool) && id in r.pool.held
    ensures SameLease(r, Step(r, CallerAborts(call)), id) && SameLease(r, Step(r, CloseRuntime), id)
  {
    P.AbortFrame(r.pool, call);
    AbortAllFrame(r.pool, r.calls.Keys, r.nextCall);
  }

  lemma PoolEventReuse(r: Runtime, e: P.Event, id: nat)
    requires P.Leased(r.pool) && id in r.pool.held
    ensures SameLease(r, Step(r, PoolEvent(e)), id)
  {
    if P.Environment(e) { P.EnvironmentFrame(r.pool, e); }
  }

  /** The events that leave the pool alone, or only close it. */
  lemma QuietReuse(r: Runtime, e: Event, id: nat)
    requires id in r.pool.held
    requires e.Invoke? || e.LoadSettles? || e.Cut? || e.GuestDone? || e.Advance?
    ensures SameLease(r, Step(r, e), id)
  {
    hide Refused;
  }

  lemma ReuseStep(r: Runtime, e: Event, id: nat)
    requires P.Core(r.pool) && Owned(r) && id in r.pool.held && id in Step(r, e).pool.entries
    requires !e.CallerAborts? && !e.CloseRuntime?
    ensures || SameLease(r, Step(r, e), id)
            || (e == GuestSettles(r.pool.held[id], true) && AnsweredInTime(r, r.pool.held[id]))
  {
    hide DoResume, DoGuestSettles, AnsweredInTime, SameLease, Owned, P.Environment, P.Step, DoAdvance;
    match e
    case Resume(call, other, throws, retry) =>
      if call in r.calls { ResumeReuse(r, call, other, throws, retry, id); } else { SamePool(r, Step(r, e), id); }
    case GuestSettles(t, valid) =>
      if t in r.guests && r.guests[t].Running? { SettlesReuse(r, t, valid, id); } else { SamePool(r, Step(r, e), id); }
    case PoolEvent(event) => PoolEventReuse(r, event, id);
    case _ =>
      hide Step;
      QuietReuse(r, e, id);
  }

  lemma SamePool(r: Runtime, q: Runtime, id: nat)
    requires id in r.pool.held && q.pool == r.pool
    ensures SameLease(r, q, id)
  {
  }
}
