/** The bounded instance pool of wasm/runtime.ts: every transition between two awaits is one step. */
module PoolModel {
  import opened Common

  datatype Outcome = Unsettled | Resolved | Rejected

  /** `entries`..`failures` are the fields of the source's pool. The rest records what its callers and the
      promises it started know: tickets number the calls of `acquire`, ids number the instances. */
  datatype Pool = Pool(
    max: nat,
    entries: seq<nat>,            // in insertion order, as the source's Set iterates
    busy: set<nat>,               // the entries whose busy flag is set
    waiters: seq<nat>,            // parked tickets, oldest first
    creating: nat,
    nextId: nat,
    closed: bool,
    finalizing: bool,
    failures: nat,                // how many close failures were recorded
    nextTicket: nat,
    signalOf: map<nat, nat>,      // abort signal of each ticket
    aborted: set<nat>,            // signals that have fired
    granted: seq<nat>,            // tickets that received a lease, in grant order
    rejected: set<nat>,
    held: map<nat, nat>,          // unreleased leases: instance -> ticket
    pending: set<nat>,            // instances whose creation has not settled
    created: set<nat>,            // instances whose creation succeeded
    closeCalls: multiset<nat>,    // every call of an instance's close
    closing: multiset<nat>,            // discarded or late instances whose close has not settled
    finalists: set<nat>,          // instances left to finalization, close not called yet
    finalClosing: set<nat>,       // close called by finalization, not settled
    outcome: Outcome              // of the promise returned by close()
  )

  datatype Event =
    | Acquire(signal: nat)
    | Abort(signal: nat)
    | CreateOk(id: nat)
    | CreateFail(id: nat)
    | Release(id: nat, ticket: nat, discard: bool)
    | CloseSettled(id: nat, failed: bool)
    | Close
    | FinalCall(id: nat)
    | FinalSettled(id: nat, failed: bool)
    | SettleClose

  function Initial(max: nat): Pool {
    Pool(max, [], {}, [], 0, 1, false, false, 0, 0, map[], {}, [], {}, map[], {}, {}, multiset{}, multiset{}, {}, {}, Unsettled)
  }

  function IndexOf(s: seq<nat>, x: nat): (i: nat)
    ensures i <= |s| && x !in s[..i]
    ensures i < |s| <==> x in s
    ensures i < |s| ==> s[i] == x
  {
    if s == [] || s[0] == x then 0 else 1 + IndexOf(s[1..], x)
  }

  function Without(s: seq<nat>, x: nat): seq<nat> {
    var i := IndexOf(s, x);
    if i < |s| then s[..i] + s[i + 1..] else s
  }

  /** Position of the first idle entry, or |entries|. */
  function FirstIdle(entries: seq<nat>, busy: set<nat>): (i: nat)
    ensures i <= |entries|
    ensures forall k | 0 <= k < i :: entries[k] in busy
    ensures i < |entries| ==> entries[i] !in busy
  {
    if entries == [] || entries[0] !in busy then 0 else
      assert forall k | 1 <= k < |entries| :: entries[k] == entries[1..][k - 1];
      1 + FirstIdle(entries[1..], busy)
  }

  // ---- the loop body of #pump ----

  function Grant(p: Pool, id: nat): Pool
    requires p.waiters != []
  {
    p.(waiters := p.waiters[1..], busy := p.busy + {id},
       granted := p.granted + [p.waiters[0]], held := p.held[id := p.waiters[0]])
  }

  function RejectFirst(p: Pool): Pool
    requires p.waiters != []
  {
    p.(waiters := p.waiters[1..], rejected := p.rejected + {p.waiters[0]})
  }

  function StartCreate(p: Pool): Pool {
    p.(nextId := p.nextId + 1, creating := p.creating + 1, pending := p.pending + {p.nextId})
  }

  predicate SignalFired(p: Pool, ticket: nat) {
    ticket in p.signalOf && p.signalOf[ticket] in p.aborted
  }

  function PumpLoop(p: Pool): (r: Pool)
    ensures |r.waiters| <= |p.waiters| && r.max == p.max
    decreases |p.waiters|, if |p.entries| + p.creating < p.max then p.max - |p.entries| - p.creating else 0
  {
    if p.waiters == [] then p else
    var i := FirstIdle(p.entries, p.busy);
    if i < |p.entries| then
      PumpLoop(if SignalFired(p, p.waiters[0]) then RejectFirst(p) else Grant(p, p.entries[i]))
    else if p.creating >= |p.waiters| || |p.entries| + p.creating >= p.max then p
    else PumpLoop(StartCreate(p))
  }

  function MaybeFinishClose(p: Pool): (r: Pool)
    ensures r.max == p.max
  {
    if !p.closed || p.finalizing || p.creating > 0 || FirstBusy(p) then p
    else p.(finalizing := true, finalists := (set id | id in p.entries), entries := [])
  }

  predicate FirstBusy(p: Pool) { exists id :: id in p.entries && id in p.busy }

  function Pump(p: Pool): (r: Pool)
    ensures |r.waiters| <= |p.waiters| && r.max == p.max
  {
    if p.closed then MaybeFinishClose(p) else PumpLoop(p)
  }

  // ---- the public operations and the continuations of their awaits ----

  function DoAcquire(p: Pool, signal: nat): (r: Pool)
    ensures r.max == p.max
  {
    var t := p.nextTicket;
    var q := p.(nextTicket := t + 1, signalOf := p.signalOf[t := signal]);
    if p.closed || signal in p.aborted then q.(rejected := q.rejected + {t})
    else Pump(q.(waiters := q.waiters + [t]))
  }

  function OnAbort(p: Pool, ticket: nat): (r: Pool)
    ensures r.max == p.max
  {
    Pump(p.(waiters := Without(p.waiters, ticket), rejected := p.rejected + {ticket}))
  }

  /** Position of the oldest parked waiter listening to `signal`, or |waiters|. */
  function FirstListening(waiters: seq<nat>, signalOf: map<nat, nat>, signal: nat): (i: nat)
    ensures i <= |waiters|
    ensures forall k | 0 <= k < i :: !(waiters[k] in signalOf && signalOf[waiters[k]] == signal)
    ensures i < |waiters| ==> waiters[i] in signalOf && signalOf[waiters[i]] == signal
  {
    if waiters == [] || (waiters[0] in signalOf && signalOf[waiters[0]] == signal) then 0 else
      assert forall k | 1 <= k < |waiters| :: waiters[k] == waiters[1..][k - 1];
      1 + FirstListening(waiters[1..], signalOf, signal)
  }

  /** The abort listeners of one signal run one after the other, in the order they were added; a listener
      whose waiter was served in between has been removed and does not run. */
  function RunListeners(p: Pool, signal: nat): (r: Pool)
    ensures r.max == p.max
    decreases |p.waiters|
  {
    var i := FirstListening(p.waiters, p.signalOf, signal);
    if i == |p.waiters| then p else
      assert p.waiters[i] in p.waiters;
      RunListeners(OnAbort(p, p.waiters[i]), signal)
  }

  function DoAbort(p: Pool, signal: nat): (r: Pool)
    ensures r.max == p.max
  {
    if signal in p.aborted then p else RunListeners(p.(aborted := p.aborted + {signal}), signal)
  }

  function DoCreateOk(p: Pool, id: nat): (r: Pool)
    ensures r.max == p.max
  {
    var q := p.(creating := if p.creating > 0 then p.creating - 1 else 0,
                pending := p.pending - {id}, created := p.created + {id});
    if p.closed then q.(closeCalls := q.closeCalls + multiset{id}, closing := q.closing + multiset{id})
    else Pump(q.(entries := q.entries + [id]))
  }

  function DoCreateFail(p: Pool, id: nat): (r: Pool)
    ensures r.max == p.max
  {
    var q := p.(creating := if p.creating > 0 then p.creating - 1 else 0, pending := p.pending - {id});
    MaybeFinishClose(Pump(if q.waiters == [] then q else RejectFirst(q)))
  }

  function DoRelease(p: Pool, id: nat, ticket: nat, discard: bool): (r: Pool)
    ensures r.max == p.max
  {
    if !(id in p.held && p.held[id] == ticket) then p else      // released before: a no-op
    var q := p.(held := p.held - {id});
    if id !in p.entries then q
    else if discard || p.closed then
      q.(entries := Without(q.entries, id), busy := q.busy - {id},
         closeCalls := q.closeCalls + multiset{id}, closing := q.closing + multiset{id})
    else Pump(q.(busy := q.busy - {id}))
  }

  function DoCloseSettled(p: Pool, id: nat, failed: bool): (r: Pool)
    ensures r.max == p.max
  {
    var q := p.(closing := p.closing - multiset{id}, failures := if failed && p.closed then p.failures + 1 else p.failures);
    MaybeFinishClose(Pump(q))
  }

  function DoClose(p: Pool): (r: Pool)
    ensures r.max == p.max
  {
    if p.closed then p else
    MaybeFinishClose(p.(closed := true, rejected := p.rejected + (set t | t in p.waiters), waiters := []))
  }

  /** Every event of the pool; an event that cannot occur in `p` leaves it unchanged. */
  function Step(p: Pool, e: Event): (r: Pool)
    ensures r.max == p.max
  {
    match e
    case Acquire(signal) => DoAcquire(p, signal)
    case Abort(signal) => DoAbort(p, signal)
    case CreateOk(id) => if id in p.pending then DoCreateOk(p, id) else p
    case CreateFail(id) => if id in p.pending then DoCreateFail(p, id) else p
    case Release(id, ticket, discard) => DoRelease(p, id, ticket, discard)
    case CloseSettled(id, failed) => if id in p.closing then DoCloseSettled(p, id, failed) else p
    case Close => DoClose(p)
    case FinalCall(id) =>
      if id !in p.finalists then p else
      p.(finalists := p.finalists - {id}, finalClosing := p.finalClosing + {id}, closeCalls := p.closeCalls + multiset{id})
    case FinalSettled(id, failed) =>
      if id !in p.finalClosing then p else
      p.(finalClosing := p.finalClosing - {id}, failures := if failed then p.failures + 1 else p.failures)
    case SettleClose =>
      if !p.finalizing || p.finalists != {} || p.finalClosing != {} || p.outcome != Unsettled then p else
      p.(outcome := if p.failures > 0 then Rejected else Resolved)
  }

  function Run(p: Pool, events: seq<Event>): (r: Pool)
    ensures r.max == p.max
    decreases |events|
  {
    if events == [] then p else Step(Run(p, events[..|events| - 1]), events[|events| - 1])
  }

  lemma RunOn(p: Pool, events: seq<Event>, e: Event)
    ensures Run(p, []) == p && Run(p, events + [e]) == Step(Run(p, events), e)
  {
    hide Step;
    assert (events + [e])[..|events|] == events;
  }

  // ---- what every step keeps ----

  /** Instances are bounded and numbered once; every one created is an entry, is left to finalization, or has
      had close called, and exactly one of these, once. */
  ghost predicate Bounded(p: Pool) {
    && p.creating == |p.pending| && |p.entries| + p.creating <= p.max
    && p.pending !! p.created
    && (forall id | id in p.pending :: id < p.nextId)
    && (forall id | id in p.created :: id < p.nextId)
    && multiset(p.created) == multiset(p.entries) + multiset(p.finalists) + p.closeCalls
  }

  /** Busy entries correspond one-to-one with unreleased leases. */
  ghost predicate Leased(p: Pool) {
    && (forall id | id in p.busy :: id in p.entries)
    && p.held.Keys == p.busy
    && (forall id | id in p.held :: p.held[id] in p.granted)
    && (forall id, other | id in p.held && other in p.held && id != other :: p.held[id] != p.held[other])
  }

  /** Every call of acquire is granted, rejected or parked, and exactly one of these, once. */
  ghost predicate Served(p: Pool) {
    && multiset(p.signalOf.Keys) == multiset(p.granted) + multiset(p.waiters) + multiset(p.rejected)
    && (forall t: nat :: t in p.signalOf.Keys <==> t < p.nextTicket)
  }

  /** Grants follow arrival, and whoever is parked arrived after everyone granted. */
  ghost predicate Fifo(p: Pool) { Increasing(p.granted + p.waiters) }

  ghost predicate Closing(p: Pool) {
    && (p.closed ==> p.waiters == [])
    && (p.finalizing ==> p.closed && p.entries == [] && p.creating == 0)
    && (!p.finalizing ==> p.finalists == {} && p.finalClosing == {} && p.outcome == Unsettled)
    && (p.outcome != Unsettled ==> p.finalists == {} && p.finalClosing == {})
  }

  ghost predicate Core(p: Pool) { Bounded(p) && Leased(p) && Served(p) && Fifo(p) && Closing(p) }

  /** No parked waiter can be served now: the discards still closing stand for the pumps still to come. */
  ghost predicate Quiet(p: Pool) {
    !p.closed && p.waiters != [] ==>
      && (forall id | id in p.entries :: id in p.busy)
      && (p.creating >= |p.waiters| || |p.entries| + p.creating + |p.closing| >= p.max)
  }

  ghost predicate Listening(p: Pool) { forall t | t in p.waiters :: !SignalFired(p, t) }

  /** A closed pool with nothing busy, creating or mid-close has begun finalizing. */
  ghost predicate Winding(p: Pool) {
    p.closed && p.busy == {} && p.creating == 0 && p.closing == multiset{} ==> p.finalizing
  }

  ghost predicate Inv(p: Pool) { Core(p) && Quiet(p) && Listening(p) && Winding(p) }

  lemma Uncons(s: seq<nat>)
    requires s != []
    ensures multiset(s) == multiset{s[0]} + multiset(s[1..])
    ensures forall t | t in s[1..] :: t in s
  {
    assert s == [s[0]] + s[1..];
  }

  lemma Removed(s: seq<nat>, x: nat)
    requires x in s
    ensures |Without(s, x)| == |s| - 1 && multiset(s) == multiset(Without(s, x)) + multiset{x}
    ensures forall t | t in Without(s, x) :: t in s
    ensures forall t | t in s && t != x :: t in Without(s, x)
  {
    var i := IndexOf(s, x);
    assert s == s[..i] + [x] + s[i + 1..];
    assert forall t | t in Without(s, x) :: t in multiset(s);
    assert forall t | t in s && t != x :: t in multiset(Without(s, x));
  }

  lemma Fresh(p: Pool, t: nat)
    requires Served(p) && t in p.waiters
    ensures t !in p.rejected && t !in p.granted && t < p.nextTicket
  {
    assert multiset(p.waiters)[t] >= 1;
    assert multiset(p.signalOf.Keys)[t] <= 1;
    assert multiset(p.granted)[t] == 0 && multiset(p.rejected)[t] == 0;
  }

  lemma RejectedOnly(p: Pool, t: nat)
    requires Served(p) && t in p.rejected
    ensures t !in p.waiters && t !in p.granted
  {
    assert multiset(p.rejected)[t] >= 1;
    assert multiset(p.signalOf.Keys)[t] <= 1;
    assert multiset(p.granted)[t] == 0 && multiset(p.waiters)[t] == 0;
  }

  lemma GrantedOnly(p: Pool, t: nat)
    requires Served(p) && t in p.granted
    ensures t !in p.waiters && t !in p.rejected && t in p.signalOf
  {
    assert multiset(p.granted)[t] >= 1;
    assert multiset(p.signalOf.Keys)[t] <= 1;
    assert t in p.signalOf.Keys;
    assert multiset(p.rejected)[t] == 0 && multiset(p.waiters)[t] == 0;
  }

  lemma GrantKeeps(p: Pool, i: nat)
    requires Core(p) && p.waiters != [] && i < |p.entries| && p.entries[i] !in p.busy
    ensures Core(Grant(p, p.entries[i]))
  {
    var q := Grant(p, p.entries[i]);
    Fresh(p, p.waiters[0]);
    Uncons(p.waiters);
    assert q.granted + q.waiters == p.granted + p.waiters;
  }

  lemma RejectKeeps(p: Pool)
    requires Core(p) && p.waiters != []
    ensures Core(RejectFirst(p))
  {
    Fresh(p, p.waiters[0]);
    Uncons(p.waiters);
    FifoWithout(p.granted, p.waiters, 0);
    assert p.waiters[..0] + p.waiters[1..] == p.waiters[1..];
  }

  lemma FifoWithout(granted: seq<nat>, waiters: seq<nat>, i: nat)
    requires i < |waiters| && Increasing(granted + waiters)
    ensures Increasing(granted + (waiters[..i] + waiters[i + 1..]))
  {
    var s, n := granted + waiters, |granted| + i;
    assert granted + (waiters[..i] + waiters[i + 1..]) == s[..n] + s[n + 1..];
  }

  lemma CreateKeeps(p: Pool)
    requires Core(p) && |p.entries| + p.creating < p.max && !p.closed
    ensures Core(StartCreate(p))
  {
    assert p.nextId !in p.pending;
  }

  ghost predicate HeldBy(held: map<nat, nat>, t: nat) { exists id :: id in held && held[id] == t }

  /** Leases are kept, and new ones go to tickets that were parked; every new grant is such a lease. */
  ghost predicate Grown(p: Pool, r: Pool) {
    && r.closed == p.closed && r.signalOf == p.signalOf
    && (forall t | t in r.waiters :: t in p.waiters)
    && (forall id | id in p.held :: id in r.held && r.held[id] == p.held[id])
    && (forall id | id in r.held && id !in p.held :: r.held[id] in p.waiters)
    && (forall t | t in r.granted :: t in p.granted || HeldBy(r.held, t))
  }

  /** Two such changes, one after the other. */
  lemma GrownOn(p: Pool, q: Pool, r: Pool)
    requires Grown(p, q) && Grown(q, r)
    ensures Grown(p, r)
  {
    forall t | t in r.granted ensures t in p.granted || HeldBy(r.held, t) {
      if t in q.granted && t !in p.granted {
        var id :| id in q.held && q.held[id] == t;
        assert id in r.held && r.held[id] == t;
      }
    }
  }

  /** What a pump leaves alone. */
  ghost predicate SameAround(p: Pool, r: Pool) {
    && Grown(p, r)
    && r.max == p.max && r.closing == p.closing && r.aborted == p.aborted && r.nextTicket == p.nextTicket
    && r.outcome == p.outcome
  }

  lemma RejectFrame(p: Pool)
    requires p.held.Keys == p.busy && p.waiters != []
    ensures SameAround(p, RejectFirst(p)) && RejectFirst(p).held.Keys == RejectFirst(p).busy
  {
    Uncons(p.waiters);
  }

  lemma CreateFrame(p: Pool)
    requires p.held.Keys == p.busy
    ensures SameAround(p, StartCreate(p)) && StartCreate(p).held.Keys == StartCreate(p).busy
  {
  }

  lemma GrantFrame(p: Pool, id: nat)
    requires p.held.Keys == p.busy && p.waiters != [] && id !in p.busy
    ensures SameAround(p, Grant(p, id)) && Grant(p, id).held.Keys == Grant(p, id).busy
  {
    Uncons(p.waiters);
  }

  lemma AroundTwice(p: Pool, q: Pool, r: Pool)
    requires SameAround(p, q) && SameAround(q, r)
    ensures SameAround(p, r)
  {
  }

  lemma {:induction false} PumpLoopFrame(p: Pool)
    requires p.held.Keys == p.busy
    ensures SameAround(p, PumpLoop(p))
    decreases |p.waiters|, if |p.entries| + p.creating < p.max then p.max - |p.entries| - p.creating else 0
  {
    if p.waiters != [] {
      var i := FirstIdle(p.entries, p.busy);
      if i < |p.entries| {
        RejectFrame(p);
        GrantFrame(p, p.entries[i]);
        var q := if SignalFired(p, p.waiters[0]) then RejectFirst(p) else Grant(p, p.entries[i]);
        hide SameAround;
        PumpLoopFrame(q);
        AroundTwice(p, q, PumpLoop(q));
      } else if p.creating < |p.waiters| && |p.entries| + p.creating < p.max {
        CreateFrame(p);
        hide SameAround;
        PumpLoopFrame(StartCreate(p));
        AroundTwice(p, StartCreate(p), PumpLoop(StartCreate(p)));
      }
    }
  }

  lemma {:induction false} PumpLoopKeeps(p: Pool)
    requires Core(p) && !p.closed
    ensures Core(PumpLoop(p)) && Quiet(PumpLoop(p))
    decreases |p.waiters|, if |p.entries| + p.creating < p.max then p.max - |p.entries| - p.creating else 0
  {
    if p.waiters != [] {
      var i := FirstIdle(p.entries, p.busy);
      if i < |p.entries| {
        Uncons(p.waiters);
        if SignalFired(p, p.waiters[0]) {
          RejectKeeps(p);
          PumpLoopKeeps(RejectFirst(p));
        } else {
          GrantKeeps(p, i);
          PumpLoopKeeps(Grant(p, p.entries[i]));
        }
      } else if p.creating < |p.waiters| && |p.entries| + p.creating < p.max {
        CreateKeeps(p);
        PumpLoopKeeps(StartCreate(p));
      }
    }
  }

  lemma Finalists(p: Pool)
    requires Bounded(p)
    ensures multiset(set id | id in p.entries) == multiset(p.entries)
  {
    forall id: nat ensures multiset(p.entries)[id] <= 1 {
      assert multiset(p.created)[id] <= 1;
      assert multiset(p.created)[id] >= multiset(p.entries)[id];
    }
  }

  lemma FinishKeeps(p: Pool)
    requires Core(p)
    ensures Core(MaybeFinishClose(p)) && Winding(MaybeFinishClose(p)) && SameAround(p, MaybeFinishClose(p))
    ensures MaybeFinishClose(p).waiters == p.waiters
  {
    Finalists(p);
    if p.busy != {} {
      var id :| id in p.busy;
    }
  }

  lemma PumpKeeps(p: Pool)
    requires Core(p)
    ensures Core(Pump(p)) && Quiet(Pump(p)) && Winding(Pump(p)) && SameAround(p, Pump(p))
  {
    if p.closed {
      FinishKeeps(p);
    } else {
      PumpLoopFrame(p);
      PumpLoopKeeps(p);
    }
  }

  /** Ends every operation: a pump, then the check that a closing pool may be finished. */
  lemma Settle(p: Pool)
    requires Core(p) && Listening(p)
    ensures Inv(Pump(p)) && Inv(MaybeFinishClose(Pump(p)))
  {
    PumpKeeps(p);
    FinishKeeps(Pump(p));
  }

  lemma Added(s: set<nat>, x: nat)
    requires x !in s
    ensures multiset(s + {x}) == multiset(s) + multiset{x}
  {
  }

  lemma NewTicket(p: Pool)
    requires Served(p)
    ensures p.nextTicket !in p.rejected && p.nextTicket !in p.signalOf
    ensures forall x | x in p.granted + p.waiters :: x < p.nextTicket
  {
    forall x | x in p.rejected || x in p.granted + p.waiters ensures x < p.nextTicket {
      assert x in multiset(p.granted) + multiset(p.waiters) + multiset(p.rejected);
    }
  }

  lemma RefusedCore(p: Pool, signal: nat, q: Pool)
    requires Core(p)
    requires q == p.(nextTicket := p.nextTicket + 1, signalOf := p.signalOf[p.nextTicket := signal],
                     rejected := p.rejected + {p.nextTicket})
    ensures Core(q)
  {
    NewTicket(p);
    assert q.signalOf.Keys == p.signalOf.Keys + {p.nextTicket};
    Added(p.signalOf.Keys, p.nextTicket);
    Added(p.rejected, p.nextTicket);
  }

  lemma ParkedCore(p: Pool, signal: nat, q: Pool)
    requires Core(p) && !p.closed
    requires q == p.(nextTicket := p.nextTicket + 1, signalOf := p.signalOf[p.nextTicket := signal],
                     waiters := p.waiters + [p.nextTicket])
    ensures Core(q)
  {
    var s := p.granted + p.waiters;
    NewTicket(p);
    assert q.signalOf.Keys == p.signalOf.Keys + {p.nextTicket};
    Added(p.signalOf.Keys, p.nextTicket);
    assert forall k | 0 <= k < |s| :: s[k] in s;
    assert q.granted + q.waiters == s + [p.nextTicket];
  }

  lemma StillListening(p: Pool, signal: nat, q: Pool)
    requires Served(p) && Listening(p)
    requires q.signalOf == p.signalOf[p.nextTicket := signal] && q.aborted == p.aborted
    requires q.waiters == p.waiters || (q.waiters == p.waiters + [p.nextTicket] && signal !in p.aborted)
    ensures Listening(q)
  {
    forall u | u in p.waiters ensures u != p.nextTicket && !SignalFired(q, u) { Fresh(p, u); }
  }

  lemma AcquireKeeps(p: Pool, signal: nat)
    requires Inv(p)
    ensures Inv(DoAcquire(p, signal))
  {
    var t := p.nextTicket;
    if p.closed || signal in p.aborted {
      RefusedCore(p, signal, DoAcquire(p, signal));
      StillListening(p, signal, DoAcquire(p, signal));
    } else {
      var w := p.(nextTicket := t + 1, signalOf := p.signalOf[t := signal], waiters := p.waiters + [t]);
      ParkedCore(p, signal, w);
      StillListening(p, signal, w);
      Settle(w);
    }
  }

  lemma OnAbortKeeps(p: Pool, ticket: nat)
    requires Core(p) && ticket in p.waiters
    ensures Core(OnAbort(p, ticket)) && Quiet(OnAbort(p, ticket)) && Winding(OnAbort(p, ticket))
    ensures SameAround(p, OnAbort(p, ticket))
  {
    var q := p.(waiters := Without(p.waiters, ticket), rejected := p.rejected + {ticket});
    Fresh(p, ticket);
    Removed(p.waiters, ticket);
    FifoWithout(p.granted, p.waiters, IndexOf(p.waiters, ticket));
    assert Core(q);
    PumpKeeps(q);
  }

  lemma {:induction false} ListenersKeep(p: Pool, signal: nat)
    requires Core(p) && Quiet(p) && Winding(p)
    ensures var r := RunListeners(p, signal); Core(r) && Quiet(r) && Winding(r) && SameAround(p, r)
    ensures forall t | t in RunListeners(p, signal).waiters :: !(t in p.signalOf && p.signalOf[t] == signal)
    decreases |p.waiters|
  {
    var i := FirstListening(p.waiters, p.signalOf, signal);
    if i < |p.waiters| {
      var q := OnAbort(p, p.waiters[i]);
      assert p.waiters[i] in p.waiters && |q.waiters| < |p.waiters| && RunListeners(p, signal) == RunListeners(q, signal);
      OnAbortKeeps(p, p.waiters[i]);
      hide Core, Quiet, Winding, OnAbort, Grown, RunListeners;
      ListenersKeep(q, signal);
      GrownOn(p, q, RunListeners(q, signal));
      SameSignals(p, q);
    }
  }

  lemma SameSignals(p: Pool, r: Pool)
    requires Grown(p, r)
    ensures r.signalOf == p.signalOf
  {
  }

  lemma AbortKeeps(p: Pool, signal: nat)
    requires Inv(p)
    ensures Inv(DoAbort(p, signal))
  {
    if signal !in p.aborted {
      ListenersKeep(p.(aborted := p.aborted + {signal}), signal);
    }
  }

  lemma CreatedCore(p: Pool, id: nat, q: Pool)
    requires Core(p) && id in p.pending
    requires q == p.(creating := p.creating - 1, pending := p.pending - {id}, created := p.created + {id})
    ensures p.closed ==> Core(q.(closeCalls := q.closeCalls + multiset{id}, closing := q.closing + multiset{id}))
    ensures !p.closed ==> Core(q.(entries := q.entries + [id]))
  {
    Added(p.created, id);
  }

  lemma CreateOkKeeps(p: Pool, id: nat)
    requires Inv(p) && id in p.pending
    ensures Inv(DoCreateOk(p, id))
  {
    var q := p.(creating := p.creating - 1, pending := p.pending - {id}, created := p.created + {id});
    CreatedCore(p, id, q);
    if !p.closed { Settle(q.(entries := q.entries + [id])); }
  }

  lemma FailedCore(p: Pool, id: nat, q: Pool)
    requires Core(p) && Listening(p) && id in p.pending
    requires q == p.(creating := p.creating - 1, pending := p.pending - {id})
    ensures Core(q) && Listening(q) && (q.waiters != [] ==> Core(RejectFirst(q)) && Listening(RejectFirst(q)))
  {
    if q.waiters != [] {
      RejectKeeps(q);
      Uncons(q.waiters);
    }
  }

  lemma CreateFailKeeps(p: Pool, id: nat)
    requires Inv(p) && id in p.pending
    ensures Inv(DoCreateFail(p, id))
  {
    var q := p.(creating := p.creating - 1, pending := p.pending - {id});
    FailedCore(p, id, q);
    Settle(if q.waiters == [] then q else RejectFirst(q));
  }

  lemma ReleasedCore(p: Pool, id: nat, q: Pool)
    requires Core(p) && id in p.held && q == p.(held := p.held - {id}, busy := p.busy - {id})
    ensures Core(q)
    ensures Core(q.(entries := Without(q.entries, id), closeCalls := q.closeCalls + multiset{id},
                    closing := q.closing + multiset{id}))
    ensures |Without(p.entries, id)| == |p.entries| - 1 && forall x | x in Without(p.entries, id) :: x in p.entries
  {
    Removed(p.entries, id);
  }

  lemma DiscardKeeps(p: Pool, id: nat, q: Pool)
    requires Inv(p) && id in p.held
    requires q == p.(held := p.held - {id}, busy := p.busy - {id}, entries := Without(p.entries, id),
                     closeCalls := p.closeCalls + multiset{id}, closing := p.closing + multiset{id})
    ensures Inv(q)
  {
    ReleasedCore(p, id, p.(held := p.held - {id}, busy := p.busy - {id}));
    forall x | x in q.entries ensures x != id {
      assert multiset(p.created)[id] <= 1;
      assert multiset(q.entries)[id] == 0 by { Removed(p.entries, id); }
    }
  }

  lemma ReleaseKeeps(p: Pool, id: nat, ticket: nat, discard: bool)
    requires Inv(p)
    ensures Inv(DoRelease(p, id, ticket, discard))
  {
    if id in p.held && p.held[id] == ticket {
      var q := p.(held := p.held - {id}, busy := p.busy - {id});
      if discard || p.closed {
        DiscardKeeps(p, id, DoRelease(p, id, ticket, discard));
      } else {
        ReleasedCore(p, id, q);
        Settle(q);
      }
    }
  }

  lemma CloseSettledKeeps(p: Pool, id: nat, failed: bool)
    requires Inv(p)
    ensures Inv(DoCloseSettled(p, id, failed))
  {
    hide Pump, MaybeFinishClose;
    Settle(p.(closing := p.closing - multiset{id}, failures := if failed && p.closed then p.failures + 1 else p.failures));
  }

  lemma CloseKeeps(p: Pool)
    requires Inv(p)
    ensures Inv(DoClose(p))
  {
    if !p.closed {
      var q := p.(closed := true, rejected := p.rejected + (set t | t in p.waiters), waiters := []);
      forall t: nat ensures multiset(q.rejected)[t] == multiset(p.rejected)[t] + multiset(p.waiters)[t] {
        assert multiset(p.signalOf.Keys)[t] <= 1;
        assert multiset(p.signalOf.Keys)[t] >= multiset(p.rejected)[t] + multiset(p.waiters)[t];
      }
      assert q.granted + q.waiters == (p.granted + p.waiters)[..|p.granted|];
      assert Core(q);
      FinishKeeps(q);
    }
  }

  lemma FinalKeeps(p: Pool, e: Event)
    requires Inv(p) && (e.FinalCall? || e.FinalSettled? || e.SettleClose?)
    ensures Inv(Step(p, e))
  {
    if e.FinalCall? && e.id in p.finalists {
      assert multiset(p.finalists) == multiset(p.finalists - {e.id}) + multiset{e.id};
    }
  }

  lemma StepKeeps(p: Pool, e: Event)
    requires Inv(p)
    ensures Inv(Step(p, e))
  {
    match e
    case Acquire(signal) => AcquireKeeps(p, signal);
    case Abort(signal) => AbortKeeps(p, signal);
    case CreateOk(id) => if id in p.pending { CreateOkKeeps(p, id); }
    case CreateFail(id) => if id in p.pending { CreateFailKeeps(p, id); }
    case Release(id, ticket, discard) => ReleaseKeeps(p, id, ticket, discard);
    case CloseSettled(id, failed) => CloseSettledKeeps(p, id, failed);
    case Close => CloseKeeps(p);
    case FinalCall(_) => FinalKeeps(p, e);
    case FinalSettled(_, _) => FinalKeeps(p, e);
    case SettleClose => FinalKeeps(p, e);
  }

  // ---- what one event does to leases, waiters and discards ----

  lemma PumpFrame(p: Pool)
    requires p.held.Keys == p.busy
    ensures SameAround(p, Pump(p)) && SameAround(p, MaybeFinishClose(Pump(p)))
  {
    PumpLoopFrame(p);
  }

  lemma {:induction false} ListenersFrame(p: Pool, signal: nat)
    requires Core(p)
    ensures SameAround(p, RunListeners(p, signal))
    decreases |p.waiters|
  {
    var i := FirstListening(p.waiters, p.signalOf, signal);
    if i < |p.waiters| {
      assert p.waiters[i] in p.waiters;
      OnAbortKeeps(p, p.waiters[i]);
      ListenersFrame(OnAbort(p, p.waiters[i]), signal);
    }
  }

  lemma AbortFrame(p: Pool, signal: nat)
    requires Core(p)
    ensures var r := DoAbort(p, signal);
      Grown(p, r) && r.closing == p.closing && r.aborted == p.aborted + {signal} && r.outcome == p.outcome
  {
    if signal !in p.aborted { ListenersFrame(p.(aborted := p.aborted + {signal}), signal); }
  }

  lemma AcquireFrame(p: Pool, signal: nat)
    requires p.held.Keys == p.busy
    ensures var q, r := p.(signalOf := p.signalOf[p.nextTicket := signal]), DoAcquire(p, signal);
      && Grown(if p.closed || signal in p.aborted then q else q.(waiters := q.waiters + [p.nextTicket]), r)
      && r.closing == p.closing && r.outcome == p.outcome && r.aborted == p.aborted && r.nextTicket == p.nextTicket + 1
  {
    PumpFrame(p.(nextTicket := p.nextTicket + 1, signalOf := p.signalOf[p.nextTicket := signal],
                 waiters := p.waiters + [p.nextTicket]));
  }

  lemma ReleaseFrame(p: Pool, id: nat, ticket: nat, discard: bool)
    requires p.held.Keys == p.busy && id in p.held && p.held[id] == ticket && id in p.entries
    ensures var r := DoRelease(p, id, ticket, discard);
      && Grown(p.(held := p.held - {id}), r) && r.outcome == p.outcome && r.aborted == p.aborted
      && r.closing == if discard || p.closed then p.closing + multiset{id} else p.closing
  {
    if !discard && !p.closed { PumpFrame(p.(held := p.held - {id}, busy := p.busy - {id})); }
  }

  /** Events outside the callers' control: they hand out leases, but start no close while the pool is open. */
  ghost predicate Quietly(p: Pool, r: Pool) {
    && Grown(p, r) && r.aborted == p.aborted && (p.outcome != Unsettled ==> r.outcome != Unsettled)
    && (!r.closed ==> forall id | id in r.closing :: id in p.closing)
  }

  predicate Environment(e: Event) {
    e.CreateOk? || e.CreateFail? || e.CloseSettled? || e.FinalCall? || e.FinalSettled? || e.SettleClose?
  }

  lemma CreateOkFrame(p: Pool, id: nat)
    requires p.held.Keys == p.busy
    ensures Quietly(p, DoCreateOk(p, id))
  {
    if !p.closed {
      PumpFrame(p.(creating := if p.creating > 0 then p.creating - 1 else 0, pending := p.pending - {id},
                   created := p.created + {id}, entries := p.entries + [id]));
    }
  }

  lemma CreateFailFrame(p: Pool, id: nat)
    requires p.held.Keys == p.busy
    ensures Quietly(p, DoCreateFail(p, id))
  {
    var q := p.(creating := if p.creating > 0 then p.creating - 1 else 0, pending := p.pending - {id});
    if q.waiters != [] { Uncons(q.waiters); }
    PumpFrame(if q.waiters == [] then q else RejectFirst(q));
  }

  lemma CloseSettledFrame(p: Pool, id: nat, failed: bool)
    requires p.held.Keys == p.busy
    ensures Quietly(p, DoCloseSettled(p, id, failed))
  {
    PumpFrame(p.(closing := p.closing - multiset{id}, failures := if failed && p.closed then p.failures + 1 else p.failures));
  }

  lemma FinalFrame(p: Pool, e: Event)
    requires p.held.Keys == p.busy && (e.FinalCall? || e.FinalSettled? || e.SettleClose?)
    ensures Quietly(p, Step(p, e))
  {
    hide Pump, MaybeFinishClose, FirstBusy;
  }

  lemma EnvironmentFrame(p: Pool, e: Event)
    requires p.held.Keys == p.busy && Environment(e)
    ensures Quietly(p, Step(p, e))
  {
    hide DoCreateOk, DoCreateFail, DoCloseSettled;
    match e
    case CreateOk(id) => if id in p.pending { CreateOkFrame(p, id); }
    case CreateFail(id) => if id in p.pending { CreateFailFrame(p, id); }
    case CloseSettled(id, failed) => if id in p.closing { CloseSettledFrame(p, id, failed); }
    case _ =>
      hide Step, Quietly;
      FinalFrame(p, e);
  }

  lemma {:induction false} RunKeeps(max: nat, events: seq<Event>)
    ensures Inv(Run(Initial(max), events))
    decreases |events|
  {
    if events != [] {
      RunKeeps(max, events[..|events| - 1]);
      StepKeeps(Run(Initial(max), events[..|events| - 1]), events[|events| - 1]);
    }
  }

  // ---- main results: every sequence of events, in any interleaving ----

  /** While no discard is closing, a parked waiter means the pool is working at capacity or for that waiter. */
  lemma Progress(max: nat, events: seq<Event>)
    ensures var p := Run(Initial(max), events);
      !p.closed && p.closing == multiset{} && p.waiters != [] ==>
        && (forall id | id in p.entries :: id in p.busy)
        && (p.creating >= |p.waiters| || |p.entries| + p.creating == max)
  {
    RunKeeps(max, events);
  }

  lemma ParkedLater(p: Pool, t: nat)
    requires Fifo(p) && t in p.granted
    ensures forall u | u in p.waiters :: t < u
  {
    var i :| 0 <= i < |p.granted| && p.granted[i] == t;
    forall u | u in p.waiters ensures t < u {
      var j :| 0 <= j < |p.waiters| && p.waiters[j] == u;
      assert (p.granted + p.waiters)[i] < (p.granted + p.waiters)[|p.granted| + j];
    }
  }

  lemma OrderedGrants(p: Pool, t: nat, u: nat)
    requires Served(p) && Fifo(p) && t in p.granted && u < t
    ensures u in p.granted || u in p.rejected
  {
    assert t in multiset(p.granted);
    assert multiset(p.signalOf.Keys)[t] >= 1;
    assert t in p.signalOf.Keys;
    assert multiset(p.signalOf.Keys)[u] == 1;
    assert u in multiset(p.granted) || u in multiset(p.waiters) || u in multiset(p.rejected);
    ParkedLater(p, t);
    assert u !in p.waiters;
  }

  lemma OncePerCaller(p: Pool, t: nat)
    requires Served(p) && t < p.nextTicket
    ensures multiset(p.granted)[t] + multiset(p.waiters)[t] + multiset(p.rejected)[t] == 1
  {
    assert multiset(p.signalOf.Keys)[t] == 1;
  }

  /** Grants follow arrival: whoever arrived before a granted caller has been granted or rejected. And every
      caller is granted, parked or rejected, exactly one of these and once. */
  lemma Fairness(max: nat, events: seq<Event>)
    ensures var p := Run(Initial(max), events);
      && Increasing(p.granted)
      && (forall t, u: nat | t in p.granted && u < t :: u in p.granted || u in p.rejected)
      && (forall t: nat | t < p.nextTicket ::
            multiset(p.granted)[t] + multiset(p.waiters)[t] + multiset(p.rejected)[t] == 1)
  {
    RunKeeps(max, events);
    var p := Run(Initial(max), events);
    assert p.granted == (p.granted + p.waiters)[..|p.granted|];
    forall t, u: nat | t in p.granted && u < t ensures u in p.granted || u in p.rejected { OrderedGrants(p, t, u); }
    forall t: nat | t < p.nextTicket
      ensures multiset(p.granted)[t] + multiset(p.waiters)[t] + multiset(p.rejected)[t] == 1 { OncePerCaller(p, t); }
  }

  lemma Safety(max: nat, events: seq<Event>)
    ensures var p := Run(Initial(max), events);
      && |p.entries| + p.creating <= max
      && p.held.Keys == p.busy && (forall id | id in p.busy :: id in p.entries)
      && (forall id, other | id in p.held && other in p.held && id != other :: p.held[id] != p.held[other])
  {
    RunKeeps(max, events);
  }

  lemma SettledClosed(p: Pool)
    requires Core(p) && p.outcome != Unsettled
    ensures p.busy == {} && p.creating == 0 && p.waiters == [] && p.closed
    ensures forall id | id in p.created :: p.closeCalls[id] == 1
    ensures forall id: nat | id !in p.created :: p.closeCalls[id] == 0
  {
    assert multiset(p.created) == p.closeCalls;
  }

  /** When the promise of close() settles, nothing is busy or being created, and every instance ever created
      has had close called exactly once. */
  lemma ClosedMeansClosed(max: nat, events: seq<Event>)
    ensures var p := Run(Initial(max), events);
      p.outcome != Unsettled ==>
        && p.closed && p.busy == {} && p.creating == 0 && p.waiters == []
        && (forall id | id in p.created :: p.closeCalls[id] == 1)
        && (forall id: nat | id !in p.created :: p.closeCalls[id] == 0)
  {
    RunKeeps(max, events);
    if Run(Initial(max), events).outcome != Unsettled { SettledClosed(Run(Initial(max), events)); }
  }

  /** Before that, no instance is closed twice, and a closed pool with nothing left to wait for is finalizing. */
  lemma ClosingAdvances(max: nat, events: seq<Event>)
    ensures var p := Run(Initial(max), events);
      && (forall id: nat :: p.closeCalls[id] <= 1)
      && (p.closed && p.busy == {} && p.creating == 0 && p.closing == multiset{} ==> p.finalizing)
      && (p.closed ==> p.waiters == [])
  {
    RunKeeps(max, events);
    var p := Run(Initial(max), events);
    forall id: nat ensures p.closeCalls[id] <= 1 {
      assert multiset(p.created)[id] <= 1;
    }
  }

  lemma DiscardRemoves(p: Pool, id: nat)
    requires Bounded(p) && id in p.entries
    ensures id !in Without(p.entries, id)
  {
    assert multiset(p.created)[id] <= 1;
    Removed(p.entries, id);
    assert multiset(Without(p.entries, id))[id] == 0;
  }

  ghost predicate LeasesKept(p: Pool, r: Pool) {
    forall id | id in p.held :: id in r.held && r.held[id] == p.held[id]
  }

  lemma CallerEventsKeepLeases(p: Pool, signal: nat)
    requires Core(p)
    ensures LeasesKept(p, Step(p, Acquire(signal))) && LeasesKept(p, Step(p, Abort(signal)))
  {
    AcquireFrame(p, signal);
    AbortFrame(p, signal);
  }

  lemma CreationsKeepLeases(p: Pool, id: nat)
    requires Core(p)
    ensures LeasesKept(p, Step(p, CreateOk(id))) && LeasesKept(p, Step(p, CreateFail(id)))
  {
    CreateOkFrame(p, id);
    CreateFailFrame(p, id);
  }

  lemma ReleaseKeepsOthers(p: Pool, id: nat, ticket: nat, discard: bool)
    requires Core(p)
    ensures forall other | other in p.held && (other != id || p.held[id] != ticket) ::
      other in Step(p, Release(id, ticket, discard)).held && Step(p, Release(id, ticket, discard)).held[other] == p.held[other]
  {
    if id in p.held && p.held[id] == ticket { ReleaseFrame(p, id, ticket, discard); }
  }

  /** A lease ends, with its instance still in the pool, only by a healthy release of that very lease. */
  lemma ReturnedOnlyByRelease(p: Pool, e: Event, id: nat)
    requires Core(p) && id in p.held && id in Step(p, e).entries
    ensures || (id in Step(p, e).held && Step(p, e).held[id] == p.held[id])
            || (e == Release(id, p.held[id], false) && !p.closed)
  {
    match e
    case Acquire(signal) => CallerEventsKeepLeases(p, signal);
    case Abort(signal) => CallerEventsKeepLeases(p, signal);
    case CreateOk(other) => CreationsKeepLeases(p, other);
    case CreateFail(other) => CreationsKeepLeases(p, other);
    case Release(other, ticket, discard) =>
      ReleaseKeepsOthers(p, other, ticket, discard);
      if discard || p.closed { DiscardRemoves(p, id); }
    case CloseSettled(other, failed) => CloseSettledFrame(p, other, failed);
    case _ =>
  }
}
