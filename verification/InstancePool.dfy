/** The pool of wasm/runtime.ts in its own form: an object whose methods update its fields. */
module InstancePoolClass {
  import opened PoolModel

  class InstancePool {
    const max: nat
    var entries: seq<nat>
    var busy: set<nat>
    var waiters: seq<nat>
    var creating: nat
    var nextId: nat
    var closed: bool
    var finalizing: bool
    var closeFailures: nat
    var nextTicket: nat           // names the promise of the next call of acquire
    var signalOf: map<nat, nat>   // the signal each waiter listens to
    var aborted: set<nat>         // the signals that have fired
    ghost var model: Pool         // these fields, and what the pool's callers and promises have seen

    ghost predicate Agrees()
      reads this
    {
      && model.max == max && model.entries == entries && model.busy == busy && model.waiters == waiters
      && model.creating == creating && model.nextId == nextId && model.closed == closed
      && model.finalizing == finalizing && model.failures == closeFailures
      && model.nextTicket == nextTicket && model.signalOf == signalOf && model.aborted == aborted
    }

    constructor (size: nat)
      ensures Agrees() && model == Initial(size)
    {
      max := size;
      entries, busy, waiters := [], {}, [];
      creating, nextId, closeFailures, nextTicket := 0, 1, 0, 0;
      closed, finalizing := false, false;
      signalOf, aborted := map[], {};
      model := Initial(size);
    }

    /** The counters reported to health(): leases out, instances, parked callers. */
    method Stats() returns (active: nat, total: nat, queued: nat)
      requires Agrees() && Core(model)
      ensures active == |model.held| && total == |model.entries| && queued == |model.waiters|
      ensures active <= total <= max
    {
      active, total, queued := |busy|, |entries|, |waiters|;
      assert |model.held| == |model.held.Keys|;
      BusyAreEntries(entries, busy);
    }

    method StartCreating()
      requires Agrees()
      modifies this
      ensures Agrees() && model == StartCreate(old(model))
    {
      nextId := nextId + 1;
      creating := creating + 1;
      model := StartCreate(model);
    }

    method MaybeFinish()
      requires Agrees()
      modifies this
      ensures Agrees() && model == MaybeFinishClose(old(model))
    {
      if !closed || finalizing || creating > 0 {
        return;
      }
      var i := 0;
      while i < |entries|
        invariant i <= |entries| && forall k | 0 <= k < i :: entries[k] !in busy
      {
        if entries[i] in busy {
          assert FirstBusy(model);
          return;
        }
        i := i + 1;
      }
      finalizing := true;
      entries := [];
      model := MaybeFinishClose(model);
    }

    /** The first waiter leaves the queue: rejected if its signal has fired, otherwise with the idle instance. */
    method ServeFirst(id: nat)
      requires Agrees() && waiters != []
      modifies this
      ensures Agrees() && model == if SignalFired(old(model), old(waiters)[0]) then RejectFirst(old(model)) else Grant(old(model), id)
      ensures |waiters| == old(|waiters|) - 1 && entries == old(entries) && creating == old(creating)
    {
      var waiter := waiters[0];
      waiters := waiters[1..];
      if waiter in signalOf && signalOf[waiter] in aborted {
        model := RejectFirst(model);
        return;
      }
      busy := busy + {id};
      model := Grant(model, id);
    }

    /** Serves parked callers from idle entries, then starts the creations they still need. */
    method PumpWaiters()
      requires Agrees()
      modifies this
      ensures Agrees() && model == Pump(old(model))
    {
      if closed {
        MaybeFinish();
        return;
      }
      while waiters != []
        invariant Agrees() && !model.closed && PumpLoop(model) == PumpLoop(old(model))
        decreases |waiters|, if |entries| + creating < max then max - |entries| - creating else 0
      {
        var i := FirstIdle(entries, busy);
        if i < |entries| {
          ServeFirst(entries[i]);
          continue;
        }
        if creating >= |waiters| {
          return;
        }
        if |entries| + creating >= max {
          return;
        }
        StartCreating();
      }
    }

    method AcquireLease(signal: nat)
      requires Agrees()
      modifies this
      ensures Agrees() && model == DoAcquire(old(model), signal)
    {
      hide Pump, MaybeFinishClose, PumpLoop;
      var waiter := nextTicket;
      nextTicket := nextTicket + 1;
      signalOf := signalOf[waiter := signal];
      model := model.(nextTicket := waiter + 1, signalOf := model.signalOf[waiter := signal]);
      if closed || signal in aborted {
        model := model.(rejected := model.rejected + {waiter});
        return;
      }
      waiters := waiters + [waiter];
      model := model.(waiters := model.waiters + [waiter]);
      PumpWaiters();
    }

    /** The abort listener of one parked caller. */
    method OnAborted(waiter: nat)
      requires Agrees()
      modifies this
      ensures Agrees() && model == OnAbort(old(model), waiter)
    {
      hide Pump, MaybeFinishClose, PumpLoop;
      var index := IndexOf(waiters, waiter);
      if index < |waiters| {
        waiters := waiters[..index] + waiters[index + 1..];
      }
      model := model.(waiters := Without(model.waiters, waiter), rejected := model.rejected + {waiter});
      PumpWaiters();
    }

    /** A discarded instance leaves the pool before it is closed. */
    method Remove(id: nat, ticket: nat, discard: bool, index: nat)
      requires Agrees() && id in model.held && model.held[id] == ticket && (discard || closed)
      requires index == IndexOf(entries, id) && index < |entries|
      modifies this
      ensures Agrees() && model == DoRelease(old(model), id, ticket, discard)
    {
      hide Pump, IndexOf;
      busy := busy - {id};
      entries := entries[..index] + entries[index + 1..];
      model := DoRelease(model, id, ticket, discard);
    }

    /** Up to the await of the instance's close; `awaiting` tells whether there is one. */
    method ReleaseEntry(id: nat, ticket: nat, discard: bool) returns (awaiting: bool)
      requires Agrees() && id in model.held && model.held[id] == ticket
      modifies this
      ensures Agrees() && model == DoRelease(old(model), id, ticket, discard)
      ensures awaiting <==> id in old(model).entries && (discard || old(model).closed)
    {
      hide Pump, MaybeFinishClose, PumpLoop;
      var index := IndexOf(entries, id);
      if index == |entries| {
        model := DoRelease(model, id, ticket, discard);
        return false;
      }
      if discard || closed {
        Remove(id, ticket, discard, index);
        return true;
      }
      busy := busy - {id};
      model := model.(held := model.held - {id}, busy := model.busy - {id});
      PumpWaiters();
      return false;
    }

    /** What follows the await in release, and in the continuation of a creation that ended after close. */
    method AfterClose(id: nat, failed: bool)
      requires Agrees() && id in model.closing
      modifies this
      ensures Agrees() && model == DoCloseSettled(old(model), id, failed)
    {
      hide Pump, MaybeFinishClose, PumpLoop;
      if failed && closed {
        closeFailures := closeFailures + 1;
      }
      model := model.(closing := model.closing - multiset{id}, failures := closeFailures);
      PumpWaiters();
      MaybeFinish();
    }

    method Created(id: nat) returns (awaiting: bool)
      requires Agrees() && id in model.pending && creating > 0
      modifies this
      ensures Agrees() && model == DoCreateOk(old(model), id)
      ensures awaiting <==> old(model).closed
    {
      hide Pump, MaybeFinishClose, PumpLoop;
      creating := creating - 1;
      model := model.(creating := creating, pending := model.pending - {id}, created := model.created + {id});
      if closed {
        model := model.(closeCalls := model.closeCalls + multiset{id}, closing := model.closing + multiset{id});
        return true;
      }
      entries := entries + [id];
      model := model.(entries := model.entries + [id]);
      PumpWaiters();
      return false;
    }

    method CreationFailed(id: nat)
      requires Agrees() && id in model.pending && creating > 0
      modifies this
      ensures Agrees() && model == DoCreateFail(old(model), id)
    {
      hide Pump, MaybeFinishClose, PumpLoop;
      creating := creating - 1;
      model := model.(creating := creating, pending := model.pending - {id});
      if waiters != [] {
        waiters := waiters[1..];
        model := RejectFirst(model);
      }
      PumpWaiters();
      MaybeFinish();
    }

    method CloseAll()
      requires Agrees()
      modifies this
      ensures Agrees() && model == DoClose(old(model))
    {
      hide Pump, MaybeFinishClose, PumpLoop;
      if closed {
        return;
      }
      closed := true;
      waiters := [];
      model := model.(closed := true, rejected := model.rejected + (set t | t in model.waiters), waiters := []);
      MaybeFinish();
    }
  }

  lemma {:induction false} BusyAreEntries(entries: seq<nat>, busy: set<nat>)
    requires forall id | id in busy :: id in entries
    ensures |busy| <= |entries|
  {
    if entries == [] {
      assert busy == {};
    } else {
      BusyAreEntries(entries[1..], busy - {entries[0]});
    }
  }
}
