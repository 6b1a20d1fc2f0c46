/** The runtime's own bookkeeping, as an object: active calls, background promises and the closure that close() runs. */
module WasmRuntimeClass {
  import opened Common
  import opened RuntimeModel
  import P = PoolModel

  class WasmRuntime {
    const defaultTimeoutMs: Option<Number>
    var load: Load                  // the load promise
    var activeCalls: nat
    var closeWaits: bool            // a resolver of close() is among the active waiters
    var background: set<nat>        // the tracked promises, by the ticket of their lease
    var stage: Stage                // where the closure of close() stands; Open before it is called
    ghost var model: Runtime

    ghost predicate Agrees()
      reads this
    {
      && (defaultTimeoutMs.Some? ==> Acceptable(defaultTimeoutMs.value))
      && load == model.load && activeCalls == |model.calls| && background == model.guests.Keys && stage == model.stage
      && (closeWaits <==> model.stage == WaitCalls && model.calls != map[])
      && (forall c | c in model.calls :: c < model.nextCall)
    }

    constructor (poolSize: nat, timeoutMs: Option<Number>)
      requires timeoutMs.Some? ==> Acceptable(timeoutMs.value)
      ensures Agrees() && model == Initial(poolSize) && defaultTimeoutMs == timeoutMs
    {
      defaultTimeoutMs := timeoutMs;
      load, activeCalls, closeWaits, background, stage := NotStarted, 0, false, {}, Open;
      model := Initial(poolSize);
    }

    /** invoke() up to its first await; `accepted` when it gets there. The call is counted before resolveDeadline may
        throw, and nothing uncounts it then. */
    method BeginCall(options: CallOptions, now: real) returns (accepted: bool)
      requires Agrees()
      modifies this
      ensures Agrees() && model == Step(old(model), Invoke(options)) && accepted == (old(stage) == Open && !Refused(options))
      ensures activeCalls == if old(stage) == Open then old(activeCalls) + 1 else old(activeCalls)
    {
      if stage != Open {
        return false;
      }
      activeCalls := activeCalls + 1;
      model := Step(model, Invoke(options));
      DeadlineRefusedIff(options, defaultTimeoutMs, now);
      var deadline := ResolveDeadline(options, defaultTimeoutMs, now);
      if deadline.Err? {
        return false;
      }
      if load == NotStarted {
        load := InFlight;
      }
      return true;
    }

    /** The finally block of invoke(): the last call out wakes close(). */
    method EndCall(call: nat)
      requires Agrees() && call in model.calls && model.calls[call] == Unwinding
      modifies this
      ensures Agrees() && model == Step(old(model), Resume(call, 0, false, false))
    {
      assert |model.calls.Keys - {call}| == |model.calls.Keys| - 1;
      assert (model.calls - {call}).Keys == model.calls.Keys - {call};
      activeCalls := activeCalls - 1;
      if activeCalls == 0 {
        closeWaits := false;
      }
      model := Step(model, Resume(call, 0, false, false));
    }

    /** The dispatch of a granted lease is tracked until it settles. */
    method TrackDispatch(call: nat, id: nat, ticket: nat)
      requires Agrees() && call in model.calls && model.calls[call] == Acquiring(ticket)
      requires ticket !in model.pool.rejected && id in model.pool.held && model.pool.held[id] == ticket && call !in model.pool.aborted
      modifies this
      ensures Agrees() && model == Step(old(model), Resume(call, id, false, false)) && ticket in background
    {
      background := background + {ticket};
      model := Step(model, Resume(call, id, false, false));
      assert model.calls.Keys == old(model).calls.Keys;
    }

    /** A snapshot of close() that holds the promise no longer waits for it. */
    method BackgroundSettled(ticket: nat)
      requires Agrees() && ticket in model.guests && model.guests[ticket].Returned?
      modifies this
      ensures Agrees() && model == Step(old(model), GuestDone(ticket)) && background == old(background) - {ticket}
      ensures activeCalls == old(activeCalls) && stage == old(stage) && model.pool == old(model).pool
      ensures old(Inv(model)) ==> Inv(model)
    {
      if Inv(model) { StepKeeps(model, GuestDone(ticket)); }
      background := background - {ticket};
      model := Step(model, GuestDone(ticket));
    }

    /** close() up to its first await; a second call changes nothing. */
    method Close()
      requires Agrees()
      modifies this
      ensures Agrees() && model == Step(old(model), CloseRuntime)
    {
      if stage != Open {
        return;
      }
      closeWaits := activeCalls > 0;
      stage := if activeCalls > 0 then WaitCalls else WaitLoad;
      model := Step(model, CloseRuntime);
    }

    /** The closure of close() is resumed: it goes on exactly when what it awaits is there. */
    method ResumeClose(poolSettled: bool) returns (closesPool: bool)
      requires Agrees() && poolSettled == (model.pool.outcome != P.Unsettled)
      modifies this
      ensures Agrees() && model == Step(old(model), Advance)
      ensures closesPool <==> old(stage).WaitBackground? && stage == PoolClosing && load == Loaded
    {
      closesPool := false;
      ghost var before := model;
      match stage {
        case WaitCalls =>
          if activeCalls == 0 {
            stage := WaitLoad;
          }
        case WaitLoad =>
          if load != InFlight {
            stage := WaitBackground(background);
          }
        case WaitBackground(snapshot) =>
          if snapshot !! background {
            stage := PoolClosing;
            closesPool := load == Loaded;
          }
        case PoolClosing =>
          if load != Loaded || poolSettled {
            stage := Done;
          }
        case _ =>
      }
      model := Step(model, Advance);
    }
  }
}
