/** The attempts of one call of invoke() in wasm/runtime.ts: what the observer sees and how the call ends. */
module RetryTrace {
  import opened ErrorCatalog

  datatype Policy = Policy(maxAttempts: nat, initialDelay: real, maxDelay: real, transientCodes: set<string>) {
    /** What normalizeRetryPolicy lets through. */
    predicate Valid() { 1 <= maxAttempts <= 10 && 0.0 <= initialDelay <= maxDelay }
  }

  datatype Call = Call(id: string, operation: string, target: string, component: bool, allowRetry: bool, retrySafe: bool)

  datatype Error = GuestError(code: string, retryable: bool) | OtherError(code: string)

  /** How an attempt settles: with a validated response, or with something thrown. */
  datatype Outcome = Succeeds | Answers(error: ErrorCode) | Throws(thrown: Error) | Crashes

  datatype Signal = Quiet | Cancelled | Closed | Deadline

  /** One attempt as its environment decides it: the abort signal when the attempt settles, and when the race of the
      retry delay is decided; a caller's own sleep may also reject. */
  datatype Attempt = Attempt(queued: bool, outcome: Outcome, signal: Signal, delaySignal: Signal, sleepRejects: bool)

  /** The events of an attempt carry the call's id, operation and target; waiting for an instance only its id. */
  datatype Event = Event(id: string, operation: string, target: string, kind: Kind) | Queued(id: string)
  datatype Kind = Start(attempt: nat) | Success(attempt: nat) | Failure(attempt: nat, code: string) | Retry(attempt: nat)

  /** `SleepThrew`: with whatever the sleep rejected with. */
  datatype Ending = Returned | Threw(error: Error) | SleepThrew

  datatype Trace = Trace(events: seq<Event>, delays: seq<real>, ending: Ending)

  function Reason(s: Signal): Error {
    OtherError(match s case Quiet => "" case Cancelled => "WASM_CANCELLED" case Closed => "WASM_CLOSED"
                       case Deadline => "WASM_DEADLINE_EXCEEDED")
  }

  function MaxAttempts(c: Call, p: Policy): nat { if c.allowRetry && c.retrySafe then p.maxAttempts else 1 }

  function Say(c: Call, kind: Kind): Event { Event(c.id, c.operation, c.target, kind) }

  /** What the catch block makes of a failed attempt. */
  function Caught(c: Call, a: Attempt): Error
    requires !a.outcome.Succeeds?
  {
    if a.signal != Quiet then Reason(a.signal) else
    match a.outcome
    case Answers(code) => GuestError(Name(code), Retryable(code))
    case Throws(error) => error
    case Crashes => OtherError(if c.component then "WASM_INVOCATION_FAILED" else "WASM_ADAPTER_REJECTED")
  }

  predicate SafeTransient(p: Policy, e: Error) {
    e.GuestError? && e.code != "deadline_exceeded" && e.code != "cancellation_requested" && e.retryable && e.code in p.transientCodes
  }

  function Power(n: nat): real { if n == 0 then 1.0 else 2.0 * Power(n - 1) }

  function Delay(p: Policy, attempt: nat): real
    requires attempt >= 1
  {
    var grown := p.initialDelay * Power(attempt - 1);
    if p.maxDelay <= grown then p.maxDelay else grown
  }

  predicate Retries(c: Call, p: Policy, a: Attempt, n: nat) {
    !a.outcome.Succeeds? && n < MaxAttempts(c, p) && SafeTransient(p, Caught(c, a))
  }

  /** Attempt `n` fails in a way that is retried, and the delay after it runs out. */
  predicate Passes(c: Call, p: Policy, env: nat -> Attempt, n: nat) {
    Retries(c, p, env(n), n) && !Interrupted(env(n))
  }

  /** The delay does not run out. */
  predicate Interrupted(a: Attempt) { a.delaySignal != Quiet || a.sleepRejects }

  function Interruption(a: Attempt): Ending { if a.delaySignal != Quiet then Threw(Reason(a.delaySignal)) else SleepThrew }

  function Waited(c: Call, a: Attempt): seq<Event> { if c.component && a.queued then [Queued(c.id)] else [] }

  function Settled(c: Call, a: Attempt, n: nat): Event {
    Say(c, if a.outcome.Succeeds? then Success(n) else Failure(n, Caught(c, a).code))
  }

  function Announced(c: Call, p: Policy, a: Attempt, n: nat): seq<Event> {
    if Retries(c, p, a, n) then [Say(c, Retry(n + 1))] else []
  }

  /** What attempt `n` itself shows. */
  function Shown(c: Call, p: Policy, a: Attempt, n: nat): seq<Event> {
    [Say(c, Start(n))] + Waited(c, a) + [Settled(c, a, n)] + Announced(c, p, a, n)
  }

  /** The call from attempt `n` on. */
  function From(c: Call, p: Policy, env: nat -> Attempt, n: nat): Trace
    requires 1 <= n
    decreases MaxAttempts(c, p) - n
  {
    var a := env(n);
    if Passes(c, p, env, n) then
      var rest := From(c, p, env, n + 1);
      Trace(Shown(c, p, a, n) + rest.events, [Delay(p, n)] + rest.delays, rest.ending)
    else if a.outcome.Succeeds? then Trace(Shown(c, p, a, n), [], Returned)
    else if !Retries(c, p, a, n) then Trace(Shown(c, p, a, n), [], Threw(Caught(c, a)))
    else Trace(Shown(c, p, a, n), [Delay(p, n)], Interruption(a))
  }

  /** One turn of the loop: what it shows, and whether it is the last. */
  lemma Turn(c: Call, p: Policy, env: nat -> Attempt, n: nat)
    requires n >= 1
    ensures var a := env(n); var t := From(c, p, env, n); var begun := [Say(c, Start(n))] + Waited(c, a);
      if a.outcome.Succeeds? then t == Trace(begun + [Say(c, Success(n))], [], Returned)
      else
        var failed := begun + [Say(c, Failure(n, Caught(c, a).code))];
        if !Retries(c, p, a, n) then t == Trace(failed, [], Threw(Caught(c, a)))
        else
          var shown, delays := failed + [Say(c, Retry(n + 1))], [Delay(p, n)];
          if Interrupted(a) then t == Trace(shown, delays, Interruption(a))
          else t == Before(shown, delays, From(c, p, env, n + 1))
  {
    hide Caught, SafeTransient, Delay, Waited;
  }

  /** The loop of invoke(). */
  method Invoke(c: Call, p: Policy, env: nat -> Attempt) returns (t: Trace)
    requires p.Valid()
    ensures t == From(c, p, env, 1)
  {
    hide Caught, SafeTransient, Delay, From, Shown, Say;
    var events: seq<Event>, delays: seq<real> := [], [];
    var maxAttempts := if c.allowRetry && c.retrySafe then p.maxAttempts else 1;
    var attempt := 1;
    while attempt <= maxAttempts
      invariant 1 <= attempt <= maxAttempts
      invariant From(c, p, env, 1) == Before(events, delays, From(c, p, env, attempt))
    {
      Turn(c, p, env, attempt);
      var a := env(attempt);
      var shown := [Say(c, Start(attempt))] + Waited(c, a);
      if a.outcome.Succeeds? {
        shown := shown + [Say(c, Success(attempt))];
        return Trace(events + shown, delays, Returned);
      }
      var error := Caught(c, a);
      var canRetry := attempt < maxAttempts && SafeTransient(p, error);
      shown := shown + [Say(c, Failure(attempt, error.code))];
      if !canRetry {
        return Trace(events + shown, delays, Threw(error));
      }
      shown := shown + [Say(c, Retry(attempt + 1))];
      var delay := Delay(p, attempt);
      if a.delaySignal != Quiet {
        return Trace(events + shown, delays + [delay], Threw(Reason(a.delaySignal)));
      }
      if a.sleepRejects {
        return Trace(events + shown, delays + [delay], SleepThrew);
      }
      BeforeTwice(events, shown, delays, [delay], From(c, p, env, attempt + 1));
      events := events + shown;
      delays := delays + [delay];
      attempt := attempt + 1;
    }
    assert false;
  }

  function Before(events: seq<Event>, delays: seq<real>, t: Trace): Trace {
    Trace(events + t.events, delays + t.delays, t.ending)
  }

  lemma BeforeTwice(e0: seq<Event>, e1: seq<Event>, d0: seq<real>, d1: seq<real>, t: Trace)
    ensures Before(e0, d0, Before(e1, d1, t)) == Before(e0 + e1, d0 + d1, t)
  {
    assert e0 + (e1 + t.events) == (e0 + e1) + t.events;
    assert d0 + (d1 + t.delays) == (d0 + d1) + t.delays;
  }

  // ---- the language of traces ----

  /** Reading a trace: `next` is the number the next attempt must carry. */
  datatype Reading = Ready(next: nat) | Running(now: nat, queued: bool) | Failing(now: nat) | Over | Wrong

  function Read(c: Call, r: Reading, e: Event): Reading {
    if e.Queued? then (if r.Running? && !r.queued && e.id == c.id then Running(r.now, true) else Wrong)
    else if (e.id, e.operation, e.target) != (c.id, c.operation, c.target) then Wrong else
    match r
    case Ready(n) => if e.kind == Start(n) then Running(n, false) else Wrong
    case Running(n, _) =>
      if e.kind == Success(n) then Over
      else if e.kind.Failure? && e.kind.attempt == n then Failing(n) else Wrong
    case Failing(n) => if e.kind == Retry(n + 1) then Ready(n + 1) else Wrong
    case Over => Wrong
    case Wrong => Wrong
  }

  function ReadAll(c: Call, r: Reading, events: seq<Event>): Reading
    decreases |events|
  {
    if events == [] then r else ReadAll(c, Read(c, r, events[0]), events[1..])
  }

  lemma {:induction false} ReadOn(c: Call, r: Reading, xs: seq<Event>, ys: seq<Event>)
    ensures ReadAll(c, r, xs + ys) == ReadAll(c, ReadAll(c, r, xs), ys)
    decreases |xs|
  {
    if xs == [] {
      assert xs + ys == ys;
    } else {
      assert (xs + ys)[1..] == xs[1..] + ys;
      ReadOn(c, Read(c, r, xs[0]), xs[1..], ys);
    }
  }

  function AfterShown(c: Call, p: Policy, a: Attempt, n: nat): Reading {
    if a.outcome.Succeeds? then Over else if Retries(c, p, a, n) then Ready(n + 1) else Failing(n)
  }

  lemma ReadOne(c: Call, r: Reading, e: Event)
    ensures ReadAll(c, r, [e]) == Read(c, r, e)
  {
    assert [e][1..] == [];
  }

  lemma ReadWaited(c: Call, a: Attempt, n: nat)
    ensures ReadAll(c, Running(n, false), Waited(c, a)) == Running(n, Waited(c, a) != [])
  {
    if Waited(c, a) != [] { ReadOne(c, Running(n, false), Queued(c.id)); }
  }

  lemma ReadAnnounced(c: Call, p: Policy, a: Attempt, n: nat)
    ensures ReadAll(c, if a.outcome.Succeeds? then Over else Failing(n), Announced(c, p, a, n)) == AfterShown(c, p, a, n)
  {
    hide Caught, SafeTransient;
    if Retries(c, p, a, n) { ReadOne(c, Failing(n), Say(c, Retry(n + 1))); }
  }

  lemma ReadShown(c: Call, p: Policy, a: Attempt, n: nat)
    ensures ReadAll(c, Ready(n), Shown(c, p, a, n)) == AfterShown(c, p, a, n)
  {
    hide Caught, Retries, Waited, Announced, ReadAll, AfterShown;
    var start, queue, result, retry := [Say(c, Start(n))], Waited(c, a), [Settled(c, a, n)], Announced(c, p, a, n);
    ReadOn(c, Ready(n), start + queue + result, retry);
    ReadOn(c, Ready(n), start + queue, result);
    ReadOn(c, Ready(n), start, queue);
    ReadOne(c, Ready(n), Say(c, Start(n)));
    ReadWaited(c, a, n);
    ReadOne(c, Running(n, queue != []), Settled(c, a, n));
    ReadAnnounced(c, p, a, n);
  }

  function Starts(events: seq<Event>): seq<nat>
    decreases |events|
  {
    if events == [] then [] else (if events[0].Event? && events[0].kind.Start? then [events[0].kind.attempt] else []) + Starts(events[1..])
  }

  lemma {:induction false} StartsOn(xs: seq<Event>, ys: seq<Event>)
    ensures Starts(xs + ys) == Starts(xs) + Starts(ys)
    decreases |xs|
  {
    if xs == [] {
      assert xs + ys == ys;
    } else {
      assert (xs + ys)[1..] == xs[1..] + ys;
      StartsOn(xs[1..], ys);
    }
  }

  lemma StartsParts(c: Call, p: Policy, a: Attempt, n: nat)
    ensures Starts([Say(c, Start(n))]) == [n] && Starts(Waited(c, a)) == []
    ensures Starts([Settled(c, a, n)]) == [] && Starts(Announced(c, p, a, n)) == []
  {
    hide Caught, Retries;
    StartsOne(Say(c, Start(n)));
    StartsOne(Queued(c.id));
    StartsOne(Settled(c, a, n));
    StartsOne(Say(c, Retry(n + 1)));
  }

  lemma StartsOne(e: Event)
    ensures Starts([e]) == if e.Event? && e.kind.Start? then [e.kind.attempt] else []
  {
    assert [e][1..] == [];
  }

  lemma StartsShown(c: Call, p: Policy, a: Attempt, n: nat)
    ensures Starts(Shown(c, p, a, n)) == [n]
  {
    StartsParts(c, p, a, n);
    hide Waited, Settled, Announced, Starts, Say;
    StartsOn([Say(c, Start(n))] + Waited(c, a) + [Settled(c, a, n)], Announced(c, p, a, n));
    StartsOn([Say(c, Start(n))] + Waited(c, a), [Settled(c, a, n)]);
    StartsOn([Say(c, Start(n))], Waited(c, a));
  }

  /** A trace that starts at attempt `n` has been read to its end. */
  predicate Ends(r: Reading, n: nat, ending: Ending) {
    (r == Over || r.Failing? || (r.Ready? && r.next > n)) && (r == Over <==> ending == Returned)
  }

  /** Attempt `n` shows one start; then the call goes on with the next attempt, or ends. */
  lemma Unfold(c: Call, p: Policy, env: nat -> Attempt, n: nat)
    requires n >= 1
    ensures var t := From(c, p, env, n);
      if Passes(c, p, env, n) then
        && var rest := From(c, p, env, n + 1);
        && ReadAll(c, Ready(n), t.events) == ReadAll(c, Ready(n + 1), rest.events)
        && Starts(t.events) == [n] + Starts(rest.events) && t.ending == rest.ending
      else
        Ends(ReadAll(c, Ready(n), t.events), n, t.ending) && Starts(t.events) == [n]
  {
    var shown := Shown(c, p, env(n), n);
    ReadShown(c, p, env(n), n);
    StartsShown(c, p, env(n), n);
    if Passes(c, p, env, n) {
      ReadOn(c, Ready(n), shown, From(c, p, env, n + 1).events);
      StartsOn(shown, From(c, p, env, n + 1).events);
    }
  }

  /** What holds from attempt `n` on. */
  lemma {:induction false} FromKeeps(c: Call, p: Policy, env: nat -> Attempt, n: nat)
    requires 1 <= n <= MaxAttempts(c, p)
    ensures var t := From(c, p, env, n);
      && Ends(ReadAll(c, Ready(n), t.events), n, t.ending)
      && n <= n + |Starts(t.events)| - 1 <= MaxAttempts(c, p)
      && (forall i: nat | i < |Starts(t.events)| :: Starts(t.events)[i] == n + i)
    decreases MaxAttempts(c, p) - n
  {
    hide From, Shown, ReadAll, Read, SafeTransient, Caught;
    Unfold(c, p, env, n);
    if Passes(c, p, env, n) { FromKeeps(c, p, env, n + 1); }
  }

  lemma {:induction false} StartedIff(c: Call, p: Policy, env: nat -> Attempt, n: nat, m: nat)
    requires 1 <= n <= m && n <= MaxAttempts(c, p)
    ensures m in Starts(From(c, p, env, n).events) <==> forall k: nat | n <= k < m :: Passes(c, p, env, k)
    decreases MaxAttempts(c, p) - n
  {
    hide From, Shown, ReadAll, Read, SafeTransient, Caught;
    Unfold(c, p, env, n);
    if Passes(c, p, env, n) && m > n { StartedIff(c, p, env, n + 1, m); }
  }

  lemma {:induction false} PowerGrows(n: nat)
    ensures 1.0 <= Power(n) <= Power(n + 1)
  {
    if n > 0 { PowerGrows(n - 1); }
  }

  lemma DelayGrows(p: Policy, n: nat)
    requires p.Valid() && n >= 1
    ensures 0.0 <= Delay(p, n) <= Delay(p, n + 1) <= p.maxDelay
  {
    PowerGrows(n - 1);
    PowerGrows(n);
    Scale(p.initialDelay, Power(n - 1), Power(n));
  }

  lemma Scale(x: real, a: real, b: real)
    requires 0.0 <= x && 0.0 <= a <= b
    ensures 0.0 <= x * a <= x * b
  {
  }

  predicate Rising(delays: seq<real>, low: real, high: real) {
    && (forall i | 0 <= i < |delays| :: low <= delays[i] <= high)
    && (forall i, j | 0 <= i < j < |delays| :: delays[i] <= delays[j])
  }

  lemma Prepend(low: real, next: real, high: real, rest: seq<real>)
    requires low <= next <= high && Rising(rest, next, high)
    ensures Rising([low] + rest, low, high)
  {
  }

  lemma {:induction false} DelaysFrom(c: Call, p: Policy, env: nat -> Attempt, n: nat)
    requires p.Valid() && 1 <= n
    ensures Rising(From(c, p, env, n).delays, Delay(p, n), p.maxDelay)
    decreases MaxAttempts(c, p) - n
  {
    hide *;
    DelaysUnfold(c, p, env, n);
    DelayGrows(p, n);
    if Passes(c, p, env, n) {
      PassesOn(c, p, env, n);
      DelaysFrom(c, p, env, n + 1);
      Prepend(Delay(p, n), Delay(p, n + 1), p.maxDelay, From(c, p, env, n + 1).delays);
    } else {
      OneRises(Delay(p, n), p.maxDelay);
    }
  }

  lemma OneRises(low: real, high: real)
    ensures Rising([], low, high) && (low <= high ==> Rising([low], low, high))
  {
  }

  // ---- main results: every call, every policy, every environment ----

  /** The trace is (start queued? failure retry)*, then start queued? and success or failure, unless the abort signal
      or a rejected sleep ends the call during a delay. All events carry the call's own id, and all but `queued` its
      operation and target; success is seen exactly when it returns. */
  lemma TraceShape(c: Call, p: Policy, env: nat -> Attempt)
    requires p.Valid()
    ensures var t := From(c, p, env, 1);
      Ends(ReadAll(c, Ready(1), t.events), 1, t.ending)
  {
    FromKeeps(c, p, env, 1);
  }

  /** At most `maxAttempts` attempts start, numbered from 1; only one when the call may not be retried. */
  lemma AttemptsBounded(c: Call, p: Policy, env: nat -> Attempt)
    requires p.Valid()
    ensures var starts := Starts(From(c, p, env, 1).events);
      && 1 <= |starts| <= MaxAttempts(c, p) <= p.maxAttempts
      && (forall i: nat | i < |starts| :: starts[i] == i + 1)
      && (!(c.allowRetry && c.retrySafe) ==> |starts| == 1)
  {
    FromKeeps(c, p, env, 1);
  }

  /** The attempt was thrown out of, un-aborted, with a guest error that says it may be retried and whose code the policy
      lists, and that is neither a passed deadline nor a requested cancellation. */
  predicate ThrewTransient(p: Policy, a: Attempt) {
    && a.signal == Quiet && a.outcome.Throws? && a.outcome.thrown.GuestError? && a.outcome.thrown.retryable
    && a.outcome.thrown.code in p.transientCodes
    && a.outcome.thrown.code != "deadline_exceeded" && a.outcome.thrown.code != "cancellation_requested"
  }

  lemma SafeTransientMeans(c: Call, p: Policy, a: Attempt)
    ensures !a.outcome.Succeeds? && SafeTransient(p, Caught(c, a)) <==> ThrewTransient(p, a)
  {
    if a.outcome.Answers? { AnswerNotTransient(p, a.outcome.error); }
    hide Name, Retryable;
  }

  lemma AnswerNotTransient(p: Policy, code: ErrorCode)
    ensures !SafeTransient(p, GuestError(Name(code), Retryable(code)))
  {
  }

  /** Attempt `n` starts exactly when the call may be retried so often, and every earlier attempt threw a transient error
      the policy lists, after which the delay ran out: neither aborted nor cut short by its own sleep. */
  lemma RetriedExactlyWhen(c: Call, p: Policy, env: nat -> Attempt, n: nat)
    requires p.Valid() && 1 <= n
    ensures n in Starts(From(c, p, env, 1).events) <==>
      && (n > 1 ==> c.allowRetry && c.retrySafe && n <= p.maxAttempts)
      && forall k: nat | 1 <= k < n ::
           ThrewTransient(p, env(k)) && env(k).delaySignal == Quiet && !env(k).sleepRejects
  {
    StartedIff(c, p, env, 1, n);
    forall k: nat ensures Passes(c, p, env, k) <==>
      k < MaxAttempts(c, p) && ThrewTransient(p, env(k)) && env(k).delaySignal == Quiet && !env(k).sleepRejects
    {
      SafeTransientMeans(c, p, env(k));
    }
    hide From, Starts, SafeTransient, Caught, ThrewTransient, Passes;
    if n > 1 && forall k: nat | 1 <= k < n :: Passes(c, p, env, k) { assert Passes(c, p, env, n - 1); }
  }

  /** How the call ends is decided by its last attempt: by its answer; by the abort, whatever the attempt did; by what it
      threw; or by what cut its retry delay short. */
  lemma EndingSays(c: Call, p: Policy, env: nat -> Attempt)
    requires p.Valid()
    ensures var t := From(c, p, env, 1); var n := |Starts(t.events)|;
      && n >= 1
      && (t.ending == Returned <==> env(n).outcome.Succeeds?)
      && (!env(n).outcome.Succeeds? && !(n < MaxAttempts(c, p) && ThrewTransient(p, env(n))) ==>
            t.ending == Threw(if env(n).signal != Quiet then Reason(env(n).signal) else Thrown(c, env(n).outcome)))
      && (n < MaxAttempts(c, p) && ThrewTransient(p, env(n)) ==>
            t.ending == if env(n).delaySignal != Quiet then Threw(Reason(env(n).delaySignal)) else SleepThrew)
  {
    LastDecides(c, p, env, 1);
    hide From, Starts, Reason, Thrown, ThrewTransient;
  }

  function Thrown(c: Call, o: Outcome): Error
    requires !o.Succeeds?
  {
    match o
    case Answers(code) => GuestError(Name(code), Retryable(code))
    case Throws(error) => error
    case Crashes => OtherError(if c.component then "WASM_INVOCATION_FAILED" else "WASM_ADAPTER_REJECTED")
  }

  /** The ending of an attempt that is the last. */
  ghost predicate Decided(c: Call, p: Policy, a: Attempt, n: nat, ending: Ending) {
    && (ending == Returned <==> a.outcome.Succeeds?)
    && (!a.outcome.Succeeds? && !(n < MaxAttempts(c, p) && ThrewTransient(p, a)) ==>
          ending == Threw(if a.signal != Quiet then Reason(a.signal) else Thrown(c, a.outcome)))
    && (n < MaxAttempts(c, p) && ThrewTransient(p, a) ==>
          ending == if a.delaySignal != Quiet then Threw(Reason(a.delaySignal)) else SleepThrew)
  }

  lemma TurnDecides(c: Call, p: Policy, env: nat -> Attempt, n: nat)
    requires n >= 1 && !Passes(c, p, env, n)
    ensures Decided(c, p, env(n), n, From(c, p, env, n).ending)
  {
    SafeTransientMeans(c, p, env(n));
    Turn(c, p, env, n);
    hide From, SafeTransient, ThrewTransient, Reason, Name, Retryable, Waited, Say, Delay, Shown;
  }

  lemma {:induction false} LastDecides(c: Call, p: Policy, env: nat -> Attempt, n: nat)
    requires 1 <= n <= MaxAttempts(c, p)
    ensures var t := From(c, p, env, n); var m := n + |Starts(t.events)| - 1;
      n <= m <= MaxAttempts(c, p) && Decided(c, p, env(m), m, t.ending)
    decreases MaxAttempts(c, p) - n
  {
    hide *;
    Unfold(c, p, env, n);
    if Passes(c, p, env, n) {
      PassesOn(c, p, env, n);
      LastDecides(c, p, env, n + 1);
    } else {
      TurnDecides(c, p, env, n);
    }
  }

  /** The delays never shrink, start at `initialDelay` and stay within `maxDelay`. */
  lemma BackoffGrows(c: Call, p: Policy, env: nat -> Attempt)
    requires p.Valid()
    ensures Rising(From(c, p, env, 1).delays, p.initialDelay, p.maxDelay)
  {
    DelayGrows(p, 1);
    DelaysFrom(c, p, env, 1);
  }

  function AttemptCode(c: Call, a: Attempt): string
    requires !a.outcome.Succeeds?
  {
    (if a.signal != Quiet then Reason(a.signal) else Thrown(c, a.outcome)).code
  }

  /** What one attempt shows: its start; that it waits for an instance, when it does and is for the component; its success,
      or its failure with the code of the abort or of what it threw; and the next attempt, when there may be one. */
  lemma AttemptShows(c: Call, p: Policy, a: Attempt, n: nat)
    ensures var shown := Shown(c, p, a, n);
      && shown != [] && shown[0] == Say(c, Start(n)) && (forall i | 0 < i < |shown| :: !(shown[i].Event? && shown[i].kind.Start?))
      && (forall i | 0 <= i < |shown| && shown[i].Queued? :: i == 1)
      && (Queued(c.id) in shown <==> c.component && a.queued)
      && (Say(c, Success(n)) in shown <==> a.outcome.Succeeds?)
      && (forall code: string :: Say(c, Failure(n, code)) in shown <==> !a.outcome.Succeeds? && code == AttemptCode(c, a))
      && (Say(c, Retry(n + 1)) in shown <==> n < MaxAttempts(c, p) && ThrewTransient(p, a))
      && |shown| == 2 + (if c.component && a.queued then 1 else 0) + (if n < MaxAttempts(c, p) && ThrewTransient(p, a) then 1 else 0)
  {
    SafeTransientMeans(c, p, a);
    hide SafeTransient, ThrewTransient, Name, Retryable, Reason;
    var shown := Shown(c, p, a, n);
    var w := |Waited(c, a)|;
    assert w <= 1 && shown[1 + w] == Settled(c, a, n);
    if w == 1 { assert shown[1] == Queued(c.id); }
    if Retries(c, p, a, n) { assert shown[2 + w] == Say(c, Retry(n + 1)); }
    forall x | x in shown
      ensures x in [Say(c, Start(n)), Settled(c, a, n)] + Waited(c, a) + Announced(c, p, a, n)
    {
    }
  }

  function AllShown(c: Call, p: Policy, env: nat -> Attempt, from: nat, last: nat): seq<Event>
    requires from <= last
    decreases last + 1 - from
  {
    Shown(c, p, env(from), from) + if from < last then AllShown(c, p, env, from + 1, last) else []
  }

  /** The trace is what its attempts show, one after the other. */
  lemma {:induction false} TraceIs(c: Call, p: Policy, env: nat -> Attempt, n: nat)
    requires 1 <= n <= MaxAttempts(c, p)
    ensures var t := From(c, p, env, n); var m := n + |Starts(t.events)| - 1;
      n <= m && t.events == AllShown(c, p, env, n, m)
    decreases MaxAttempts(c, p) - n
  {
    hide *;
    Unfold(c, p, env, n);
    EventsUnfold(c, p, env, n);
    if Passes(c, p, env, n) {
      PassesOn(c, p, env, n);
      TraceIs(c, p, env, n + 1);
    }
    AllShownFirst(c, p, env, n, n + |Starts(From(c, p, env, n).events)| - 1);
  }

  lemma AllShownFirst(c: Call, p: Policy, env: nat -> Attempt, from: nat, last: nat)
    requires from <= last
    ensures from == last ==> AllShown(c, p, env, from, last) == Shown(c, p, env(from), from)
    ensures from < last ==> AllShown(c, p, env, from, last) == Shown(c, p, env(from), from) + AllShown(c, p, env, from + 1, last)
  {
    hide Shown;
    assert Shown(c, p, env(from), from) + [] == Shown(c, p, env(from), from);
  }

  lemma EventsUnfold(c: Call, p: Policy, env: nat -> Attempt, n: nat)
    requires n >= 1
    ensures From(c, p, env, n).events ==
      Shown(c, p, env(n), n) + if Passes(c, p, env, n) then From(c, p, env, n + 1).events else []
  {
    hide Shown, Delay, Retries, Caught, Interruption;
    assert Shown(c, p, env(n), n) + [] == Shown(c, p, env(n), n);
  }

  /** The first delay is `initialDelay`, and each next one is twice the one before, or `maxDelay` when that is less; there
      is one after each attempt but the last, and after that too when it would have been retried. */
  ghost predicate Doubling(delays: seq<real>, first: real, max: real) {
    && (delays != [] ==> delays[0] == first)
    && forall i | 0 <= i < |delays| - 1 :: delays[i + 1] == if 2.0 * delays[i] <= max then 2.0 * delays[i] else max
  }

  lemma DelayDoubles(p: Policy, n: nat)
    requires p.Valid() && n >= 1
    ensures Delay(p, n + 1) == if 2.0 * Delay(p, n) <= p.maxDelay then 2.0 * Delay(p, n) else p.maxDelay
  {
    var g := p.initialDelay * Power(n - 1);
    assert Power(n) == 2.0 * Power(n - 1);
    assert p.initialDelay * Power(n) == 2.0 * g;
  }

  lemma DoubleFirst(first: real, next: real, max: real, rest: seq<real>)
    requires Doubling(rest, next, max) && next == if 2.0 * first <= max then 2.0 * first else max
    ensures Doubling([first] + rest, first, max)
  {
    var all := [first] + rest;
    forall i | 0 <= i < |all| - 1 ensures all[i + 1] == if 2.0 * all[i] <= max then 2.0 * all[i] else max {
      if i > 0 { assert rest[(i - 1) + 1] == if 2.0 * rest[i - 1] <= max then 2.0 * rest[i - 1] else max; }
    }
  }

  lemma DelaysUnfold(c: Call, p: Policy, env: nat -> Attempt, n: nat)
    requires n >= 1
    ensures From(c, p, env, n).delays ==
      if Passes(c, p, env, n) then [Delay(p, n)] + From(c, p, env, n + 1).delays
      else if Retries(c, p, env(n), n) then [Delay(p, n)] else []
  {
    hide Delay, Shown, Retries, Caught, Interruption;
    RetriesFails(c, p, env(n), n);
  }

  lemma {:induction false} DelaysDoubleFrom(c: Call, p: Policy, env: nat -> Attempt, n: nat)
    requires p.Valid() && 1 <= n <= MaxAttempts(c, p)
    ensures var t := From(c, p, env, n); var m := n + |Starts(t.events)| - 1;
      && Doubling(t.delays, Delay(p, n), p.maxDelay)
      && n <= m && |t.delays| == |Starts(t.events)| - if Retries(c, p, env(m), m) then 0 else 1
    decreases MaxAttempts(c, p) - n
  {
    hide *;
    Unfold(c, p, env, n);
    DelaysUnfold(c, p, env, n);
    if Passes(c, p, env, n) {
      PassesOn(c, p, env, n);
      DelayDoubles(p, n);
      DelaysDoubleFrom(c, p, env, n + 1);
      DoubleFirst(Delay(p, n), Delay(p, n + 1), p.maxDelay, From(c, p, env, n + 1).delays);
    } else {
      OneDelay(Delay(p, n), p.maxDelay);
    }
  }

  lemma PassesOn(c: Call, p: Policy, env: nat -> Attempt, n: nat)
    ensures Passes(c, p, env, n) ==> n < MaxAttempts(c, p)
  {
    hide Caught, SafeTransient;
  }

  lemma OneDelay(first: real, max: real)
    ensures Doubling([first], first, max) && Doubling([], first, max)
  {
  }

  lemma RetriesFails(c: Call, p: Policy, a: Attempt, n: nat)
    ensures Retries(c, p, a, n) ==> !a.outcome.Succeeds?
  {
  }

  lemma DelaysDouble(c: Call, p: Policy, env: nat -> Attempt)
    requires p.Valid()
    ensures var t := From(c, p, env, 1); var n := |Starts(t.events)|;
      && Doubling(t.delays, p.initialDelay, p.maxDelay)
      && n >= 1 && |t.delays| == if n < MaxAttempts(c, p) && ThrewTransient(p, env(n)) then n else n - 1
  {
    DelaysDoubleFrom(c, p, env, 1);
    assert Delay(p, 1) == p.initialDelay;
    var n := |Starts(From(c, p, env, 1).events)|;
    SafeTransientMeans(c, p, env(n));
    hide From, Starts, Doubling, SafeTransient, Caught, ThrewTransient;
  }

  /** The catalog has no safe transient code: an attempt that was answered is never retried, whatever the policy lists.
      A second attempt needs a thrown guest error: from the instance factory, from a native adapter, or from the close
      of an instance that is being discarded, which release throws again. */
  lemma AnswersAreFinal(c: Call, p: Policy, env: nat -> Attempt)
    requires p.Valid()
    ensures var starts := Starts(From(c, p, env, 1).events);
      && (env(1).outcome.Answers? ==> starts == [1])
      && (|starts| > 1 ==> env(1).outcome.Throws? && env(1).outcome.thrown.GuestError? && env(1).signal == Quiet)
  {
    hide From, Shown;
    FromKeeps(c, p, env, 1);
    StartedIff(c, p, env, 1, 2);
    assert Passes(c, p, env, 1) ==> SafeTransient(p, Caught(c, env(1)));
    var starts := Starts(From(c, p, env, 1).events);
    if |starts| > 1 {
      assert starts[1] == 2;
      assert forall code :: !SafeTransient(p, GuestError(Name(code), Retryable(code)));
    } else {
      assert starts == [1];
    }
  }
}
