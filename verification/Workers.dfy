/** The bounded worker loop of tools/workers/workers.ts. Tasks are numbered in the order they are added. */
module WorkersModel {
  import opened Common

  datatype State = State(
    standard: real,               // the default limit, at least one slot
    limit: real, queue: seq<nat>, active: nat, running: bool, parallel: bool,
    next: nat,                    // number of the next task added
    started: seq<nat>,            // in the order their callbacks were scheduled
    inFlight: set<nat>,           // started and not settled
    dropped: seq<nat>)            // removed from the queue by a reset

  datatype Event =
    | AddTask
    | SetLimit(value: real)
    | SetParallelism(mode: bool)
    | RunWorkers
    | StopWorkers
    | RestartWorkers
    | ResetWorkers
    | TaskSettles(task: nat)

  function Initial(standard: real): State {
    State(standard, standard, [], 0, false, true, 0, [], {}, [])
  }

  function Slots(s: State): real {
    if s.parallel then s.limit else if s.limit <= 1.0 then s.limit else 1.0
  }

  function StartFirst(s: State): State
    requires s.queue != []
  {
    s.(queue := s.queue[1..], active := s.active + 1, started := s.started + [s.queue[0]],
       inFlight := s.inFlight + {s.queue[0]})
  }

  function Pump(s: State): State
    decreases |s.queue|
  {
    if s.running && s.active as real < Slots(s) && s.queue != [] then Pump(StartFirst(s)) else s
  }

  function PumpIfRunning(s: State): State { if s.running then Pump(s) else s }

  function Start(s: State): State { if s.running then s else Pump(s.(running := true)) }

  function Settle(s: State, task: nat): State {
    PumpIfRunning(s.(active := if s.active > 0 then s.active - 1 else 0, inFlight := s.inFlight - {task}))
  }

  function Step(s: State, e: Event): State {
    match e
    case AddTask => PumpIfRunning(s.(queue := s.queue + [s.next], next := s.next + 1))
    case SetLimit(value) => PumpIfRunning(s.(limit := value))
    case SetParallelism(value) => PumpIfRunning(s.(parallel := value))
    case RunWorkers => Start(s)
    case StopWorkers => s.(running := false)
    case RestartWorkers => Start(s.(running := false))
    case ResetWorkers =>
      s.(running := false, queue := [], dropped := s.dropped + s.queue, limit := s.standard, parallel := true)
    case TaskSettles(task) => if task in s.inFlight then Settle(s, task) else s
  }

  function Run(s: State, events: seq<Event>): State
    decreases |events|
  {
    if events == [] then s else Step(Run(s, events[..|events| - 1]), events[|events| - 1])
  }

  /** Every task added is started, queued or dropped, exactly one of these and once; starts follow the queue. */
  ghost predicate Sorted(s: State) {
    && Increasing(s.started + s.queue)
    && (forall t: nat :: multiset(s.started)[t] + multiset(s.queue)[t] + multiset(s.dropped)[t] == if t < s.next then 1 else 0)
  }

  /** The counter is the number of started tasks that have not settled. */
  ghost predicate CountsInFlight(s: State) {
    s.active == |s.inFlight| && forall t | t in s.inFlight :: t in s.started
  }

  /** A running loop leaves a task queued only when every slot is taken. */
  ghost predicate Saturated(s: State) { s.running && s.queue != [] ==> s.active as real >= Slots(s) }

  ghost predicate Inv(s: State) { Sorted(s) && CountsInFlight(s) && Saturated(s) }

  lemma StartKeeps(s: State)
    requires Sorted(s) && CountsInFlight(s) && s.queue != []
    ensures Sorted(StartFirst(s)) && CountsInFlight(StartFirst(s))
  {
    var q := StartFirst(s);
    assert q.started + q.queue == s.started + s.queue;
    assert s.queue == [s.queue[0]] + q.queue;
    assert multiset(s.queue)[s.queue[0]] >= 1;
    assert multiset(s.started)[s.queue[0]] == 0;
  }

  lemma {:induction false} PumpKeeps(s: State)
    requires Sorted(s) && CountsInFlight(s)
    ensures Inv(Pump(s))
    decreases |s.queue|
  {
    if s.running && s.active as real < Slots(s) && s.queue != [] {
      StartKeeps(s);
      PumpKeeps(StartFirst(s));
    }
  }

  lemma AddSorted(s: State)
    requires Sorted(s)
    ensures Sorted(s.(queue := s.queue + [s.next], next := s.next + 1))
  {
    var line: seq<nat> := s.started + s.queue;
    assert s.started + (s.queue + [s.next]) == line + [s.next];
    forall i | 0 <= i < |line| ensures line[i] < s.next {
      assert multiset(s.started)[line[i]] >= 1 || multiset(s.queue)[line[i]] >= 1;
    }
  }

  lemma ResetKeeps(s: State)
    requires Inv(s)
    ensures Inv(Step(s, ResetWorkers))
  {
    assert s.started + [] == (s.started + s.queue)[..|s.started|];
  }

  /** The state a step hands to the pump. */
  function BeforePump(s: State, e: Event): State {
    match e
    case AddTask => s.(queue := s.queue + [s.next], next := s.next + 1)
    case SetLimit(value) => s.(limit := value)
    case SetParallelism(value) => s.(parallel := value)
    case TaskSettles(task) =>
      if task in s.inFlight
        then s.(active := if s.active > 0 then s.active - 1 else 0, inFlight := s.inFlight - {task})
        else s
    case _ => s.(running := true)
  }

  predicate Idle(s: State, e: Event) { (e.RunWorkers? && s.running) || (e.TaskSettles? && e.task !in s.inFlight) }

  lemma StepPumps(s: State, e: Event)
    requires !e.StopWorkers? && !e.ResetWorkers?
    ensures Step(s, e) == if Idle(s, e) then s else Pump(BeforePump(s, e))
  {
  }

  lemma BeforeKeeps(s: State, e: Event)
    requires Sorted(s) && CountsInFlight(s)
    ensures Sorted(BeforePump(s, e)) && CountsInFlight(BeforePump(s, e))
  {
    if e.AddTask? {
      AddSorted(s);
      hide Sorted;
    } else {
      SameSorted(s, BeforePump(s, e));
      hide Sorted;
    }
  }

  lemma SameSorted(s: State, q: State)
    requires Sorted(s) && q.started == s.started && q.queue == s.queue && q.dropped == s.dropped && q.next == s.next
    ensures Sorted(q)
  {
  }

  lemma StepKeeps(s: State, e: Event)
    requires Inv(s)
    ensures Inv(Step(s, e))
  {
    if e.ResetWorkers? {
      ResetKeeps(s);
    } else if !e.StopWorkers? {
      hide Step, Pump, BeforePump, Sorted, CountsInFlight, Saturated;
      StepPumps(s, e);
      BeforeKeeps(s, e);
      PumpKeeps(BeforePump(s, e));
    } else {
      hide Sorted;
    }
  }

  lemma {:induction false} RunKeeps(standard: real, events: seq<Event>)
    ensures Inv(Run(Initial(standard), events))
    decreases |events|
  {
    if events != [] {
      RunKeeps(standard, events[..|events| - 1]);
      StepKeeps(Run(Initial(standard), events[..|events| - 1]), events[|events| - 1]);
    }
  }

  // ---- main results: every sequence of calls and settlements ----

  /** Tasks start in the order they were added, none is lost or started twice, and only a reset drops any. */
  lemma NothingLost(standard: real, events: seq<Event>)
    ensures var s := Run(Initial(standard), events);
      && Increasing(s.started + s.queue)
      && (forall t: nat :: multiset(s.started)[t] + multiset(s.queue)[t] + multiset(s.dropped)[t] == if t < s.next then 1 else 0)
      && s.active == |s.inFlight| && (forall t | t in s.inFlight :: t in s.started)
      && (ResetWorkers !in events ==> s.dropped == [])
  {
    RunKeeps(standard, events);
    if ResetWorkers !in events { DropsOnlyByReset(standard, events); }
  }

  lemma {:induction false} PumpDropsNothing(s: State)
    ensures Pump(s).dropped == s.dropped
    decreases |s.queue|
  {
    if s.running && s.active as real < Slots(s) && s.queue != [] { PumpDropsNothing(StartFirst(s)); }
  }

  lemma StepDrops(s: State, e: Event)
    ensures Step(s, e).dropped == if e.ResetWorkers? then s.dropped + s.queue else s.dropped
  {
    if !e.StopWorkers? && !e.ResetWorkers? {
      StepPumps(s, e);
      PumpDropsNothing(BeforePump(s, e));
      hide Pump, Step;
    }
  }

  lemma {:induction false} DropsOnlyByReset(standard: real, events: seq<Event>)
    requires ResetWorkers !in events
    ensures Run(Initial(standard), events).dropped == []
    decreases |events|
  {
    if events != [] {
      var s, e := Run(Initial(standard), events[..|events| - 1]), events[|events| - 1];
      assert e in events;
      DropsOnlyByReset(standard, events[..|events| - 1]);
      StepDrops(s, e);
    }
  }

  lemma {:induction false} RunDrops(s: State, events: seq<Event>)
    ensures forall t | t in s.dropped :: t in Run(s, events).dropped
    decreases |events|
  {
    if events != [] {
      RunDrops(s, events[..|events| - 1]);
      StepDrops(Run(s, events[..|events| - 1]), events[|events| - 1]);
    }
  }

  /** A task dropped by a reset is never started, in any later run. */
  lemma ResetIsFinal(standard: real, events: seq<Event>, more: seq<Event>, task: nat)
    requires task in Run(Initial(standard), events).queue
    ensures task !in Run(Run(Initial(standard), events + [ResetWorkers]), more).started
  {
    var all := events + [ResetWorkers];
    assert all[..|events|] == events;
    assert Run(Initial(standard), all) == Step(Run(Initial(standard), events), ResetWorkers);
    StepDrops(Run(Initial(standard), events), ResetWorkers);
    RunDrops(Run(Initial(standard), all), more);
    RunOn(Initial(standard), all, more);
    RunKeeps(standard, all + more);
    var last := Run(Initial(standard), all + more);
    hide Run, Step;
    assert task in last.dropped;
    assert multiset(last.started)[task] + multiset(last.dropped)[task] <= 1;
  }

  lemma {:induction false} RunOn(s: State, events: seq<Event>, more: seq<Event>)
    ensures Run(s, events + more) == Run(Run(s, events), more)
    decreases |more|
  {
    if more == [] {
      assert events + more == events;
    } else {
      assert (events + more)[..|events + more| - 1] == events + more[..|more| - 1];
      RunOn(s, events, more[..|more| - 1]);
    }
  }

  /** A running loop with work queued has no free slot. */
  lemma NoIdleSlot(standard: real, events: seq<Event>)
    ensures var s := Run(Initial(standard), events);
      s.running && s.queue != [] ==> s.active as real >= Slots(s)
  {
    RunKeeps(standard, events);
  }

  lemma {:induction false} PumpInSequence(s: State)
    requires !s.parallel && CountsInFlight(s)
    ensures Pump(s) == s || (s.inFlight == {} && s.queue != [] && Pump(s) == StartFirst(s))
  {
    if s.running && s.active as real < Slots(s) && s.queue != [] {
      assert s.active == 0;
      assert Pump(StartFirst(s)) == StartFirst(s);
    }
  }

  /** In sequential mode a step starts at most one task, and only when none is in flight. */
  lemma OneAtATime(standard: real, events: seq<Event>, e: Event)
    ensures var s := Run(Initial(standard), events); var r := Step(s, e);
      !r.parallel && r.started != s.started ==>
        |r.started| == |s.started| + 1 && r.inFlight == {r.started[|s.started|]}
  {
    RunKeeps(standard, events);
    var s := Run(Initial(standard), events);
    if !Step(s, e).parallel { SequentialStep(s, e); }
  }

  lemma {:induction false} PumpKeepsMode(s: State)
    ensures Pump(s).parallel == s.parallel && Pump(s).limit == s.limit
    decreases |s.queue|
  {
    if s.running && s.active as real < Slots(s) && s.queue != [] { PumpKeepsMode(StartFirst(s)); }
  }

  lemma SequentialStep(s: State, e: Event)
    requires Inv(s) && !Step(s, e).parallel
    ensures var r := Step(s, e);
      r.started == s.started || (|r.started| == |s.started| + 1 && r.inFlight == {r.started[|s.started|]})
  {
    if e.StopWorkers? || e.ResetWorkers? {
      hide Inv;
    } else {
      hide Step, Pump, BeforePump, Sorted, Saturated, CountsInFlight;
      StepPumps(s, e);
      if !Idle(s, e) {
        BeforeKeeps(s, e);
        BeforeStarts(s, e);
        SequentialPump(BeforePump(s, e));
      }
    }
  }

  lemma BeforeStarts(s: State, e: Event)
    ensures BeforePump(s, e).started == s.started
  {
  }

  lemma SequentialPump(s: State)
    requires !Pump(s).parallel && CountsInFlight(s)
    ensures Pump(s).started == s.started ||
      (|Pump(s).started| == |s.started| + 1 && Pump(s).inFlight == {Pump(s).started[|s.started|]})
  {
    PumpKeepsMode(s);
    PumpInSequence(s);
    hide Pump;
  }

  /** The least whole number of tasks that takes every slot. */
  function Ceiling(slots: real): int {
    if slots.Floor as real == slots then slots.Floor else slots.Floor + 1
  }

  predicate Reconfigures(e: Event) { e.SetLimit? || e.SetParallelism? || e.ResetWorkers? }

  lemma {:induction false} PumpBound(s: State)
    ensures Pump(s).active <= s.active || Pump(s).active <= Ceiling(Slots(s))
    ensures Slots(Pump(s)) == Slots(s)
    decreases |s.queue|
  {
    if s.running && s.active as real < Slots(s) && s.queue != [] { PumpBound(StartFirst(s)); }
  }

  lemma StepBound(s: State, e: Event)
    requires !Reconfigures(e)
    ensures Step(s, e).active <= s.active || Step(s, e).active <= Ceiling(Slots(s))
    ensures Slots(Step(s, e)) == Slots(s)
  {
    if !e.StopWorkers? {
      StepPumps(s, e);
      PumpBound(BeforePump(s, e));
      hide Pump, Step, Ceiling;
    }
  }

  /** Between reconfigurations the tasks in flight never exceed the larger of those in flight at the last one and
      the slots (rounded up: a limit need not be a whole number). */
  lemma {:induction false} BoundedBetweenChanges(s: State, events: seq<Event>)
    requires forall e | e in events :: !Reconfigures(e)
    ensures Run(s, events).active <= s.active || Run(s, events).active <= Ceiling(Slots(s))
    ensures Slots(Run(s, events)) == Slots(s)
    decreases |events|
  {
    if events != [] {
      var r, e := Run(s, events[..|events| - 1]), events[|events| - 1];
      assert e in events;
      BoundedBetweenChanges(s, events[..|events| - 1]);
      StepBound(r, e);
    }
  }

  /** Whatever happened before, a loop that stands at `slots` and is not reconfigured stays within it. */
  ghost predicate SlotsKept(slots: real) {
    forall standard, before, events | standard >= 1.0 && Slots(Run(Initial(standard), before)) == slots ::
      KeptFrom(Run(Initial(standard), before), events)
  }

  predicate KeptFrom(s: State, events: seq<Event>) {
    s.active as real <= Slots(s) && (forall e | e in events :: !Reconfigures(e)) ==>
      Run(s, events).active as real <= Slots(s)
  }

  function Adds(n: nat): (r: seq<Event>)
    ensures |r| == n && forall e | e in r :: e == AddTask
  {
    if n == 0 then [] else Adds(n - 1) + [AddTask]
  }

  lemma {:induction false} AddsQueue(s: State, n: nat)
    requires !s.running
    ensures var r := Run(s, Adds(n));
      |r.queue| == |s.queue| + n && r.active == s.active && !r.running && Slots(r) == Slots(s)
  {
    if n > 0 {
      AddsQueue(s, n - 1);
      assert Adds(n)[..n - 1] == Adds(n - 1);
    }
  }

  lemma {:induction false} PumpFills(s: State)
    requires s.running && s.active <= Ceiling(Slots(s)) <= s.active + |s.queue|
    ensures Pump(s).active == Ceiling(Slots(s))
    decreases |s.queue|
  {
    if s.active as real < Slots(s) && s.queue != [] { PumpFills(StartFirst(s)); }
  }

  lemma RunOne(s: State, e: Event)
    ensures Run(s, [e]) == Step(s, e)
  {
    assert [e][..0] == [];
  }

  /** With enough tasks a fresh limit is filled up to the next whole number. */
  lemma Overfills(slots: real)
    requires slots >= 0.0
    ensures Run(Run(Initial(1.0), [SetLimit(slots)]), Adds(Ceiling(slots)) + [RunWorkers]).active == Ceiling(slots)
    ensures Slots(Run(Initial(1.0), [SetLimit(slots)])) == slots && Run(Initial(1.0), [SetLimit(slots)]).active == 0
  {
    var n := Ceiling(slots);
    RunOne(Initial(1.0), SetLimit(slots));
    var s := Run(Initial(1.0), [SetLimit(slots)]);
    AddsQueue(s, n);
    var events := Adds(n) + [RunWorkers];
    assert events[..n] == Adds(n);
    hide Pump;
    PumpFills(Run(s, Adds(n)).(running := true));
  }

  /** The slots bound the tasks in flight exactly when their number is whole; a fractional limit admits one task too many. */
  lemma SlotsKeptIff(slots: real)
    requires slots >= 0.0
    ensures SlotsKept(slots) <==> slots.Floor as real == slots
  {
    if slots.Floor as real == slots {
      forall standard, before, events | standard >= 1.0 && Slots(Run(Initial(standard), before)) == slots
        ensures KeptFrom(Run(Initial(standard), before), events)
      {
        WholeKept(Run(Initial(standard), before), events);
      }
    } else {
      Overfills(slots);
      var s, events := Run(Initial(1.0), [SetLimit(slots)]), Adds(Ceiling(slots)) + [RunWorkers];
      assert !KeptFrom(s, events);
    }
  }

  lemma WholeKept(s: State, events: seq<Event>)
    requires Slots(s).Floor as real == Slots(s)
    ensures KeptFrom(s, events)
  {
    if forall e | e in events :: !Reconfigures(e) {
      BoundedBetweenChanges(s, events);
    }
  }
}

/** The loop in its own form: module variables that every function updates. */
module WorkerLoop {
  import opened WorkersModel

  class Workers {
    const standard: real
    var limit: real
    var queue: seq<nat>
    var active: nat
    var running: bool
    var parallel: bool
    ghost var model: State

    ghost predicate Agrees()
      reads this
    {
      && model.standard == standard && model.limit == limit && model.queue == queue && model.active == active
      && model.running == running && model.parallel == parallel
    }

    constructor (cpus: real)
      ensures Agrees() && model == Initial(if cpus > 1.0 then cpus else 1.0)
    {
      standard := if cpus > 1.0 then cpus else 1.0;
      limit := if cpus > 1.0 then cpus else 1.0;
      queue, active, running, parallel := [], 0, false, true;
      model := Initial(if cpus > 1.0 then cpus else 1.0);
    }

    method PumpQueue()
      requires Agrees()
      modifies this
      ensures Agrees() && model == Pump(old(model))
    {
      var slots := if parallel then limit else if limit <= 1.0 then limit else 1.0;
      while running && active as real < slots && |queue| > 0
        invariant Agrees() && slots == Slots(model) && Pump(model) == Pump(old(model))
        decreases |queue|
      {
        queue := queue[1..];
        active := active + 1;
        model := StartFirst(model);
      }
    }

    method Add(task: nat)
      requires Agrees() && task == model.next
      modifies this
      ensures Agrees() && model == Step(old(model), AddTask)
    {
      queue := queue + [task];
      model := model.(queue := queue, next := task + 1);
      if running { PumpQueue(); }
    }

    method ChangeLimit(value: real)
      requires Agrees()
      modifies this
      ensures Agrees() && model == Step(old(model), SetLimit(value))
    {
      limit := value;
      model := model.(limit := value);
      if running { PumpQueue(); }
    }

    method ChangeMode(value: bool)
      requires Agrees()
      modifies this
      ensures Agrees() && model == Step(old(model), SetParallelism(value))
    {
      parallel := value;
      model := model.(parallel := value);
      if running { PumpQueue(); }
    }

    method Launch()
      requires Agrees()
      modifies this
      ensures Agrees() && model == Step(old(model), RunWorkers)
    {
      if running { return; }
      running := true;
      model := model.(running := true);
      PumpQueue();
    }

    method Halt()
      requires Agrees()
      modifies this
      ensures Agrees() && model == Step(old(model), StopWorkers)
    {
      running := false;
      model := model.(running := false);
    }

    method Relaunch()
      requires Agrees()
      modifies this
      ensures Agrees() && model == Step(old(model), RestartWorkers)
    {
      Halt();
      Launch();
    }

    /** Nothing starts and nothing in flight is forgotten; the whole queue is dropped. */
    method Reset()
      requires Agrees()
      modifies this
      ensures Agrees() && model == Step(old(model), ResetWorkers)
      ensures queue == [] && !running && parallel && limit == standard && active == old(active)
      ensures model.started == old(model.started) && model.inFlight == old(model.inFlight)
      ensures model.dropped == old(model.dropped + model.queue)
      ensures old(Inv(model)) ==> Inv(model)
    {
      if Inv(model) { ResetKeeps(model); }
      model := Step(model, ResetWorkers);
      running := false;
      queue := [];
      limit := standard;
      parallel := true;
    }

    method Settled(task: nat)
      requires Agrees() && task in model.inFlight && active > 0
      modifies this
      ensures Agrees() && model == Step(old(model), TaskSettles(task))
    {
      active := active - 1;
      model := model.(active := active, inFlight := model.inFlight - {task});
      if running { PumpQueue(); }
    }
  }
}
