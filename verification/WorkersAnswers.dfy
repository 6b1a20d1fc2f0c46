/** What each call of tools/workers/workers.ts does to the loop: when it runs, what it starts, and what stays in flight. */
module WorkersAnswers {
  import opened Common
  import opened WorkersModel

  predicate Starts(e: Event) { e.RunWorkers? || e.RestartWorkers? }

  predicate Stops(e: Event) { e.StopWorkers? || e.ResetWorkers? }

  /** A pump only starts tasks: each while a slot is free. */
  ghost predicate Pumped(s: State, q: State) {
    && q.standard == s.standard && q.limit == s.limit && q.parallel == s.parallel && q.running == s.running && q.next == s.next
    && s.started <= q.started && (forall t | t in s.inFlight :: t in q.inFlight)
    && (q.started != s.started ==> s.running && q.active as real < Slots(q) + 1.0)
    && (forall t | t in q.inFlight :: t in s.inFlight || t in q.started[|s.started|..])
    && (q.started == s.started ==> q == s)
  }

  lemma {:induction false} PumpPumps(s: State)
    ensures Pumped(s, Pump(s))
    decreases |s.queue|
  {
    if s.running && s.active as real < Slots(s) && s.queue != [] {
      var next := StartFirst(s);
      PumpPumps(next);
      var q := Pump(next);
      hide Pump;
      assert next.started == s.started + [s.queue[0]];
      assert q.started[|s.started|..][0] == s.queue[0];
      forall t | t in q.inFlight ensures t in s.inFlight || t in q.started[|s.started|..] {
        if t in q.started[|next.started|..] {
          var i :| 0 <= i < |q.started| - |next.started| && q.started[|next.started|..][i] == t;
          assert q.started[|s.started|..][i + 1] == t;
        }
      }
    }
  }

  /** The loop runs from a start or restart until a stop or reset; a limit is applied as it is, and holds with the mode until
      they are changed or reset to the defaults. */
  lemma SettingsAnswer(s: State, e: Event)
    ensures var q := Step(s, e);
      && (q.running <==> Starts(e) || (s.running && !Stops(e)))
      && q.limit == (match e case SetLimit(value) => value case ResetWorkers => s.standard case _ => s.limit)
      && q.parallel == (match e case SetParallelism(mode) => mode case ResetWorkers => true case _ => s.parallel)
      && q.standard == s.standard && q.next == s.next + if e.AddTask? then 1 else 0
  {
    PumpPumps(BeforePump(s, e));
    if !Stops(e) { StepPumps(s, e); }
    hide Pump;
  }

  /** Nothing starts in a loop that does not run, and each start takes a free slot; only the settled task leaves those in
      flight. */
  lemma StartsAnswer(s: State, e: Event)
    ensures var q := Step(s, e);
      && s.started <= q.started && (!q.running ==> q.started == s.started)
      && (q.started != s.started ==> q.active as real < Slots(q) + 1.0)
      && (forall t | t in s.inFlight && e != TaskSettles(t) :: t in q.inFlight)
      && (forall t | t in q.inFlight :: t in s.inFlight || t in q.started[|s.started|..])
  {
    PumpPumps(BeforePump(s, e));
    if !Stops(e) { StepPumps(s, e); }
    hide Pump;
  }

  /** How many tasks may be in flight before another starts: fewer than the limit, and none in sequential mode. */
  predicate Room(s: State, active: int) { active as real < s.limit && (s.parallel || active < 1) }

  lemma RoomIsSlots(s: State, active: int)
    requires active >= 0
    ensures Room(s, active) <==> active as real < Slots(s)
  {
  }

  /** In every run, a loop that runs leaves a task queued exactly when there is no room, and starts one only into room. */
  lemma RoomIsUsed(standard: real, events: seq<Event>, e: Event)
    ensures var s := Run(Initial(standard), events); var q := Step(s, e);
      && (s.running && s.queue != [] ==> !Room(s, s.active))
      && (q.started != s.started ==> q.active > 0 && Room(q, q.active - 1))
  {
    var s := Run(Initial(standard), events);
    RunKeeps(standard, events);
    StepKeeps(s, e);
    StartsAnswer(s, e);
    SomethingFlies(s, e);
    hide Step, Sorted, Slots;
    RoomIsSlots(s, s.active);
    if Step(s, e).active > 0 { RoomIsSlots(Step(s, e), Step(s, e).active - 1); }
  }

  lemma SomethingFlies(s: State, e: Event)
    ensures Step(s, e).started != s.started ==> Step(s, e).active > 0
  {
    if !Stops(e) {
      StepPumps(s, e);
      Flies(BeforePump(s, e));
    }
    hide Pump;
  }

  lemma {:induction false} Flies(s: State)
    ensures Pump(s).active >= s.active && (Pump(s).started != s.started ==> Pump(s).active > s.active)
    decreases |s.queue|
  {
    if s.running && s.active as real < Slots(s) && s.queue != [] { Flies(StartFirst(s)); }
  }

  /** A settled task is no longer in flight, and counted out once. */
  lemma SettlesAnswer(s: State, task: nat)
    requires Inv(s) && task in s.inFlight
    ensures var q := Step(s, TaskSettles(task));
      task !in q.inFlight && (!s.running ==> q.active == s.active - 1 && q.queue == s.queue)
  {
    var mid := BeforePump(s, TaskSettles(task));
    StepPumps(s, TaskSettles(task));
    PumpPumps(mid);
    StepKeeps(s, TaskSettles(task));
    var q := Pump(mid);
    Once(s, task);
    assert s.active > 0;
    NotAgain(s, mid, q, task);
    hide Pump;
  }

  lemma Once(s: State, task: nat)
    requires Inv(s) && task in s.inFlight
    ensures task in s.started
  {
  }

  /** A started task does not start again. */
  lemma NotAgain(s: State, mid: State, q: State, task: nat)
    requires Inv(q) && Pumped(mid, q) && mid.started == s.started && task in s.started && task !in mid.inFlight
    ensures task !in q.inFlight
  {
    var tail := q.started[|s.started|..];
    assert q.started == s.started + tail;
    assert multiset(q.started) == multiset(s.started) + multiset(tail);
    assert multiset(q.started)[task] <= 1 && multiset(s.started)[task] >= 1;
    var rest: multiset<nat> := multiset(tail);
    assert rest[task] == 0;
  }
}
