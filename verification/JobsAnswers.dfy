/** What the calls and timers of tools/jobs/jobs.ts answer: which jobs tick, which ticks run, and what one call leaves
    alone. */
module JobsAnswers {
  import opened Common
  import opened JobsModel

  /** A live timer of the event loop ticks this job. */
  predicate Ticks(s: State, i: nat) {
    && i < |s.controls| && s.controls[i].listed && s.controls[i].timer.Some?
    && s.controls[i].timer.value in s.live && s.live[s.controls[i].timer.value] == i
  }

  ghost predicate AllTick(s: State) { forall i: nat | i < |s.controls| && s.controls[i].listed :: Ticks(s, i) }

  // ---- starting ----

  lemma ArmTicks(s: State, i: nat)
    requires Inv(s) && i < |s.controls|
    ensures var q := ArmListed(s, i);
      && |q.controls| == |s.controls| && (s.controls[i].listed ==> Ticks(q, i)) && q.started == s.started
      && (forall j: nat | Ticks(s, j) :: Ticks(q, j))
      && (forall j | 0 <= j < |s.controls| :: q.controls[j] == s.controls[j].(timer := q.controls[j].timer))
  {
  }

  lemma {:induction false} ArmAllTicks(s: State, bound: nat)
    requires Inv(s) && bound <= |s.controls|
    ensures var q := ArmAll(s, bound);
      && (forall i: nat | i < bound && s.controls[i].listed :: Ticks(q, i)) && q.started == s.started
      && (forall j | 0 <= j < |s.controls| :: q.controls[j] == s.controls[j].(timer := q.controls[j].timer))
  {
    hide Inv, ArmListed, Ticks;
    if bound > 0 {
      var mid := ArmAll(s, bound - 1);
      ArmAllTicks(s, bound - 1);
      ArmAllKeeps(s, bound - 1);
      ArmTicks(mid, bound - 1);
    }
  }

  lemma StartedInv(s: State, started: bool)
    requires Inv(s)
    ensures Inv(s.(started := started))
  {
  }

  /** Everything about the jobs but their timers. */
  ghost predicate SameJobs(s: State, q: State) {
    |q.controls| == |s.controls| && forall j | 0 <= j < |s.controls| :: q.controls[j] == s.controls[j].(timer := q.controls[j].timer)
  }

  /** Starting a scheduler that is not started arms every registered job, unless in test mode; a second start does
      nothing. */
  lemma StartTicks(s: State, testMode: bool)
    requires Inv(s)
    ensures var q := Step(s, StartJobs(testMode));
      && (s.started || testMode ==> q == s)
      && (!s.started && !testMode ==> q.started && AllTick(q) && SameJobs(s, q))
  {
    if !s.started && !testMode {
      StartedInv(s, true);
      hide Inv, ArmAll, Ticks;
      ArmAllTicks(s.(started := true), |s.controls|);
    }
  }

  lemma DisarmOne(s: State, i: nat)
    requires Inv(s) && i < |s.controls|
    ensures var q := DisarmListed(s, i);
      && |q.controls| == |s.controls| && (s.controls[i].listed ==> q.controls[i].timer == None)
      && (forall j | 0 <= j < |s.controls| && s.controls[j].timer == None :: q.controls[j].timer == None)
      && (forall j | 0 <= j < |s.controls| :: q.controls[j] == s.controls[j].(timer := q.controls[j].timer))
  {
  }

  lemma {:induction false} DisarmAllStops(s: State, bound: nat)
    requires Inv(s) && bound <= |s.controls|
    ensures var q := DisarmAll(s, bound);
      && (forall i | 0 <= i < bound && s.controls[i].listed :: q.controls[i].timer == None)
      && (forall j | 0 <= j < |s.controls| :: q.controls[j] == s.controls[j].(timer := q.controls[j].timer))
  {
    hide Inv, DisarmListed;
    if bound > 0 {
      DisarmAllStops(s, bound - 1);
      DisarmAllKeeps(s, bound - 1);
      DisarmOne(DisarmAll(s, bound - 1), bound - 1);
    }
  }

  lemma NoTimerNoLive(s: State)
    requires Timed(s.controls, s.live) && forall i | 0 <= i < |s.controls| && s.controls[i].listed :: s.controls[i].timer == None
    ensures s.live == map[]
  {
    assert forall t: nat :: t !in s.live;
  }

  /** Stopping the timers leaves none alive. */
  lemma StopTimersStops(s: State)
    requires Inv(s)
    ensures var q := StopTimers(s); Inv(q) && q.live == map[] && !q.started && SameJobs(s, q)
  {
    StopTimersKeeps(s);
    DisarmAllStops(s, |s.controls|);
    hide DisarmAll, Exclusive, Unique, Numbered, Timed;
    NoTimerNoLive(StopTimers(s));
  }

  /** A restart arms every registered job anew; in test mode it leaves no timer. */
  lemma RestartTicks(s: State, testMode: bool)
    requires Inv(s)
    ensures var q := Step(s, RestartJobs(testMode));
      && SameJobs(s, q)
      && (!testMode ==> q.started && AllTick(q))
      && (testMode ==> !q.started && q.live == map[])
  {
    StopTimersStops(s);
    var mid := StopTimers(s);
    StartTicks(mid, testMode);
    assert Step(s, RestartJobs(testMode)) == Step(mid, StartJobs(testMode));
    hide Inv, Start, StopTimers, AllTick;
  }

  // ---- registering, stopping, pausing ----

  /** Registering an id that is in use changes nothing; otherwise a job that is neither paused nor stopped is added, and
      ticks at once when the scheduler is started. */
  lemma RegisterAnswers(s: State, id: nat, testMode: bool)
    requires Inv(s)
    ensures var q, i := Step(s, Register(id, testMode)), |s.controls|;
      if exists c :: c in s.controls && c.listed && c.id == id then q == s
      else
        && |q.controls| == i + 1 && q.controls[..i] == s.controls && q.started == s.started
        && q.controls[i].id == id && q.controls[i].listed && !q.controls[i].paused && !q.controls[i].stopped
        && (if s.started && !testMode then Ticks(q, i) else q.controls[i].timer == None && q.live == s.live)
  {
    var i := Find(s.controls, id);
    if i < |s.controls| {
      assert s.controls[i] in s.controls;
    }
    hide Find, Exclusive;
  }

  lemma FoundIs(s: State, i: nat)
    requires Unique(s.controls) && i < |s.controls| && s.controls[i].listed
    ensures Find(s.controls, s.controls[i].id) == i
  {
    hide Find;
  }

  /** Stopping, pausing and resuming a job concern that job only. */
  ghost predicate OnlyJob(s: State, q: State, i: nat) {
    && |q.controls| == |s.controls| && (forall j | 0 <= j < |s.controls| && j != i :: q.controls[j] == s.controls[j])
    && q.executions == s.executions && q.running == s.running && q.started == s.started
  }

  lemma JobAnswers(s: State, i: nat)
    requires Inv(s) && i < |s.controls| && s.controls[i].listed
    ensures var q := Step(s, StopJob(s.controls[i].id));
      OnlyJob(s, q, i) && !q.controls[i].listed && q.controls[i].stopped && q.controls[i].timer == None
      && (forall t: nat | t in q.live :: q.live[t] != i)
    ensures var q := Step(s, PauseJob(s.controls[i].id));
      OnlyJob(s, q, i) && q.controls[i] == s.controls[i].(paused := true) && q.live == s.live
    ensures var q := Step(s, ResumeJob(s.controls[i].id));
      OnlyJob(s, q, i) && q.controls[i] == s.controls[i].(paused := false) && q.live == s.live
  {
    FoundIs(s, i);
    StopAnswers(s, i);
    hide Stop, Inv;
  }

  lemma StopAnswers(s: State, i: nat)
    requires Inv(s) && i < |s.controls| && s.controls[i].listed
    ensures var q := Stop(s, i);
      OnlyJob(s, q, i) && !q.controls[i].listed && q.controls[i].stopped && q.controls[i].timer == None
      && (forall t: nat | t in q.live :: q.live[t] != i)
  {
  }

  // ---- ticks and executions ----

  /** A tick begins one execution exactly when its timer is alive and due, and its job is neither paused, stopped nor
      still running; otherwise nothing happens. */
  lemma TickRunsIff(s: State, t: nat, due: bool)
    requires Inv(s)
    ensures var q, x := Step(s, TimerFires(t, due)), s.nextExecution;
      if t in s.live && due && !s.controls[s.live[t]].paused && !s.controls[s.live[t]].stopped && s.live[t] !in s.running
      then q.executions == s.executions[x := Execution(s.live[t], false, false)] && x !in s.executions
        && q.running == s.running + {s.live[t]} && q.controls == s.controls && q.live == s.live
      else q == s
  {
  }

  /** An execution is over exactly when its work has settled and the race around it has been decided. */
  lemma EndsIff(s: State, x: nat)
    requires Inv(s) && x in s.executions
    ensures var q, i := Step(s, Ends(x)), s.executions[x].control;
      if s.executions[x].settled && s.executions[x].draining
      then x !in q.executions && i !in q.running && q.controls == s.controls && q.live == s.live
      else q == s
    ensures Step(s, TimesOut(x)).running == s.running && Step(s, Settles(x)).running == s.running
    ensures Step(s, Settles(x)).executions[x].settled && (Step(s, TimesOut(x)).executions[x].settled <==> s.executions[x].settled)
    ensures s.executions[x].settled ==> Step(s, Awaited(x)).executions[x].draining
    ensures !s.executions[x].settled ==> Step(s, TimesOut(x)).executions[x].draining && Step(s, Awaited(x)) == s
  {
  }

  // ---- over runs ----

  predicate TestMode(e: Event) {
    (e.Register? || e.StartJobs? || e.RestartJobs?) && e.testMode
  }

  /** A scheduler that is not started has no timer; one that is started ticks every registered job. */
  ghost predicate Armed(s: State) { (s.started ==> AllTick(s)) && (!s.started ==> s.live == map[]) }

  lemma RegisterArmed(s: State, id: nat)
    requires Inv(s) && Armed(s)
    ensures Armed(Step(s, Register(id, false)))
  {
    if Find(s.controls, id) == |s.controls| {
      var q := Step(s, Register(id, false));
      forall i: nat | q.started && i < |q.controls| && q.controls[i].listed ensures Ticks(q, i) {
        if i < |s.controls| { assert Ticks(s, i); }
      }
    }
  }

  lemma StopArmed(s: State, i: nat)
    requires Inv(s) && Armed(s) && i < |s.controls|
    ensures Armed(Stop(s, i))
  {
    var q := Stop(s, i);
    forall j: nat | q.started && j < |q.controls| && q.controls[j].listed ensures Ticks(q, j) {
      assert Ticks(s, j);
    }
  }

  lemma FlagArmed(s: State, id: nat, paused: bool)
    requires Armed(s)
    ensures Armed(Flag(s, id, paused))
  {
    var q := Flag(s, id, paused);
    forall j: nat | q.started && j < |q.controls| && q.controls[j].listed ensures Ticks(q, j) {
      assert Ticks(s, j);
    }
  }

  lemma DestroyArmed(s: State)
    requires Inv(s)
    ensures Armed(Step(s, Destroy))
  {
    var mid := StopTimers(s);
    StopTimersKeeps(s);
    StopAllKeeps(mid, |mid.controls|);
    StartedAfterDestroy(s);
    StopAllLeavesNone(mid, |mid.controls|);
    var r := StopAll(mid, |mid.controls|);
    assert r == Step(s, Destroy) && Timed(r.controls, r.live);
    hide StopAll, StopTimers, Step, Inv, Timed;
    NoTimerNoLiveListed(r);
  }

  lemma NoTimerNoLiveListed(s: State)
    requires Timed(s.controls, s.live) && forall i | 0 <= i < |s.controls| :: !s.controls[i].listed
    ensures s.live == map[]
  {
    UnlistedHoldNone(s.controls, s.live);
    hide Timed;
  }

  lemma SameTimersArmed(s: State, q: State)
    requires Armed(s) && q.controls == s.controls && q.live == s.live && q.started == s.started
    ensures Armed(q)
  {
    forall i: nat | q.started && i < |q.controls| && q.controls[i].listed ensures Ticks(q, i) { assert Ticks(s, i); }
  }

  lemma StepArmed(s: State, e: Event)
    requires Inv(s) && Armed(s) && !TestMode(e)
    ensures Armed(Step(s, e))
  {
    hide Inv, Armed, Stop, Flag, Start, StopTimers, Find, Execute;
    match e
    case Register(id, _) => RegisterArmed(s, id);
    case StartJobs(_) => StartArmed(s);
    case RestartJobs(_) => RestartArmed(s);
    case StopJob(id) => if Find(s.controls, id) < |s.controls| { StopArmed(s, Find(s.controls, id)); }
    case PauseJob(id) => FlagArmed(s, id, true);
    case ResumeJob(id) => FlagArmed(s, id, false);
    case Destroy => DestroyArmed(s);
    case TimerFires(t, due) => ExecuteTimers(s, e); SameTimersArmed(s, Step(s, e));
    case _ => SameTimersArmed(s, Step(s, e));
  }

  lemma ExecuteTimers(s: State, e: Event)
    requires e.TimerFires?
    ensures var q := Step(s, e); q.controls == s.controls && q.live == s.live && q.started == s.started
  {
  }

  lemma StartArmed(s: State)
    requires Inv(s) && Armed(s)
    ensures Armed(Step(s, StartJobs(false)))
  {
    StartTicks(s, false);
    hide Step, Inv, AllTick;
  }

  lemma RestartArmed(s: State)
    requires Inv(s)
    ensures Armed(Step(s, RestartJobs(false)))
  {
    RestartTicks(s, false);
    hide Step, Inv, AllTick;
  }

  /** Outside test mode, in every run: once started, and until the timers are stopped, every registered job holds a live
      timer that ticks it; before, and after, no timer is alive. */
  lemma {:induction false} StartedTicks(events: seq<Event>)
    requires forall e | e in events :: !TestMode(e)
    ensures var s := Run(Empty, events);
      && (s.started ==> forall i: nat | i < |s.controls| && s.controls[i].listed :: Ticks(s, i))
      && (!s.started ==> s.live == map[])
    decreases |events|
  {
    if events != [] {
      var front, last := events[..|events| - 1], events[|events| - 1];
      assert last in events && forall e | e in front :: e in events;
      StartedTicks(front);
      RunKeeps(front);
      hide Step, Inv, Ticks;
      StepArmed(Run(Empty, front), last);
    }
  }
}
