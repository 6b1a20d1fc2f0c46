/** The interval and cron scheduler of tools/jobs/jobs.ts: one instance, its timers and its executions. */
module JobsModel {
  import opened Common

  /** A job control. It outlives its registration while an execution of it is under way. */
  datatype Control = Control(id: nat, listed: bool, paused: bool, stopped: bool, timer: Option<nat>)

  /** One call of the job's function: has it settled, and has the scheduler stopped racing it against its timeout. */
  datatype Execution = Execution(control: nat, settled: bool, draining: bool)

  /** `controls` holds every control ever created, in creation order; the listed ones are in the source's map.
      `live` are the interval timers of the event loop, with the control each ticks. */
  datatype State = State(
    controls: seq<Control>, started: bool,
    running: set<nat>,                     // the controls whose running flag is set
    live: map<nat, nat>, nextTimer: nat,
    executions: map<nat, Execution>, nextExecution: nat,
    latest: map<nat, nat>)                 // the last execution each control began

  datatype Event =
    | Register(id: nat, testMode: bool)
    | StartJobs(testMode: bool)
    | RestartJobs(testMode: bool)
    | StopJob(id: nat)
    | PauseJob(id: nat)
    | ResumeJob(id: nat)
    | Destroy
    | TimerFires(timer: nat, due: bool)    // due: the cron trigger matches; always for interval jobs
    | TimesOut(execution: nat)
    | Settles(execution: nat)
    | Awaited(execution: nat)              // the race is over because the work settled
    | Ends(execution: nat)

  const Empty := State([], false, {}, map[], 0, map[], 0, map[])

  /** The listed control with this id, or |controls|. */
  function Find(controls: seq<Control>, id: nat): (i: nat)
    ensures i <= |controls|
    ensures i < |controls| ==> controls[i].listed && controls[i].id == id
    ensures i == |controls| ==> forall k | 0 <= k < |controls| :: !(controls[k].listed && controls[k].id == id)
  {
    if controls == [] || (controls[0].listed && controls[0].id == id) then 0 else
      assert forall k | 1 <= k < |controls| :: controls[k] == controls[1..][k - 1];
      1 + Find(controls[1..], id)
  }

  function Arm(s: State, i: nat): State
    requires i < |s.controls|
  {
    if s.controls[i].timer.Some? then s else
    s.(controls := s.controls[i := s.controls[i].(timer := Some(s.nextTimer))],
       live := s.live[s.nextTimer := i], nextTimer := s.nextTimer + 1)
  }

  function Disarm(s: State, i: nat): State
    requires i < |s.controls|
  {
    if s.controls[i].timer.None? then s else
    s.(controls := s.controls[i := s.controls[i].(timer := None)], live := s.live - {s.controls[i].timer.value})
  }

  function ArmListed(s: State, i: nat): (r: State)
    requires i < |s.controls|
    ensures |r.controls| == |s.controls|
  {
    if s.controls[i].listed then Arm(s, i) else s
  }

  function ArmAll(s: State, bound: nat): (r: State)
    requires bound <= |s.controls|
    ensures |r.controls| == |s.controls|
  {
    if bound == 0 then s else
    ArmListed(ArmAll(s, bound - 1), bound - 1)
  }

  function DisarmListed(s: State, i: nat): (r: State)
    requires i < |s.controls|
    ensures |r.controls| == |s.controls|
  {
    if s.controls[i].listed then Disarm(s, i) else s
  }

  function DisarmAll(s: State, bound: nat): (r: State)
    requires bound <= |s.controls|
    ensures |r.controls| == |s.controls|
  {
    if bound == 0 then s else
    DisarmListed(DisarmAll(s, bound - 1), bound - 1)
  }

  function Start(s: State, testMode: bool): State {
    if s.started || testMode then s else ArmAll(s.(started := true), |s.controls|)
  }

  function StopTimers(s: State): State { DisarmAll(s, |s.controls|).(started := false) }

  function Stop(s: State, i: nat): (r: State)
    requires i < |s.controls|
    ensures |r.controls| == |s.controls|
  {
    var q := Disarm(s.(controls := s.controls[i := s.controls[i].(stopped := true)]), i);
    q.(controls := q.controls[i := q.controls[i].(listed := false)])
  }

  function StopListed(s: State, i: nat): (r: State)
    requires i < |s.controls|
    ensures |r.controls| == |s.controls|
  {
    if s.controls[i].listed then Stop(s, i) else s
  }

  function StopAll(s: State, bound: nat): (r: State)
    requires bound <= |s.controls|
    ensures |r.controls| == |s.controls|
  {
    if bound == 0 then s else
    StopListed(StopAll(s, bound - 1), bound - 1)
  }

  /** One tick: nothing while paused, stopped or still running, otherwise a new execution. */
  function Execute(s: State, i: nat): State
    requires i < |s.controls|
  {
    var c := s.controls[i];
    if c.paused || c.stopped || i in s.running then s else
    s.(running := s.running + {i}, latest := s.latest[i := s.nextExecution],
       executions := s.executions[s.nextExecution := Execution(i, false, false)], nextExecution := s.nextExecution + 1)
  }

  function Flag(s: State, id: nat, paused: bool): State {
    var i := Find(s.controls, id);
    if i < |s.controls| then s.(controls := s.controls[i := s.controls[i].(paused := paused)]) else s
  }

  function Step(s: State, e: Event): State {
    match e
    case Register(id, testMode) =>
      if Find(s.controls, id) < |s.controls| then s else      // duplicate id: an error is raised
      var q := s.(controls := s.controls + [Control(id, true, false, false, None)]);
      if s.started && !testMode then Arm(q, |s.controls|) else q
    case StartJobs(testMode) => Start(s, testMode)
    case RestartJobs(testMode) => Start(StopTimers(s), testMode)
    case StopJob(id) => var i := Find(s.controls, id); if i < |s.controls| then Stop(s, i) else s
    case PauseJob(id) => Flag(s, id, true)
    case ResumeJob(id) => Flag(s, id, false)
    case Destroy => var q := StopTimers(s); StopAll(q, |q.controls|)
    case TimerFires(t, due) => if t in s.live && s.live[t] < |s.controls| && due then Execute(s, s.live[t]) else s
    case TimesOut(x) =>
      if x in s.executions && !s.executions[x].settled
        then s.(executions := s.executions[x := s.executions[x].(draining := true)]) else s
    case Settles(x) =>
      if x in s.executions then s.(executions := s.executions[x := s.executions[x].(settled := true)]) else s
    case Awaited(x) =>
      if x in s.executions && s.executions[x].settled
        then s.(executions := s.executions[x := s.executions[x].(draining := true)]) else s
    case Ends(x) =>
      if !(x in s.executions && s.executions[x].draining && s.executions[x].settled) then s else
      s.(running := s.running - {s.executions[x].control}, executions := s.executions - {x})
  }

  function Run(s: State, events: seq<Event>): State
    decreases |events|
  {
    if events == [] then s else Step(Run(s, events[..|events| - 1]), events[|events| - 1])
  }

  lemma RunOn(s: State, events: seq<Event>, e: Event)
    ensures Run(s, []) == s && Run(s, events + [e]) == Step(Run(s, events), e)
  {
    hide Step;
    assert (events + [e])[..|events|] == events;
  }

  // ---- what every step keeps ----

  /** A control is running exactly while its last execution has not ended; older ones have ended. */
  ghost predicate Exclusive(running: set<nat>, executions: map<nat, Execution>, latest: map<nat, nat>) {
    && (forall x | x in executions ::
          executions[x].control in running && executions[x].control in latest && latest[executions[x].control] == x)
    && (forall i | i in running :: i in latest && latest[i] in executions && executions[latest[i]].control == i)
  }

  /** The live timers are exactly those held by listed controls, each ticking its holder. */
  ghost predicate Timed(controls: seq<Control>, live: map<nat, nat>) {
    && (forall i | 0 <= i < |controls| && controls[i].timer.Some? ::
          controls[i].listed && controls[i].timer.value in live && live[controls[i].timer.value] == i)
    && (forall t | t in live :: live[t] < |controls| && controls[live[t]].timer == Some(t))
  }

  ghost predicate Unique(controls: seq<Control>) {
    forall i, j | 0 <= i < j < |controls| && controls[i].listed && controls[j].listed :: controls[i].id != controls[j].id
  }

  ghost predicate Numbered(s: State) {
    && (forall t | t in s.live :: t < s.nextTimer) && (forall x | x in s.executions :: x < s.nextExecution)
    && (forall i | i in s.running :: i < |s.controls|)
  }

  ghost predicate Inv(s: State) {
    Exclusive(s.running, s.executions, s.latest) && Timed(s.controls, s.live) && Unique(s.controls) && Numbered(s)
  }

  lemma ArmKeeps(s: State, i: nat)
    requires Inv(s) && i < |s.controls| && s.controls[i].listed
    ensures Inv(Arm(s, i))
  {
  }

  lemma DisarmKeeps(s: State, i: nat)
    requires Inv(s) && i < |s.controls|
    ensures Inv(Disarm(s, i)) && Disarm(s, i).controls[i].timer.None?
  {
  }

  lemma OneTimerLess(s: State, i: nat)
    requires Inv(s) && i < |s.controls|
    ensures |Disarm(s, i).live| == |s.live| - if s.controls[i].timer.Some? then 1 else 0
  {
    if s.controls[i].timer.Some? {
      var t := s.controls[i].timer.value;
      assert (s.live - {t}).Keys == s.live.Keys - {t};
      assert |(s.live - {t}).Keys| == |s.live - {t}| && |s.live.Keys| == |s.live|;
    }
  }

  lemma {:induction false} ArmAllKeeps(s: State, bound: nat)
    requires Inv(s) && bound <= |s.controls|
    ensures Inv(ArmAll(s, bound))
  {
    hide Inv, ArmListed;
    if bound > 0 {
      ArmAllKeeps(s, bound - 1);
      ArmListedKeeps(ArmAll(s, bound - 1), bound - 1);
      assert ArmAll(s, bound) == ArmListed(ArmAll(s, bound - 1), bound - 1);
    }
  }

  lemma ArmListedKeeps(s: State, i: nat)
    requires Inv(s) && i < |s.controls|
    ensures Inv(ArmListed(s, i))
  {
    if s.controls[i].listed { ArmKeeps(s, i); }
  }

  lemma {:induction false} DisarmAllKeeps(s: State, bound: nat)
    requires Inv(s) && bound <= |s.controls|
    ensures Inv(DisarmAll(s, bound))
  {
    hide Inv, DisarmListed;
    if bound > 0 {
      DisarmAllKeeps(s, bound - 1);
      DisarmListedKeeps(DisarmAll(s, bound - 1), bound - 1);
      assert DisarmAll(s, bound) == DisarmListed(DisarmAll(s, bound - 1), bound - 1);
    }
  }

  lemma DisarmListedKeeps(s: State, i: nat)
    requires Inv(s) && i < |s.controls|
    ensures Inv(DisarmListed(s, i))
  {
    DisarmKeeps(s, i);
  }

  lemma StopKeeps(s: State, i: nat)
    requires Inv(s) && i < |s.controls|
    ensures Inv(Stop(s, i))
  {
    var r := s.(controls := s.controls[i := s.controls[i].(stopped := true)]);
    assert Inv(r);
    DisarmKeeps(r, i);
  }

  lemma {:induction false} StopAllKeeps(s: State, bound: nat)
    requires Inv(s) && bound <= |s.controls|
    ensures Inv(StopAll(s, bound))
  {
    hide Inv, StopListed;
    if bound > 0 {
      StopAllKeeps(s, bound - 1);
      StopListedKeeps(StopAll(s, bound - 1), bound - 1);
      assert StopAll(s, bound) == StopListed(StopAll(s, bound - 1), bound - 1);
    }
  }

  lemma StopListedKeeps(s: State, i: nat)
    requires Inv(s) && i < |s.controls|
    ensures Inv(StopListed(s, i))
  {
    StopKeeps(s, i);
  }

  lemma ExecuteKeeps(s: State, i: nat)
    requires Inv(s) && i < |s.controls|
    ensures Inv(Execute(s, i))
  {
    assert s.nextExecution !in s.executions;
  }

  lemma ExecutionKeeps(s: State, x: nat, execution: Execution)
    requires Inv(s) && x in s.executions && execution.control == s.executions[x].control
    ensures Inv(s.(executions := s.executions[x := execution]))
  {
  }

  lemma EndsKeeps(s: State, x: nat)
    requires Inv(s) && x in s.executions
    ensures Inv(s.(running := s.running - {s.executions[x].control}, executions := s.executions - {x}))
  {
  }

  lemma RegisterKeeps(s: State, id: nat, testMode: bool)
    requires Inv(s) && Find(s.controls, id) == |s.controls|
    ensures Inv(Step(s, Register(id, testMode)))
  {
    var q := s.(controls := s.controls + [Control(id, true, false, false, None)]);
    assert Inv(q);
    ArmKeeps(q, |s.controls|);
  }

  lemma FlagKeeps(s: State, id: nat, paused: bool)
    requires Inv(s)
    ensures Inv(Flag(s, id, paused))
  {
  }

  lemma StartKeeps(s: State, testMode: bool)
    requires Inv(s)
    ensures Inv(Start(s, testMode))
  {
    assert Inv(s.(started := true));
    hide Inv, ArmAll;
    ArmAllKeeps(s.(started := true), |s.controls|);
  }

  lemma StopTimersKeeps(s: State)
    requires Inv(s)
    ensures Inv(StopTimers(s))
  {
    DisarmAllKeeps(s, |s.controls|);
    hide DisarmAll, Exclusive, Timed, Unique;
  }

  lemma MarkKeeps(s: State, e: Event)
    requires Inv(s) && (e.TimesOut? || e.Settles? || e.Awaited?)
    ensures Inv(Step(s, e))
  {
    hide Inv;
    var x := e.execution;
    if x in s.executions {
      ExecutionKeeps(s, x, s.executions[x].(draining := true));
      ExecutionKeeps(s, x, s.executions[x].(settled := true));
    }
  }

  lemma StepKeeps(s: State, e: Event)
    requires Inv(s)
    ensures Inv(Step(s, e))
  {
    hide Inv, Flag, Stop, StopAll, DisarmAll, ArmAll, Execute, Arm;
    match e
    case Register(id, testMode) => if Find(s.controls, id) == |s.controls| { RegisterKeeps(s, id, testMode); }
    case StartJobs(testMode) => StartKeeps(s, testMode);
    case RestartJobs(testMode) =>
      StopTimersKeeps(s);
      StartKeeps(StopTimers(s), testMode);
    case StopJob(id) => if Find(s.controls, id) < |s.controls| { StopKeeps(s, Find(s.controls, id)); }
    case PauseJob(id) => FlagKeeps(s, id, true);
    case ResumeJob(id) => FlagKeeps(s, id, false);
    case Destroy =>
      StopTimersKeeps(s);
      StopAllKeeps(StopTimers(s), |StopTimers(s).controls|);
    case TimerFires(t, due) => if t in s.live && s.live[t] < |s.controls| { ExecuteKeeps(s, s.live[t]); }
    case Ends(x) => if x in s.executions { EndsKeeps(s, x); }
    case _ => MarkKeeps(s, e);
  }

  lemma {:induction false} RunKeeps(events: seq<Event>)
    ensures Inv(Run(Empty, events))
    decreases |events|
  {
    if events != [] {
      RunKeeps(events[..|events| - 1]);
      StepKeeps(Run(Empty, events[..|events| - 1]), events[|events| - 1]);
    }
  }

  // ---- main results: every sequence of calls, ticks, timeouts and settlements ----

  /** Two executions of one job never overlap: an execution whose work has not settled keeps its control running,
      also after its timeout, a pause, a resume or a stop; and a control stops running when its execution ends. */
  lemma NoOverlap(events: seq<Event>)
    ensures var s := Run(Empty, events);
      && (forall x | x in s.executions && !s.executions[x].settled ::
            s.executions[x].control in s.running)
      && (forall x, y | x in s.executions && y in s.executions && x != y ::
            s.executions[x].control != s.executions[y].control)
      && (forall i | i in s.running :: exists x :: x in s.executions && s.executions[x].control == i)
  {
    RunKeeps(events);
  }

  /** The live interval timers are exactly those held by registered jobs, one to one. */
  lemma TimersMatchJobs(events: seq<Event>)
    ensures var s := Run(Empty, events);
      && (forall t: nat :: t in s.live <==>
            exists i :: 0 <= i < |s.controls| && s.controls[i].listed && s.controls[i].timer == Some(t))
      && (forall i, j | 0 <= i < j < |s.controls| && s.controls[i].timer.Some? :: s.controls[i].timer != s.controls[j].timer)
  {
    RunKeeps(events);
    var s := Run(Empty, events);
    forall t | t in s.live
      ensures exists i :: 0 <= i < |s.controls| && s.controls[i].listed && s.controls[i].timer == Some(t)
    {
      assert s.controls[s.live[t]].timer == Some(t);
    }
  }

  lemma {:induction false} StopAllLeavesNone(s: State, bound: nat)
    requires bound <= |s.controls|
    ensures var r := StopAll(s, bound);
      && (forall i | 0 <= i < bound :: !r.controls[i].listed)
      && (forall i | bound <= i < |s.controls| :: r.controls[i] == s.controls[i])
  {
    if bound > 0 { StopAllLeavesNone(s, bound - 1); }
  }

  lemma UnlistedHoldNone(controls: seq<Control>, live: map<nat, nat>)
    requires Timed(controls, live) && forall i | 0 <= i < |controls| :: !controls[i].listed
    ensures live == map[]
  {
    assert forall i | 0 <= i < |controls| :: controls[i].timer.None?;
    assert forall t: nat :: t !in live;
  }

  /** Destroying the instance leaves no live timer and no registered job. */
  lemma DestroyClears(events: seq<Event>)
    ensures var s := Run(Empty, events + [Destroy]);
      s.live == map[] && !s.started && forall i | 0 <= i < |s.controls| :: !s.controls[i].listed
  {
    var s := Run(Empty, events);
    var q := StopTimers(s);
    assert (events + [Destroy])[..|events|] == events;
    RunKeeps(events + [Destroy]);
    StartedAfterDestroy(s);
    StopAllLeavesNone(q, |q.controls|);
    var r := Run(Empty, events + [Destroy]);
    assert r == StopAll(q, |q.controls|);
    hide StopAll, StopTimers, Run, Step, Exclusive, Unique, Numbered, Timed;
    assert |r.controls| == |q.controls|;
    assert forall i | 0 <= i < |r.controls| :: !r.controls[i].listed;
    UnlistedHoldNone(r.controls, r.live);
  }

  lemma {:induction false} StopAllKeepsStarted(s: State, bound: nat)
    requires bound <= |s.controls|
    ensures StopAll(s, bound).started == s.started
  {
    if bound > 0 { StopAllKeepsStarted(s, bound - 1); }
  }

  lemma StartedAfterDestroy(s: State)
    ensures !Step(s, Destroy).started
  {
    var q := StopTimers(s);
    StopAllKeepsStarted(q, |q.controls|);
  }
}

/** The scheduler in its own form: an object whose methods update its fields and its jobs' flags. */
module JobsClass {
  import opened Common
  import opened JobsModel

  class Jobs {
    var controls: seq<Control>
    var started: bool
    var running: set<nat>
    ghost var model: State

    ghost predicate Agrees()
      reads this
    {
      model.controls == controls && model.started == started && model.running == running
    }

    constructor ()
      ensures Agrees() && model == Empty
    {
      controls, started, running := [], false, {};
      model := Empty;
    }

    /** `timer` is the id setInterval returns if it is called. */
    method ArmControl(i: nat, timer: nat) returns (next: nat)
      requires Agrees() && i < |controls| && timer == model.nextTimer
      modifies this
      ensures Agrees() && model == Arm(old(model), i) && next == model.nextTimer
      ensures controls[i].timer.Some? && (old(controls)[i].timer.Some? ==> model == old(model))
      ensures |controls| == |old(controls)| && forall k | 0 <= k < |controls| && k != i :: controls[k] == old(controls)[k]
      ensures old(Inv(model)) && controls[i].listed ==> Inv(model) && model.live[controls[i].timer.value] == i
    {
      if Inv(model) && controls[i].listed { ArmKeeps(model, i); }
      next := timer;
      if controls[i].timer.None? {
        model := Arm(model, i);
        controls := controls[i := controls[i].(timer := Some(timer))];
        next := timer + 1;
      }
    }

    method DisarmControl(i: nat)
      requires Agrees() && i < |controls|
      modifies this
      ensures Agrees() && model == Disarm(old(model), i)
      ensures controls[i].timer.None? && forall t | t in model.live :: old(controls)[i].timer != Some(t)
      ensures |controls| == |old(controls)| && forall k | 0 <= k < |controls| && k != i :: controls[k] == old(controls)[k]
      ensures old(Inv(model)) ==> Inv(model) && |model.live| == |old(model).live| - if old(controls)[i].timer.Some? then 1 else 0
    {
      if Inv(model) { DisarmKeeps(model, i); OneTimerLess(model, i); }
      model := Disarm(model, i);
      if controls[i].timer.Some? {
        controls := controls[i := controls[i].(timer := None)];
      }
    }

    method StartAll(testMode: bool, timer: nat)
      requires Agrees() && timer == model.nextTimer
      modifies this
      ensures Agrees() && model == Start(old(model), testMode)
    {
      hide Inv, Arm;
      if started || testMode { return; }
      started := true;
      model := model.(started := true);
      ghost var begun := model;
      var free := timer;
      var i := 0;
      while i < |controls|
        invariant Agrees() && i <= |controls| == |begun.controls| && free == model.nextTimer
        invariant model == ArmAll(begun, i)
      {
        if controls[i].listed { free := ArmControl(i, free); }
        i := i + 1;
      }
    }

    method StopAllTimers()
      requires Agrees()
      modifies this
      ensures Agrees() && model == StopTimers(old(model))
    {
      hide Inv, Disarm;
      ghost var begun := model;
      var i := 0;
      while i < |controls|
        invariant Agrees() && i <= |controls| == |begun.controls| && model == DisarmAll(begun, i)
      {
        if controls[i].listed { DisarmControl(i); }
        i := i + 1;
      }
      started := false;
      model := model.(started := false);
    }

    method StopControl(i: nat)
      requires Agrees() && i < |controls|
      modifies this
      ensures Agrees() && model == Stop(old(model), i)
    {
      controls := controls[i := controls[i].(stopped := true)];
      model := model.(controls := controls);
      DisarmControl(i);
      controls := controls[i := controls[i].(listed := false)];
      model := model.(controls := controls);
    }

    method DestroyAll()
      requires Agrees()
      modifies this
      ensures Agrees() && model == Step(old(model), Destroy)
    {
      hide Inv, Stop, DisarmAll;
      StopAllTimers();
      ghost var begun := model;
      var i := 0;
      while i < |controls|
        invariant Agrees() && i <= |controls| == |begun.controls| && model == StopAll(begun, i)
      {
        if controls[i].listed { StopControl(i); }
        i := i + 1;
      }
    }

    /** The tick of a control: `begun` tells whether an execution starts. */
    method Tick(i: nat) returns (begun: bool)
      requires Agrees() && i < |controls|
      modifies this
      ensures Agrees() && model == Execute(old(model), i) && begun == (model.running != old(model).running)
    {
      begun := !(controls[i].paused || controls[i].stopped || i in running);
      if begun {
        model := Execute(model, i);
        running := running + {i};
      }
    }

    /** The end of the finally block, after the work itself has settled: this job can begin again, no other is touched. */
    method ExecutionEnded(x: nat, i: nat)
      requires Agrees() && x in model.executions && model.executions[x] == Execution(i, true, true)
      modifies this
      ensures Agrees() && model == Step(old(model), Ends(x))
      ensures i !in running && running + {i} == old(running) + {i} && controls == old(controls) && model.live == old(model).live
      ensures old(Inv(model)) ==> Inv(model) && forall y | y in model.executions :: model.executions[y].control != i
    {
      if Inv(model) { EndsKeeps(model, x); }
      model := Step(model, Ends(x));
      running := running - {i};
    }
  }
}
