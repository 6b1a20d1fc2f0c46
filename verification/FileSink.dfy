/** The rotating file sink of logger/sink/file.ts with retention off: one directory, its active file and its
    backups, named by their rotation time. File operations may fail at any point. */
module FileSinkModel {
  import opened Common

  /** `active`..`lastRotation` are the fields of the sink's state. */
  datatype State = State(
    rotate: bool, maxSize: nat,
    active: bool, currentSize: nat, lastRotation: int,
    current: Bytes,                   // contents of the active file
    backups: map<int, Bytes>,         // by rotation time, older ones of other runs included
    rotated: seq<int>)                // rotation times of this sink, in order

  /** Where the file system fails during one write, if it does. */
  datatype Fault = NoFault | ScanFails | RenameFails | PrepareFails | AppendFails(written: nat)

  /** One line, already encoded with its newline, written at clock time `now`. */
  datatype Event = Write(line: Bytes, now: int, fault: Fault)

  function Opened(rotate: bool, maxSize: nat, contents: Bytes, backups: map<int, Bytes>): State {
    State(rotate, maxSize, true, |contents|, 0, contents, backups, [])
  }

  ghost function Later(backups: map<int, Bytes>, t: int): set<int> { set k | k in backups && k >= t }

  /** The first time from `t` on that names no backup. */
  function NextFree(backups: map<int, Bytes>, t: int): (r: int)
    ensures r >= t && r !in backups && forall k | t <= k < r :: k in backups
    decreases Later(backups, t)
  {
    if t !in backups then t else
      assert t in Later(backups, t) && Later(backups, t + 1) <= Later(backups, t);
      NextFree(backups, t + 1)
  }

  function FirstTry(s: State, now: int): int { if now >= s.lastRotation + 1 then now else s.lastRotation + 1 }

  predicate MustRotate(s: State, line: Bytes) {
    s.rotate && s.currentSize > 0 && s.currentSize + |line| > s.maxSize
  }

  /** The active file becomes a backup and an empty one takes its place; any failure turns the sink off. */
  function Rotate(s: State, now: int, fault: Fault): State {
    var t := NextFree(s.backups, FirstTry(s, now));
    if fault.ScanFails? then s.(active := false, lastRotation := FirstTry(s, now))
    else if fault.RenameFails? then s.(active := false, lastRotation := t)
    else
      var q := s.(backups := s.backups[t := s.current], current := [], rotated := s.rotated + [t], lastRotation := t);
      if fault.PrepareFails? then q.(active := false) else q.(currentSize := 0)
  }

  /** A failed append may leave any prefix of the line behind. */
  function Append(s: State, line: Bytes, fault: Fault): State {
    if fault.AppendFails? then
      s.(active := false, current := s.current + line[..if fault.written <= |line| then fault.written else |line|])
    else s.(current := s.current + line, currentSize := s.currentSize + |line|)
  }

  function Step(s: State, e: Event): State {
    if !s.active then s else
    var q := if MustRotate(s, e.line) then Rotate(s, e.now, e.fault) else s;
    if q.active then Append(q, e.line, e.fault) else q
  }

  function Run(s: State, events: seq<Event>): State
    decreases |events|
  {
    if events == [] then s else Step(Run(s, events[..|events| - 1]), events[|events| - 1])
  }

  lemma RunOn(s: State, events: seq<Event>, e: Event)
    ensures Run(s, []) == s && Run(s, events + [e]) == Step(Run(s, events), e)
  {
    hide Step;
    assert (events + [e])[..|events|] == events;
  }

  // ---- what the files hold ----

  function Lines(events: seq<Event>): Bytes
    decreases |events|
  {
    if events == [] then [] else Lines(events[..|events| - 1]) + events[|events| - 1].line
  }

  /** The backups of this sink in rotation order. */
  ghost function Joined(backups: map<int, Bytes>, times: seq<int>): Bytes
    decreases |times|
  {
    if times == [] then [] else
    var last := times[|times| - 1];
    Joined(backups, times[..|times| - 1]) + if last in backups then backups[last] else []
  }

  ghost predicate Named(s: State, before: map<int, Bytes>) {
    && Increasing(s.rotated)
    && (forall t | t in s.rotated :: t in s.backups && t <= s.lastRotation && t !in before)
    && (forall t | t in before :: t in s.backups && s.backups[t] == before[t])
    && (forall t | t in s.backups :: t in before || t in s.rotated)
  }

  ghost predicate Whole(s: State, contents: Bytes, events: seq<Event>) {
    var files := Joined(s.backups, s.rotated) + s.current;
    files <= contents + Lines(events) && (s.active ==> files == contents + Lines(events) && s.currentSize == |s.current|)
  }

  /** A file within the limit, unless it is the initial contents or one line on its own. */
  ghost predicate Fits(file: Bytes, maxSize: nat, contents: Bytes, events: seq<Event>) {
    |file| <= maxSize || file == contents || exists e :: e in events && file == e.line
  }

  ghost predicate Sized(s: State, contents: Bytes, events: seq<Event>) {
    && (s.rotate && s.active ==> Fits(s.current, s.maxSize, contents, events))
    && (forall t | t in s.rotated :: t in s.backups && Fits(s.backups[t], s.maxSize, contents, events))
  }

  lemma {:induction false} JoinedFrame(backups: map<int, Bytes>, times: seq<int>, t: int, file: Bytes)
    requires t !in times
    ensures Joined(backups[t := file], times) == Joined(backups, times)
    decreases |times|
  {
    if times != [] {
      assert times[|times| - 1] in times;
      JoinedFrame(backups, times[..|times| - 1], t, file);
    }
  }

  lemma IncreasingOn(times: seq<int>, t: int)
    requires Increasing(times) && forall k | k in times :: k < t
    ensures Increasing(times + [t])
  {
    assert forall i | 0 <= i < |times| :: times[i] in times;
  }

  lemma NameAdded(s: State, q: State, t: int, before: map<int, Bytes>)
    requires Named(s, before) && t > s.lastRotation && t !in s.backups
    requires q.rotated == s.rotated + [t] && q.backups == s.backups[t := s.current] && q.lastRotation == t
    ensures Named(q, before)
  {
    IncreasingOn(s.rotated, t);
    hide Increasing;
    assert forall k | k in q.rotated :: k in s.rotated || k == t;
    assert forall k | k in s.rotated :: k in q.rotated;
    assert q.rotated[|s.rotated|] == t;
  }

  lemma NameKept(s: State, q: State, before: map<int, Bytes>)
    requires Named(s, before) && q.rotated == s.rotated && q.backups == s.backups && q.lastRotation >= s.lastRotation
    ensures Named(q, before)
  {
  }

  lemma RotateNames(s: State, now: int, fault: Fault, before: map<int, Bytes>)
    requires Named(s, before)
    ensures Named(Rotate(s, now, fault), before)
  {
    var q, t := Rotate(s, now, fault), NextFree(s.backups, FirstTry(s, now));
    hide Named, NextFree;
    if fault.ScanFails? || fault.RenameFails? { NameKept(s, q, before); } else { NameAdded(s, q, t, before); }
  }

  lemma RotateJoins(s: State, now: int, fault: Fault)
    requires forall t | t in s.rotated :: t in s.backups
    ensures var q := Rotate(s, now, fault);
      Joined(q.backups, q.rotated) + q.current == Joined(s.backups, s.rotated) + s.current
  {
    var q, t := Rotate(s, now, fault), NextFree(s.backups, FirstTry(s, now));
    if q.rotated != s.rotated {
      assert q.rotated[..|q.rotated| - 1] == s.rotated;
      JoinedFrame(s.backups, s.rotated, t, s.current);
    }
  }

  lemma RotateSizes(s: State, now: int, fault: Fault, contents: Bytes, events: seq<Event>)
    requires Sized(s, contents, events) && s.active && s.rotate
    ensures Sized(Rotate(s, now, fault), contents, events)
  {
    var q, t := Rotate(s, now, fault), NextFree(s.backups, FirstTry(s, now));
    assert q.rotated == s.rotated || forall k | k in q.rotated :: k in s.rotated || k == t;
  }

  /** The state a line is appended to. */
  function Readied(s: State, e: Event): State { if MustRotate(s, e.line) then Rotate(s, e.now, e.fault) else s }

  ghost predicate Ready(q: State, e: Event, contents: Bytes, events: seq<Event>, before: map<int, Bytes>) {
    && Named(q, before) && (q.active ==> q.currentSize == |q.current|)
    && Joined(q.backups, q.rotated) + q.current == contents + Lines(events)
    && Sized(q, contents, events + [e])
    && (q.active && q.rotate && q.currentSize > 0 ==> q.currentSize + |e.line| <= q.maxSize)
  }

  lemma RotateReadies(s: State, e: Event, contents: Bytes, events: seq<Event>, before: map<int, Bytes>)
    requires Named(s, before) && Whole(s, contents, events) && Sized(s, contents, events) && s.active && MustRotate(s, e.line)
    ensures Ready(Rotate(s, e.now, e.fault), e, contents, events, before)
  {
    var q := Rotate(s, e.now, e.fault);
    RotateNames(s, e.now, e.fault, before);
    RotateJoins(s, e.now, e.fault);
    RotateSizes(s, e.now, e.fault, contents, events);
    FitsOn(q, e, contents, events);
    hide Named, Sized, Joined, Lines, NextFree;
  }

  lemma StepReadies(s: State, e: Event, contents: Bytes, events: seq<Event>, before: map<int, Bytes>)
    requires Named(s, before) && Whole(s, contents, events) && Sized(s, contents, events) && s.active
    ensures Ready(Readied(s, e), e, contents, events, before)
  {
    if MustRotate(s, e.line) {
      RotateReadies(s, e, contents, events, before);
      hide Rotate, Ready, Named, Whole, Sized;
    } else {
      FitsOn(s, e, contents, events);
      hide Named, Sized, Joined, Lines, Rotate;
    }
  }

  lemma StaysOff(s: State, e: Event, contents: Bytes, events: seq<Event>)
    requires Whole(s, contents, events) && !s.active
    ensures Whole(s, contents, events + [e])
  {
    LinesOn(events, e);
    hide Lines, Joined;
    var files := Joined(s.backups, s.rotated) + s.current;
    assert files <= contents + Lines(events) + e.line;
    assert contents + (Lines(events) + e.line) == contents + Lines(events) + e.line;
  }

  lemma StepKeeps(s: State, e: Event, contents: Bytes, events: seq<Event>, before: map<int, Bytes>)
    requires Named(s, before) && Whole(s, contents, events) && Sized(s, contents, events)
    ensures var q := Step(s, e); Named(q, before) && Whole(q, contents, events + [e])
    ensures Sized(Step(s, e), contents, events + [e])
  {
    if s.active {
      StepReadies(s, e, contents, events, before);
      var q := Readied(s, e);
      hide Named, Sized, Joined, Lines, Rotate, Append, Whole;
      AppendWhole(q, e, contents, events, before);
      AppendSized(q, e, contents, events);
    } else {
      FitsOn(s, e, contents, events);
      StaysOff(s, e, contents, events);
      hide Named, Sized, Whole;
    }
  }

  lemma LinesOn(events: seq<Event>, e: Event)
    ensures Lines(events + [e]) == Lines(events) + e.line
  {
    assert (events + [e])[..|events|] == events;
  }

  lemma FitsOn(s: State, e: Event, contents: Bytes, events: seq<Event>)
    requires Sized(s, contents, events)
    ensures Sized(s, contents, events + [e])
  {
    assert forall x | x in events :: x in events + [e];
  }

  lemma AppendWhole(s: State, e: Event, contents: Bytes, events: seq<Event>, before: map<int, Bytes>)
    requires Named(s, before) && (s.active ==> s.currentSize == |s.current|)
    requires Joined(s.backups, s.rotated) + s.current == contents + Lines(events)
    ensures var q := if s.active then Append(s, e.line, e.fault) else s;
      Named(q, before) && Whole(q, contents, events + [e])
  {
    LinesOn(events, e);
    var kept := if !s.active then [] else if e.fault.AppendFails? then
      e.line[..if e.fault.written <= |e.line| then e.fault.written else |e.line|] else e.line;
    Extend(Joined(s.backups, s.rotated), s.current, kept, contents, Lines(events), e.line);
    assert s.current + [] == s.current;
  }

  lemma Extend(joined: Bytes, current: Bytes, kept: Bytes, contents: Bytes, lines: Bytes, line: Bytes)
    requires joined + current == contents + lines && kept <= line
    ensures joined + (current + kept) <= contents + (lines + line)
    ensures kept == line ==> joined + (current + kept) == contents + (lines + line)
  {
    assert joined + (current + kept) == (joined + current) + kept;
    assert contents + (lines + line) == (joined + current) + line;
  }

  lemma AppendSized(s: State, e: Event, contents: Bytes, events: seq<Event>)
    requires Sized(s, contents, events + [e]) && (s.active ==> s.currentSize == |s.current|)
    requires s.active && s.rotate && s.currentSize > 0 ==> s.currentSize + |e.line| <= s.maxSize
    ensures Sized(if s.active then Append(s, e.line, e.fault) else s, contents, events + [e])
  {
    assert e in events + [e];
    if s.current == [] { assert s.current + e.line == e.line; }
  }

  lemma {:induction false} RunKeeps(rotate: bool, maxSize: nat, contents: Bytes, before: map<int, Bytes>, events: seq<Event>)
    ensures var s := Run(Opened(rotate, maxSize, contents, before), events);
      Named(s, before) && Whole(s, contents, events) && Sized(s, contents, events)
    decreases |events|
  {
    if events == [] {
      assert [] + contents == contents == contents + [];
    } else {
      var init, e := events[..|events| - 1], events[|events| - 1];
      RunKeeps(rotate, maxSize, contents, before, init);
      assert init + [e] == events;
      StepKeeps(Run(Opened(rotate, maxSize, contents, before), init), e, contents, init, before);
    }
  }

  // ---- main results: every sequence of writes, clock readings and failures ----

  /** While the sink is on, its backups in rotation order and its active file hold the initial contents and every
      line written; after a failure they hold a prefix of that, so nothing is lost or reordered before it. */
  lemma Conservation(rotate: bool, maxSize: nat, contents: Bytes, before: map<int, Bytes>, events: seq<Event>)
    ensures var s := Run(Opened(rotate, maxSize, contents, before), events);
      && (forall t | t in s.rotated :: t in s.backups)
      && Joined(s.backups, s.rotated) + s.current <= contents + Lines(events)
      && (s.active ==> Joined(s.backups, s.rotated) + s.current == contents + Lines(events))
      && (s.active ==> s.currentSize == |s.current|)
  {
    RunKeeps(rotate, maxSize, contents, before, events);
  }

  /** Without failures the sink stays on. */
  lemma {:induction false} StaysOn(rotate: bool, maxSize: nat, contents: Bytes, before: map<int, Bytes>, events: seq<Event>)
    requires forall e | e in events :: e.fault.NoFault?
    ensures Run(Opened(rotate, maxSize, contents, before), events).active
    decreases |events|
  {
    if events != [] {
      assert events[|events| - 1] in events;
      StaysOn(rotate, maxSize, contents, before, events[..|events| - 1]);
    }
  }

  /** Every rotated file is within the limit, unless it is the initial contents or one oversize line. */
  lemma RotatedFilesFit(maxSize: nat, contents: Bytes, before: map<int, Bytes>, events: seq<Event>)
    ensures var s := Run(Opened(true, maxSize, contents, before), events);
      forall t | t in s.rotated :: t in s.backups && Fits(s.backups[t], maxSize, contents, events)
  {
    RunKeeps(true, maxSize, contents, before, events);
    SameLimit(Opened(true, maxSize, contents, before), events);
  }

  lemma {:induction false} SameLimit(s: State, events: seq<Event>)
    ensures Run(s, events).maxSize == s.maxSize && Run(s, events).rotate == s.rotate
    decreases |events|
  {
    if events != [] {
      SameLimit(s, events[..|events| - 1]);
      StepSameLimit(Run(s, events[..|events| - 1]), events[|events| - 1]);
    }
  }

  lemma StepSameLimit(s: State, e: Event)
    ensures Step(s, e).maxSize == s.maxSize && Step(s, e).rotate == s.rotate
  {
  }

  /** Backup times strictly increase, whatever the clock does, and no earlier backup is overwritten. */
  lemma BackupsNeverCollide(rotate: bool, maxSize: nat, contents: Bytes, before: map<int, Bytes>, events: seq<Event>)
    ensures var s := Run(Opened(rotate, maxSize, contents, before), events);
      && Increasing(s.rotated)
      && (forall t | t in before :: t in s.backups && s.backups[t] == before[t] && t !in s.rotated)
      && (forall t | t in s.backups :: t in before || t in s.rotated)
  {
    RunKeeps(rotate, maxSize, contents, before, events);
  }

  /** The line would not fit behind what the active file holds, which is not empty. */
  predicate Overflows(s: State, line: Bytes) { s.rotate && s.current != [] && |s.current| + |line| > s.maxSize }

  /** A write rotates exactly when the line would not fit: what is in the active file becomes the one new backup, named
      not before the clock and after every earlier rotation, and the line begins an empty file. Otherwise the line is
      appended, and no backup is made or touched. */
  lemma RotatesIff(rotate: bool, maxSize: nat, contents: Bytes, before: map<int, Bytes>, events: seq<Event>, e: Event)
    requires e.fault == NoFault
    ensures var s := Run(Opened(rotate, maxSize, contents, before), events); var q := Step(s, e);
      if !s.active then q == s
      else if Overflows(s, e.line) then
        && q.active && q.current == e.line && |q.rotated| == |s.rotated| + 1 && q.rotated[..|s.rotated|] == s.rotated
        && var t := q.rotated[|s.rotated|];
           t >= e.now && t > s.lastRotation && t !in s.backups && q.backups == s.backups[t := s.current]
           && forall k | e.now <= k < t && k > s.lastRotation :: k in s.backups
      else q.active && q.current == s.current + e.line && q.rotated == s.rotated && q.backups == s.backups
  {
    RunKeeps(rotate, maxSize, contents, before, events);
    StepRotates(Run(Opened(rotate, maxSize, contents, before), events), e);
    hide Step, Named, Whole, Sized, Overflows;
  }

  /** Any fault it meets turns the sink off. A rotation that fails writes no line: the active file is still there, or
      is the new backup when only its successor could not be prepared. An append that fails leaves a prefix of the line. */
  lemma FaultAnswers(s: State, e: Event)
    requires s.active && (s.active ==> s.currentSize == |s.current|)
    ensures var q := Step(s, e);
      && (e.fault != NoFault && (e.fault.AppendFails? || Overflows(s, e.line)) ==> !q.active)
      && (Overflows(s, e.line) && (e.fault.ScanFails? || e.fault.RenameFails?) ==> q.current == s.current && q.backups == s.backups)
      && (Overflows(s, e.line) && e.fault.PrepareFails? ==>
            q.current == [] && |q.rotated| == |s.rotated| + 1 && q.backups == s.backups[q.rotated[|s.rotated|] := s.current])
      && (!Overflows(s, e.line) && e.fault.AppendFails? ==> s.current <= q.current <= s.current + e.line && q.backups == s.backups)
      && (Overflows(s, e.line) && e.fault.AppendFails? ==> q.current <= e.line && |q.rotated| == |s.rotated| + 1)
  {
    var kept := e.line[..if e.fault.AppendFails? && e.fault.written <= |e.line| then e.fault.written else |e.line|];
    assert [] + kept == kept && s.current + e.line == s.current + kept + e.line[|kept|..];
  }

  lemma StepRotates(s: State, e: Event)
    requires s.active ==> s.currentSize == |s.current|
    ensures var q := Step(s, e);
      e.fault == NoFault ==>
      if !s.active then q == s
      else if Overflows(s, e.line) then
        && q.active && q.current == e.line && |q.rotated| == |s.rotated| + 1 && q.rotated[..|s.rotated|] == s.rotated
        && var t := q.rotated[|s.rotated|];
           t >= e.now && t > s.lastRotation && t !in s.backups && q.backups == s.backups[t := s.current]
           && forall k | e.now <= k < t && k > s.lastRotation :: k in s.backups
      else q.active && q.current == s.current + e.line && q.rotated == s.rotated && q.backups == s.backups
    ensures var q := Step(s, e);
      s.active && !Overflows(s, e.line) ==> q.rotated == s.rotated && q.backups == s.backups && (q.active <==> !e.fault.AppendFails?)
    ensures var q := Step(s, e);
      s.active && Overflows(s, e.line) && e.fault != NoFault ==> !q.active
  {
    if s.active && Overflows(s, e.line) { assert [] + e.line == e.line; }
  }
}

/** The sink in its own form: a closure that updates its state. */
module FileSinkClass {
  import opened Common
  import opened FileSinkModel

  class FileSink {
    const rotate: bool
    const maxSize: nat
    var active: bool
    var currentSize: nat
    var lastRotation: int
    var current: Bytes
    var backups: map<int, Bytes>
    ghost var model: State

    ghost predicate Agrees()
      reads this
    {
      && model.rotate == rotate && model.maxSize == maxSize && model.active == active && model.currentSize == currentSize
      && model.lastRotation == lastRotation && model.current == current && model.backups == backups
    }

    constructor (rotating: bool, limit: nat, contents: Bytes, existing: map<int, Bytes>)
      ensures Agrees() && model == Opened(rotating, limit, contents, existing)
    {
      rotate, maxSize := rotating, limit;
      active, currentSize, lastRotation := true, |contents|, 0;
      current, backups := contents, existing;
      model := Opened(rotating, limit, contents, existing);
    }

    method NextBackupTime(now: int) returns (time: int)
      requires Agrees()
      modifies this`lastRotation, this`model
      ensures Agrees() && time == NextFree(backups, FirstTry(old(model), now))
      ensures model == old(model).(lastRotation := time)
    {
      lastRotation := if now >= lastRotation + 1 then now else lastRotation + 1;
      ghost var first := lastRotation;
      while lastRotation in backups
        modifies this`lastRotation
        invariant first <= lastRotation && forall k | first <= k < lastRotation :: k in backups
        invariant NextFree(backups, lastRotation) == NextFree(backups, first)
        decreases Later(backups, lastRotation)
      {
        assert lastRotation in Later(backups, lastRotation);
        assert lastRotation !in Later(backups, lastRotation + 1);
        lastRotation := lastRotation + 1;
      }
      model := model.(lastRotation := lastRotation);
      time := lastRotation;
    }

    method RotateActive(now: int, fault: Fault)
      requires Agrees() && active
      modifies this
      ensures Agrees() && model == Rotate(old(model), now, fault)
    {
      if fault.ScanFails? {
        lastRotation := if now >= lastRotation + 1 then now else lastRotation + 1;
        active := false;
        model := model.(active := false, lastRotation := lastRotation);
        return;
      }
      var time := NextBackupTime(now);
      if fault.RenameFails? {
        active := false;
        model := model.(active := false);
        return;
      }
      backups := backups[time := current];
      current := [];
      model := model.(backups := backups, current := [], rotated := model.rotated + [time]);
      if fault.PrepareFails? {
        active := false;
        model := model.(active := false);
        return;
      }
      currentSize := 0;
      model := model.(currentSize := 0);
    }

    method WriteLine(line: Bytes, now: int, fault: Fault)
      requires Agrees()
      modifies this
      ensures Agrees() && model == Step(old(model), Write(line, now, fault))
    {
      if !active { return; }
      if rotate && currentSize > 0 && currentSize + |line| > maxSize {
        RotateActive(now, fault);
        if !active { return; }
      }
      if fault.AppendFails? {
        current := current + line[..if fault.written <= |line| then fault.written else |line|];
        active := false;
        model := model.(active := false, current := current);
        return;
      }
      current := current + line;
      currentSize := currentSize + |line|;
      model := model.(current := current, currentSize := currentSize);
    }
  }
}
