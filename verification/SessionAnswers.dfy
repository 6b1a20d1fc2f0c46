/** What the session pool, the token login and withSession of encrypt/pkcs11/session.ts answer: who works and who is let
    go, how long a login lasts, and what each turn of acquire and release does. */
module SessionAnswers {
  import opened Common
  import opened SessionModel

  predicate Holds(s: State, c: nat) { c in s.place && s.place[c].Leased? }

  /** The caller's operation runs. */
  predicate Works(s: State, c: nat) { Holds(s, c) && s.place[c].use.Working? }

  predicate Asks(s: State, c: nat, attempt: nat) { Holds(s, c) && s.place[c].use == LoggingIn(attempt) }

  predicate Ended(s: State, attempt: nat, ok: bool) { attempt < |s.attempts| && s.attempts[attempt] == Settled(ok) }

  /** The login admits the caller: it was logged in when asked, or the attempt the caller awaits succeeded. */
  predicate Admits(s: State, e: Event, c: nat) {
    || (e == Authenticate(c) && s.loggedIn && Holds(s, c) && s.place[c].use.Fresh?)
    || (e.LoginSeen? && e.caller == c && Holds(s, c) && s.place[c].use.LoggingIn? && Ended(s, s.place[c].use.attempt, true))
  }

  // ---- the login ----

  lemma TurnStartsNothing(s: State, d: nat, c: nat)
    ensures Works(TryAcquire(s, d), c) ==> Works(s, c)
  {
  }

  lemma LoginStarts(s: State, d: nat, c: nat)
    requires Holds(s, d) && s.place[d].use.Fresh?
    ensures Works(Login(s, d), c) && !Works(s, c) <==> d == c && s.loggedIn
  {
  }

  lemma ReleaseStartsNothing(s: State, d: nat, dead: bool, c: nat)
    requires Holds(s, d)
    ensures Works(Release(s, d, dead), c) ==> Works(s, c)
  {
  }

  lemma SeenStarts(s: State, e: Event, c: nat)
    requires e.LoginSeen?
    ensures Works(Step(s, e), c) && !Works(s, c) <==> Admits(s, e, c)
  {
    hide Release;
    if AnswerDue(s, e.caller) { ReleaseStartsNothing(s, e.caller, e.dead, c); }
  }

  /** A caller starts to work exactly when the login admits it. */
  lemma WorksIff(s: State, e: Event, c: nat)
    ensures Works(Step(s, e), c) && !Works(s, c) <==> Admits(s, e, c)
  {
    hide TryAcquire, Login, Release, Wake, HandOver;
    match e
    case Enter(d) => TurnStartsNothing(s, d, c);
    case Resume(d) => TurnStartsNothing(s, d, c);
    case Authenticate(d) => if Holds(s, d) && s.place[d].use.Fresh? { LoginStarts(s, d, c); }
    case LoginSeen(_, _) => hide Step; SeenStarts(s, e, c);
    case _ => hide Step; OthersStartNothing(s, e, c);
  }

  lemma OthersStartNothing(s: State, e: Event, c: nat)
    requires !e.Enter? && !e.Resume? && !e.Authenticate? && !e.LoginSeen?
    ensures Works(Step(s, e), c) ==> Works(s, c)
  {
  }

  /** Once let go, or at work, a caller never comes back to the login. */
  predicate Before(s: State, c: nat) {
    c in s.place ==>
      match s.place[c]
      case Parked => true
      case Woken => true
      case Opening => true
      case Leased(_, use) => !use.Working?
      case _ => false
  }

  lemma FirstIsParked(s: State)
    requires Queued(s.waiters, s.place) && s.waiters != []
    ensures s.waiters[0] in s.place && s.place[s.waiters[0]] == Parked
  {
  }

  lemma WakeNeverBack(s: State, c: nat)
    requires Queued(s.waiters, s.place) && Before(Wake(s), c)
    ensures Before(s, c)
  {
    if s.waiters != [] { FirstIsParked(s); }
    hide Queued;
  }

  lemma ReleaseNeverBack(s: State, d: nat, dead: bool, c: nat)
    requires Queued(s.waiters, s.place) && Holds(s, d) && Before(Release(s, d, dead), c)
    ensures Before(s, c)
  {
    if s.waiters != [] { FirstIsParked(s); }
    hide Queued;
  }

  lemma CallNeverBack(s: State, e: Event, c: nat)
    requires Queued(s.waiters, s.place) && Before(Step(s, e), c) && (e.LoginSeen? || e.Finish?)
    ensures Before(s, c)
  {
    var d := e.caller;
    hide Release, Queued;
    if e.LoginSeen? && AnswerDue(s, d) && !s.attempts[s.place[d].use.attempt].ok { ReleaseNeverBack(s, d, e.dead, c); }
    if e.Finish? && Works(s, d) { ReleaseNeverBack(s, d, e.failed && e.dead, c); }
  }

  lemma NeverBack(s: State, e: Event, c: nat)
    requires Queued(s.waiters, s.place) && Before(Step(s, e), c)
    ensures Before(s, c)
  {
    hide Release;
    if s.waiters != [] { FirstIsParked(s); }
    match e
    case OpenFailed(d) => OpenFailedNeverBack(s, d, c);
    case DeadClosed(d) => OpenFailedNeverBack(s, d, c);
    case LoginSeen(_, _) => hide Step; CallNeverBack(s, e, c);
    case Finish(_, _, _) => hide Step; CallNeverBack(s, e, c);
    case _ => hide Queued, Release;
  }

  lemma OpenFailedNeverBack(s: State, d: nat, c: nat)
    requires Queued(s.waiters, s.place)
    ensures Before(Step(s, OpenFailed(d)), c) ==> Before(s, c)
    ensures Before(Step(s, DeadClosed(d)), c) ==> Before(s, c)
  {
    if s.waiters != [] { FirstIsParked(s); }
    hide Queued, Release;
  }

  // ---- giving a session back ----

  /** The caller's session was released: idle again, and then the longest waiting caller is woken, or closed when dead. */
  ghost predicate GivenBack(s: State, q: State, c: nat, dead: bool)
    requires Holds(s, c)
  {
    && q.releases == s.releases + multiset{c} && !Holds(q, c)
    && At(q, c, if dead then Closing else Done)
    && q.idle == (if dead then s.idle else s.idle + [s.place[c].handle]) && q.open == s.open - (if dead then 1 else 0)
    && (if dead || s.waiters == [] then q.waiters == s.waiters
        else q.waiters == s.waiters[1..] && At(q, s.waiters[0], Woken))
    && q.attempts == s.attempts && q.loggedIn == s.loggedIn
  }

  lemma Releases(s: State, c: nat, dead: bool)
    requires Queued(s.waiters, s.place) && Holds(s, c)
    ensures GivenBack(s, Release(s, c, dead), c, dead)
  {
    if s.waiters != [] { FirstIsParked(s); }
    hide Queued;
  }

  /** What a caller gets when the attempt it awaits has ended: it works on its session exactly when the attempt
      succeeded; otherwise its session is released, and closed when it is dead. */
  lemma LoginAnswers(s: State, c: nat, attempt: nat, dead: bool)
    requires Queued(s.waiters, s.place) && Asks(s, c, attempt) && attempt < |s.attempts| && s.attempts[attempt].Settled?
    ensures Ended(s, attempt, true) ==>
      At(Step(s, LoginSeen(c, dead)), c, Leased(s.place[c].handle, Working)) && Step(s, LoginSeen(c, dead)).releases == s.releases
    ensures Ended(s, attempt, false) ==> GivenBack(s, Step(s, LoginSeen(c, dead)), c, dead)
  {
    Releases(s, c, dead);
    hide Release, GivenBack;
  }

  /** A caller at work releases its session when the operation ends; it is closed only when the operation failed with an
      error that says it is dead. */
  lemma FinishAnswers(s: State, c: nat, failed: bool, dead: bool)
    requires Queued(s.waiters, s.place) && Works(s, c)
    ensures GivenBack(s, Step(s, Finish(c, failed, dead)), c, failed && dead)
  {
    Releases(s, c, failed && dead);
    hide Release, GivenBack;
  }

  /** One request for authentication: nothing when the token is logged in, the attempt under way when there is one, and
      otherwise a new one. */
  lemma AuthenticateAnswers(s: State, c: nat)
    requires Holds(s, c) && s.place[c].use.Fresh?
    ensures var q := Step(s, Authenticate(c));
      && (s.loggedIn ==> Works(q, c) && q.attempts == s.attempts && q.login == s.login)
      && (!s.loggedIn && s.login.Some? ==> Asks(q, c, s.login.value) && q.attempts == s.attempts && q.login == s.login)
      && (!s.loggedIn && s.login == None ==> Asks(q, c, |s.attempts|) && q.attempts == s.attempts + [AskingPin])
  {
  }

  // ---- how long a login lasts ----

  /** A dead session, or a drain, is done with. */
  predicate Clears(s: State, e: Event) { (e.LoginReset? && At(s, e.caller, Failing)) || (e.DrainDone? && s.drains > 0) }

  predicate LogsIn(s: State, e: Event) { e == TokenLoginSettles(true) && Pending(s, AtToken) }

  /** The token is logged in from a token login that succeeds until the reset after a dead session or a drain. */
  lemma LoggedInIff(s: State, e: Event)
    ensures Step(s, e).loggedIn <==> (s.loggedIn && !Clears(s, e)) || LogsIn(s, e)
  {
    hide Pending, HandleInUse;
  }

  /** Meanwhile no request for authentication starts another attempt. */
  lemma LoggedInStarts(s: State, e: Event)
    ensures s.loggedIn ==> |Step(s, e).attempts| == |s.attempts|
  {
    hide HandleInUse;
  }

  ghost predicate ClearedIn(s: State, events: seq<Event>)
    decreases |events|
  {
    events != [] &&
      var front := events[..|events| - 1];
      ClearedIn(s, front) || Clears(Run(s, front), events[|events| - 1])
  }

  /** After a token login that succeeds, the token stays logged in and no other attempt is made, until a dead session's
      reset or the end of a drain. */
  lemma {:induction false} LoginLasts(s: State, events: seq<Event>)
    requires s.loggedIn && !ClearedIn(s, events)
    ensures Run(s, events).loggedIn && |Run(s, events).attempts| == |s.attempts|
    decreases |events|
  {
    hide Step, Clears;
    if events != [] {
      var front, last := events[..|events| - 1], events[|events| - 1];
      LoginLasts(s, front);
      LoggedInIff(Run(s, front), last);
      LoggedInStarts(Run(s, front), last);
    }
  }

  /** An attempt succeeds only at the token, after its PIN was there; and each of its two steps says how it ends. */
  lemma AttemptSteps(s: State, e: Event, k: nat)
    requires k < |s.attempts|
    ensures var q := Step(s, e);
      && k < |q.attempts|
      && (q.attempts[k] == s.attempts[k] ||
          (s.login == Some(k) && s.attempts[k] == AskingPin && e.PinSettles? && q.attempts[k] == if e.ok then AtToken else Settled(false)) ||
          (s.login == Some(k) && s.attempts[k] == AtToken && e.TokenLoginSettles? && q.attempts[k] == Settled(e.ok)))
    ensures s.login == Some(k) && s.attempts[k] == AskingPin && e.PinSettles? ==> Step(s, e).attempts[k] != s.attempts[k]
    ensures s.login == Some(k) && s.attempts[k] == AtToken && e.TokenLoginSettles? ==> Step(s, e).attempts[k] != s.attempts[k]
  {
    hide HandleInUse;
  }

  /** The attempt is forgotten exactly when it has ended; only a new one takes its place. */
  lemma ForgottenIff(s: State, e: Event)
    ensures var q := Step(s, e);
      && (s.login.Some? && q.login != s.login <==> e.LoginCleared? && (Pending(s, Settled(true)) || Pending(s, Settled(false))))
      && (e.LoginCleared? && (Pending(s, Settled(true)) || Pending(s, Settled(false))) ==> q.login == None)
  {
    hide HandleInUse;
  }

  // ---- over runs ----

  /** The run holds a token login that succeeded. */
  ghost predicate LoggedInBy(size: int, events: seq<Event>)
    decreases |events|
  {
    events != [] &&
      var front := events[..|events| - 1];
      LoggedInBy(size, front) || LogsIn(Run(Initial(size), front), events[|events| - 1])
  }

  /** No run is logged in before a token login has succeeded in it. */
  lemma {:induction false} LoggedInOnlyBy(size: int, events: seq<Event>)
    ensures Run(Initial(size), events).loggedIn ==> LoggedInBy(size, events)
    decreases |events|
  {
    if events == [] {
      assert !Initial(size).loggedIn;
    } else {
      var front, last := events[..|events| - 1], events[|events| - 1];
      LoggedInOnlyBy(size, front);
      LoggedInIff(Run(Initial(size), front), last);
      hide Step, LogsIn, Clears, Initial;
    }
  }

  /** What is counted as lost are the woken callers that were aborted. */
  lemma LostCounts(s: State, e: Event)
    ensures Step(s, e).lost == s.lost + if e.AbortWoken? && At(s, e.caller, Woken) then 1 else 0
  {
    hide HandleInUse;
  }

  /** At some point of the run the login admitted the caller. */
  ghost predicate Admitted(size: int, events: seq<Event>, c: nat)
    decreases |events|
  {
    events != [] &&
      var front := events[..|events| - 1];
      Admitted(size, front, c) || Admits(Run(Initial(size), front), events[|events| - 1], c)
  }

  /** In every run, a caller is at work only after the login admitted it, and a caller that was admitted never asks or
      waits again: one whose attempt failed is let go without having worked. */
  lemma {:induction false} WorkedOnlyAdmitted(size: int, events: seq<Event>, c: nat)
    ensures var s := Run(Initial(size), events);
      (Works(s, c) ==> Admitted(size, events, c)) && (Before(s, c) ==> !Admitted(size, events, c))
    decreases |events|
  {
    if events != [] {
      var front, last := events[..|events| - 1], events[|events| - 1];
      var s := Run(Initial(size), front);
      WorkedOnlyAdmitted(size, front, c);
      RunKeeps(size, front);
      hide Step, Works, Before, Admits, Inv, Initial;
      InvQueued(s);
      WorksIff(s, last, c);
      if Before(Step(s, last), c) {
        NeverBack(s, last, c);
        WorksAreNotBefore(Step(s, last), c);
      }
    }
  }

  lemma InvQueued(s: State)
    requires Inv(s)
    ensures Queued(s.waiters, s.place)
  {
    hide Queued;
  }

  lemma WorksAreNotBefore(s: State, c: nat)
    ensures !(Works(s, c) && Before(s, c))
  {
  }

  // ---- acquire ----

  /** One turn of acquire: the session given back last, else a claimed slot, else the end of the queue. */
  lemma TurnAnswers(s: State, e: Event, c: nat)
    requires (e == Enter(c) && c !in s.place) || (e == Resume(c) && At(s, c, Woken))
    ensures var q := Step(s, e);
      && (s.idle != [] ==> At(q, c, Leased(s.idle[|s.idle| - 1], Fresh)) && q.idle + [s.idle[|s.idle| - 1]] == s.idle && q.open == s.open)
      && (s.idle == [] && s.open < s.size ==> At(q, c, Opening) && q.open == s.open + 1 && q.waiters == s.waiters)
      && (s.idle == [] && s.open >= s.size ==> At(q, c, Parked) && q.open == s.open && q.waiters == s.waiters + [c])
  {
  }

  /** A claimed slot becomes the caller's session, or is given back and passed on. */
  lemma OpenAnswers(s: State, c: nat, h: Handle)
    requires Queued(s.waiters, s.place) && At(s, c, Opening)
    ensures !HandleInUse(s, h) ==> At(Step(s, Opened(c, h)), c, Leased(h, Fresh)) && Step(s, Opened(c, h)).open == s.open
    ensures var q := Step(s, OpenFailed(c));
      At(q, c, Done) && q.open == s.open - 1 && (s.waiters != [] ==> At(q, s.waiters[0], Woken) && q.waiters == s.waiters[1..])
  {
    if s.waiters != [] { FirstIsParked(s); }
    hide Queued, HandleInUse;
  }

  /** A drain takes what is idle; its end, and the close of a dead session, wake one caller each. */
  lemma DrainAnswers(s: State, c: nat)
    requires Queued(s.waiters, s.place)
    ensures Step(s, Drain).drains == s.drains + 1 && (s.drains > 0 ==> Step(s, DrainDone).drains == s.drains - 1)
    ensures var q := Step(s, Drain); q.idle == [] && q.open == s.open - |s.idle| && q.place == s.place && q.waiters == s.waiters
    ensures s.drains > 0 && s.waiters != [] ==> At(Step(s, DrainDone), s.waiters[0], Woken)
    ensures At(s, c, Closing) ==> At(Step(s, DeadClosed(c)), c, Failing)
    ensures At(s, c, Closing) && s.waiters != [] ==> At(Step(s, DeadClosed(c)), s.waiters[0], Woken)
  {
    if s.waiters != [] { FirstIsParked(s); }
    hide Queued;
  }
}
