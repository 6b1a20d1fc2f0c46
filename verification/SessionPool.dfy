/** The PKCS#11 session pool, the token login and withSession of encrypt/pkcs11/session.ts. Everything between
    two awaits is one step; the token and the callers' signals are the environment. */
module SessionModel {
  import opened Common

  type Handle = nat

  /** Where a caller that holds a session stands in withSession. */
  datatype Use = Fresh | LoggingIn(attempt: nat) | Working

  /** Where a caller is suspended. */
  datatype Place =
    | Parked                               // in the pool's queue
    | Woken                                // its promise is resolved, it has not run yet
    | Opening                              // a slot is claimed, C_OpenSession has not answered
    | Leased(handle: Handle, use: Use)
    | Closing                              // closing a dead session
    | Failing                              // dead session closed, login flag not yet reset
    | Done

  /** One login of the token: the pin provider, then C_Login. */
  datatype Attempt = AskingPin | AtToken | Settled(ok: bool)

  /** `open`, `idle`, `waiters` are the pool's fields, `loggedIn` and `login` the slot's. */
  datatype State = State(
    size: nat, open: int, idle: seq<Handle>, waiters: seq<nat>,
    place: map<nat, Place>,
    loggedIn: bool, login: Option<nat>, attempts: seq<Attempt>,
    drains: nat,                  // drains whose closes are still under way
    lost: nat,                    // woken callers that were aborted
    acquired: set<nat>,           // callers that were ever handed a session
    releases: multiset<nat>)      // every call of release, by caller

  datatype Event =
    | Enter(caller: nat)
    | Opened(caller: nat, handle: Handle)
    | OpenFailed(caller: nat)
    | Resume(caller: nat)
    | AbortWoken(caller: nat)
    | Authenticate(caller: nat)
    | PinSettles(ok: bool)
    | TokenLoginSettles(ok: bool)
    | LoginCleared
    | LoginSeen(caller: nat, dead: bool)
    | Finish(caller: nat, failed: bool, dead: bool)
    | DeadClosed(caller: nat)
    | LoginReset(caller: nat)
    | Drain
    | DrainDone

  /** The constructor raises the bound to at least one session. */
  function Initial(size: int): (s: State)
    ensures s.size >= 1 && (size >= 1 ==> s.size == size)
  {
    State(if size < 1 then 1 else size, 0, [], [], map[], false, None, [], 0, 0, {}, multiset{})
  }

  predicate At(s: State, caller: nat, place: Place) { caller in s.place && s.place[caller] == place }

  // ---- the pool ----

  function Move(s: State, caller: nat, place: Place): State { s.(place := s.place[caller := place]) }

  function Wake(s: State): State {
    if s.waiters == [] then s else Move(s.(waiters := s.waiters[1..]), s.waiters[0], Woken)
  }

  function HandOver(s: State, caller: nat, handle: Handle): State {
    Move(s.(acquired := s.acquired + {caller}), caller, Leased(handle, Fresh))
  }

  /** One turn of the loop in acquire: pop an idle session, claim a slot, or park. */
  function TryAcquire(s: State, caller: nat): State {
    if s.idle != [] then HandOver(s.(idle := s.idle[..|s.idle| - 1]), caller, s.idle[|s.idle| - 1])
    else if s.open < s.size then Move(s.(open := s.open + 1), caller, Opening)
    else Move(s.(waiters := s.waiters + [caller]), caller, Parked)
  }

  /** The synchronous part of release: a dead session gives its slot back, any other becomes idle. */
  function Release(s: State, caller: nat, dead: bool): State
    requires caller in s.place && s.place[caller].Leased?
  {
    var q := s.(releases := s.releases + multiset{caller});
    if dead then Move(q.(open := s.open - 1), caller, Closing)
    else Wake(Move(q.(idle := s.idle + [s.place[caller].handle]), caller, Done))
  }

  function DoDrain(s: State): State {
    s.(idle := [], open := s.open - |s.idle|, drains := s.drains + 1)
  }

  // ---- the slot's login ----

  function Using(s: State, caller: nat, use: Use): State
    requires caller in s.place && s.place[caller].Leased?
  {
    Move(s, caller, s.place[caller].(use := use))
  }

  function Login(s: State, caller: nat): State
    requires caller in s.place && s.place[caller].Leased?
  {
    if s.loggedIn then Using(s, caller, Working)
    else if s.login.Some? then Using(s, caller, LoggingIn(s.login.value))
    else Using(s.(login := Some(|s.attempts|), attempts := s.attempts + [AskingPin]), caller, LoggingIn(|s.attempts|))
  }

  predicate Pending(s: State, attempt: Attempt) {
    s.login.Some? && s.login.value < |s.attempts| && s.attempts[s.login.value] == attempt
  }

  predicate AnswerDue(s: State, caller: nat) {
    && caller in s.place && s.place[caller].Leased? && s.place[caller].use.LoggingIn?
    && s.place[caller].use.attempt < |s.attempts| && s.attempts[s.place[caller].use.attempt].Settled?
  }

  predicate HandleInUse(s: State, handle: Handle) {
    handle in s.idle || exists c :: c in s.place && s.place[c].Leased? && s.place[c].handle == handle
  }

  function Step(s: State, e: Event): State {
    match e
    case Enter(c) => if c in s.place then s else TryAcquire(s, c)
    case Opened(c, h) =>
      // the token hands out no handle that is already in use
      if !At(s, c, Opening) || HandleInUse(s, h) then s else HandOver(s, c, h)
    case OpenFailed(c) => if !At(s, c, Opening) then s else Wake(Move(s.(open := s.open - 1), c, Done))
    case Resume(c) => if !At(s, c, Woken) then s else TryAcquire(s, c)
    case AbortWoken(c) => if !At(s, c, Woken) then s else Move(s.(lost := s.lost + 1), c, Done)
    case Authenticate(c) => if c in s.place && s.place[c].Leased? && s.place[c].use.Fresh? then Login(s, c) else s
    case PinSettles(ok) =>
      if !Pending(s, AskingPin) then s else
      s.(attempts := s.attempts[s.login.value := if ok then AtToken else Settled(false)])
    case TokenLoginSettles(ok) =>
      if !Pending(s, AtToken) then s else
      s.(attempts := s.attempts[s.login.value := Settled(ok)], loggedIn := s.loggedIn || ok)
    case LoginCleared =>
      if Pending(s, Settled(true)) || Pending(s, Settled(false)) then s.(login := None) else s
    case LoginSeen(c, dead) =>
      if !AnswerDue(s, c) then s
      else if s.attempts[s.place[c].use.attempt].ok then Using(s, c, Working)
      else Release(s, c, dead)
    case Finish(c, failed, dead) =>
      if c in s.place && s.place[c].Leased? && s.place[c].use.Working? then Release(s, c, failed && dead) else s
    case DeadClosed(c) => if !At(s, c, Closing) then s else Wake(Move(s, c, Failing))
    case LoginReset(c) => if !At(s, c, Failing) then s else Move(s.(loggedIn := false), c, Done)
    case Drain => DoDrain(s)
    case DrainDone => if s.drains == 0 then s else Wake(s.(drains := s.drains - 1, loggedIn := false))
  }

  function Run(s: State, events: seq<Event>): State
    decreases |events|
  {
    if events == [] then s else Step(Run(s, events[..|events| - 1]), events[|events| - 1])
  }

  // ---- what every step keeps ----

  datatype Kind = InQueue | ToRun | ToOpen | Holding | ToClose | Out

  function KindOf(place: Place): Kind {
    match place
    case Parked => InQueue
    case Woken => ToRun
    case Opening => ToOpen
    case Leased(_, _) => Holding
    case Closing => ToClose
    case _ => Out
  }

  ghost function Those(place: map<nat, Place>, kind: Kind): set<nat> { set c | c in place && KindOf(place[c]) == kind }

  ghost function Count(place: map<nat, Place>, kind: Kind): nat { |Those(place, kind)| }

  /** Parked callers wait once. */
  ghost predicate Queued(waiters: seq<nat>, place: map<nat, Place>) {
    && (forall i, j | 0 <= i < j < |waiters| :: waiters[i] != waiters[j])
    && (forall i | 0 <= i < |waiters| :: waiters[i] in place && place[waiters[i]].Parked?)
  }

  /** No handle is both idle and leased, idle twice, or leased twice. */
  ghost predicate Distinct(idle: seq<Handle>, place: map<nat, Place>) {
    && (forall i, j | 0 <= i < j < |idle| :: idle[i] != idle[j])
    && (forall c | c in place && place[c].Leased? :: place[c].handle !in idle)
    && (forall c, d | c in place && d in place && place[c].Leased? && place[d].Leased? && c != d ::
          place[c].handle != place[d].handle)
  }

  /** A caller releases its session once, when it lets go of it; others never release. */
  ghost predicate ReleasedOnce(place: map<nat, Place>, acquired: set<nat>, releases: multiset<nat>) {
    && (forall c: nat :: releases[c] == if c in acquired && !(c in place && place[c].Leased?) then 1 else 0)
    && (forall c | c in acquired :: c in place && (place[c].Leased? || place[c].Closing? || place[c].Failing? || place[c].Done?))
    && (forall c | c in place && (place[c].Leased? || place[c].Closing? || place[c].Failing?) :: c in acquired)
  }

  /** Only the attempt the slot remembers can be unsettled. */
  ghost predicate OneLogin(login: Option<nat>, attempts: seq<Attempt>) {
    && (login.Some? ==> login.value < |attempts|)
    && (forall k | 0 <= k < |attempts| && !attempts[k].Settled? :: login == Some(k))
  }

  /** Every claimed slot is idle, leased or being opened. */
  ghost predicate Counted(s: State) {
    s.open == |s.idle| + Count(s.place, Holding) + Count(s.place, ToOpen) && s.open <= s.size
  }

  /** Capacity that nobody is about to take stands against wake-ups on their way, or lost ones. */
  ghost predicate Awake(s: State) {
    s.waiters != [] ==> Count(s.place, ToRun) + Count(s.place, ToClose) + s.lost >= |s.idle| + s.size - s.open
  }

  /** One wake-up short: what a step that frees capacity owes to `Wake`. */
  ghost predicate Owing(s: State) {
    s.waiters != [] ==> Count(s.place, ToRun) + 1 + Count(s.place, ToClose) + s.lost >= |s.idle| + s.size - s.open
  }

  ghost predicate Core(s: State) {
    && Queued(s.waiters, s.place) && Distinct(s.idle, s.place) && ReleasedOnce(s.place, s.acquired, s.releases)
    && OneLogin(s.login, s.attempts) && Counted(s)
  }

  ghost predicate Inv(s: State) { Core(s) && Awake(s) }

  function Shift(place: map<nat, Place>, c: nat, to: Place, kind: Kind): int {
    (if KindOf(to) == kind then 1 else 0) - if c in place && KindOf(place[c]) == kind then 1 else 0
  }

  lemma MoveCounts(place: map<nat, Place>, c: nat, to: Place, kind: Kind)
    ensures Count(place[c := to], kind) == Count(place, kind) + Shift(place, c, to, kind)
  {
    hide KindOf;
    var before, after := Those(place, kind), Those(place[c := to], kind);
    forall d ensures d in after <==> if d == c then KindOf(to) == kind else d in before {}
    hide Those;
    if KindOf(to) == kind { assert after == before + {c}; } else { assert after == before - {c}; }
  }

  lemma AllCounts(place: map<nat, Place>, c: nat, to: Place)
    ensures forall kind :: Count(place[c := to], kind) == Count(place, kind) + Shift(place, c, to, kind)
  {
    forall kind: Kind ensures Count(place[c := to], kind) == Count(place, kind) + Shift(place, c, to, kind) {
      MoveCounts(place, c, to, kind);
    }
  }

  /** A caller without a session moves on. */
  lemma Relocated(s: State, c: nat, to: Place)
    requires Queued(s.waiters, s.place) && Distinct(s.idle, s.place) && ReleasedOnce(s.place, s.acquired, s.releases)
    requires c in s.place ==> !s.place[c].Parked? && !s.place[c].Leased?
    requires !to.Leased? && (to.Closing? || to.Failing? ==> c in s.acquired) && (c in s.acquired ==> to.Failing? || to.Done?)
    ensures Queued(s.waiters, s.place[c := to]) && Distinct(s.idle, s.place[c := to])
    ensures ReleasedOnce(s.place[c := to], s.acquired, s.releases)
  {
  }

  lemma WakeKeeps(s: State)
    requires Core(s) && Owing(s)
    ensures Inv(Wake(s))
  {
    if s.waiters != [] {
      var q := s.(waiters := s.waiters[1..]);
      assert Queued(q.waiters, s.place[s.waiters[0] := Woken]);
      AllCounts(s.place, s.waiters[0], Woken);
    }
  }

  lemma HandedOver(s: State, c: nat, h: Handle, idle: seq<Handle>)
    requires Queued(s.waiters, s.place) && Distinct(idle, s.place) && ReleasedOnce(s.place, s.acquired, s.releases)
    requires c in s.place ==> s.place[c].Woken? || s.place[c].Opening?
    requires h !in idle && forall d | d in s.place && s.place[d].Leased? :: s.place[d].handle != h
    ensures var place := s.place[c := Leased(h, Fresh)];
      Queued(s.waiters, place) && Distinct(idle, place) && ReleasedOnce(place, s.acquired + {c}, s.releases)
  {
  }

  lemma LastOut(idle: seq<Handle>, place: map<nat, Place>)
    requires idle != [] && Distinct(idle, place)
    ensures var last, rest := idle[|idle| - 1], idle[..|idle| - 1];
      Distinct(rest, place) && last !in rest && forall d | d in place && place[d].Leased? :: place[d].handle != last
  {
  }

  lemma PopKeeps(s: State, c: nat)
    requires Inv(s) && (c in s.place ==> s.place[c].Woken?) && s.idle != []
    ensures Inv(TryAcquire(s, c))
  {
    var last := s.idle[|s.idle| - 1];
    LastOut(s.idle, s.place);
    HandedOver(s, c, last, s.idle[..|s.idle| - 1]);
    AllCounts(s.place, c, Leased(last, Fresh));
    hide Queued, Distinct, ReleasedOnce, OneLogin, Count;
  }

  lemma ClaimKeeps(s: State, c: nat)
    requires Inv(s) && (c in s.place ==> s.place[c].Woken?) && s.idle == [] && s.open < s.size
    ensures Inv(Move(s.(open := s.open + 1), c, Opening))
  {
    Relocated(s, c, Opening);
    AllCounts(s.place, c, Opening);
    hide Queued, Distinct, ReleasedOnce, OneLogin, Count;
  }

  lemma ParkKeeps(s: State, c: nat)
    requires Inv(s) && (c in s.place ==> s.place[c].Woken?) && s.idle == [] && s.open >= s.size
    ensures Inv(Move(s.(waiters := s.waiters + [c]), c, Parked))
  {
    Relocated(s.(waiters := []), c, Parked);
    AllCounts(s.place, c, Parked);
    hide Distinct, ReleasedOnce, OneLogin, Count;
  }

  lemma TryKeeps(s: State, c: nat)
    requires Inv(s) && (c in s.place ==> s.place[c].Woken?)
    ensures Inv(TryAcquire(s, c))
  {
    hide Inv, Move, HandOver;
    if s.idle != [] { PopKeeps(s, c); } else if s.open < s.size { ClaimKeeps(s, c); } else { ParkKeeps(s, c); }
  }

  lemma OpenedKeeps(s: State, c: nat, h: Handle)
    requires Inv(s) && At(s, c, Opening) && !HandleInUse(s, h)
    ensures Inv(HandOver(s, c, h))
  {
    HandedOver(s, c, h, s.idle);
    AllCounts(s.place, c, Leased(h, Fresh));
  }

  /** A slot given back is owed a wake-up. */
  lemma SlotOwes(s: State, c: nat)
    requires Inv(s) && At(s, c, Opening)
    ensures var q := Move(s.(open := s.open - 1), c, Done); Core(q) && Owing(q)
  {
    Relocated(s, c, Done);
    AllCounts(s.place, c, Done);
    hide Queued, Distinct, ReleasedOnce, OneLogin, Count;
  }

  lemma OpenFailedKeeps(s: State, c: nat)
    requires Inv(s) && At(s, c, Opening)
    ensures Inv(Step(s, OpenFailed(c)))
  {
    hide Inv, Core, Owing, Wake, Move, TryAcquire, HandOver, Login, Using, Release, HandleInUse, DoDrain;
    SlotOwes(s, c);
    WakeKeeps(Move(s.(open := s.open - 1), c, Done));
  }

  lemma LetGo(s: State, c: nat, to: Place, idle: seq<Handle>)
    requires Queued(s.waiters, s.place) && Distinct(s.idle, s.place) && ReleasedOnce(s.place, s.acquired, s.releases)
    requires c in s.place && s.place[c].Leased?
    requires (to == Closing && idle == s.idle) || (to == Done && idle == s.idle + [s.place[c].handle])
    ensures Queued(s.waiters, s.place[c := to]) && Distinct(idle, s.place[c := to])
    ensures ReleasedOnce(s.place[c := to], s.acquired, s.releases + multiset{c})
  {
  }

  lemma DeadOwes(s: State, c: nat)
    requires Inv(s) && c in s.place && s.place[c].Leased?
    ensures Inv(Move(s.(releases := s.releases + multiset{c}, open := s.open - 1), c, Closing))
  {
    LetGo(s, c, Closing, s.idle);
    AllCounts(s.place, c, Closing);
    hide Queued, Distinct, ReleasedOnce, OneLogin, Count;
  }

  lemma IdleOwes(s: State, c: nat)
    requires Inv(s) && c in s.place && s.place[c].Leased?
    ensures var q := Move(s.(releases := s.releases + multiset{c}, idle := s.idle + [s.place[c].handle]), c, Done);
      Core(q) && Owing(q)
  {
    LetGo(s, c, Done, s.idle + [s.place[c].handle]);
    AllCounts(s.place, c, Done);
    hide Queued, Distinct, ReleasedOnce, OneLogin, Count;
  }

  lemma ReleaseKeeps(s: State, c: nat, dead: bool)
    requires Inv(s) && c in s.place && s.place[c].Leased?
    ensures Inv(Release(s, c, dead))
  {
    hide Inv, Wake, Move, Core, Owing;
    var q := s.(releases := s.releases + multiset{c});
    if dead {
      DeadOwes(s, c);
    } else {
      IdleOwes(s, c);
      WakeKeeps(Move(q.(idle := s.idle + [s.place[c].handle]), c, Done));
    }
  }

  lemma UseKeeps(s: State, c: nat, use: Use)
    requires Inv(s) && c in s.place && s.place[c].Leased?
    ensures Inv(Using(s, c, use))
  {
    AllCounts(s.place, c, s.place[c].(use := use));
  }

  lemma LoginKeeps(s: State, c: nat)
    requires Inv(s) && c in s.place && s.place[c].Leased?
    ensures Inv(Login(s, c))
  {
    if s.loggedIn || s.login.Some? {
      UseKeeps(s, c, if s.loggedIn then Working else LoggingIn(s.login.value));
    } else {
      UseKeeps(s.(login := Some(|s.attempts|), attempts := s.attempts + [AskingPin]), c, LoggingIn(|s.attempts|));
    }
  }

  lemma TokenKeeps(s: State, e: Event)
    requires Inv(s) && (e.PinSettles? || e.TokenLoginSettles? || e.LoginCleared?)
    ensures Inv(Step(s, e))
  {
  }

  lemma EndKeeps(s: State, e: Event)
    requires Inv(s) && ((e.AbortWoken? && At(s, e.caller, Woken)) || (e.LoginReset? && At(s, e.caller, Failing)))
    ensures Inv(Step(s, e))
  {
    Relocated(s, e.caller, Done);
    AllCounts(s.place, e.caller, Done);
    hide Queued, Distinct, ReleasedOnce, OneLogin, Count, Wake, TryAcquire, HandOver, Login, Using, Release, HandleInUse;
  }

  lemma DeadClosedKeeps(s: State, c: nat)
    requires Inv(s) && At(s, c, Closing)
    ensures Inv(Wake(Move(s, c, Failing)))
  {
    Relocated(s, c, Failing);
    AllCounts(s.place, c, Failing);
    WakeKeeps(Move(s, c, Failing));
  }

  lemma DrainKeeps(s: State)
    requires Inv(s)
    ensures Inv(DoDrain(s)) && (s.drains > 0 ==> Inv(Wake(s.(drains := s.drains - 1, loggedIn := false))))
  {
    if s.drains > 0 { WakeKeeps(s.(drains := s.drains - 1, loggedIn := false)); }
  }

  lemma StepKeeps(s: State, e: Event)
    requires Inv(s)
    ensures Inv(Step(s, e))
  {
    hide Inv, Wake, TryAcquire, HandOver, Login, Using, Release, HandleInUse, DoDrain;
    match e
    case Enter(c) => if c !in s.place { TryKeeps(s, c); }
    case Opened(c, h) => if At(s, c, Opening) && !HandleInUse(s, h) { OpenedKeeps(s, c, h); }
    case OpenFailed(c) => if At(s, c, Opening) { OpenFailedKeeps(s, c); }
    case Resume(c) => if At(s, c, Woken) { TryKeeps(s, c); }
    case AbortWoken(c) => if At(s, c, Woken) { EndKeeps(s, e); }
    case Authenticate(c) => if c in s.place && s.place[c].Leased? { LoginKeeps(s, c); }
    case PinSettles(_) => TokenKeeps(s, e);
    case TokenLoginSettles(_) => TokenKeeps(s, e);
    case LoginCleared => TokenKeeps(s, e);
    case LoginSeen(c, dead) => if AnswerDue(s, c) { UseKeeps(s, c, Working); ReleaseKeeps(s, c, dead); }
    case Finish(c, failed, dead) => if c in s.place && s.place[c].Leased? { ReleaseKeeps(s, c, failed && dead); }
    case DeadClosed(c) => if At(s, c, Closing) { DeadClosedKeeps(s, c); }
    case LoginReset(c) => if At(s, c, Failing) { EndKeeps(s, e); }
    case Drain => DrainKeeps(s);
    case DrainDone => DrainKeeps(s);
  }

  lemma {:induction false} RunKeeps(size: int, events: seq<Event>)
    ensures Inv(Run(Initial(size), events))
    decreases |events|
  {
    if events != [] {
      RunKeeps(size, events[..|events| - 1]);
      StepKeeps(Run(Initial(size), events[..|events| - 1]), events[|events| - 1]);
    }
  }

  // ---- main results: every sequence of events, in any interleaving ----

  lemma {:induction false} LostOnlyByAborts(size: int, events: seq<Event>)
    requires forall e | e in events :: !e.AbortWoken?
    ensures Run(Initial(size), events).lost == 0
    decreases |events|
  {
    if events != [] {
      var s, last := Run(Initial(size), events[..|events| - 1]), events[|events| - 1];
      LostOnlyByAborts(size, events[..|events| - 1]);
      assert last in events;
      hide Step;
      LostFree(s, last);
      assert Forget(s) == s;
    }
  }

  /** No wake-up is lost as long as no woken caller is aborted before it runs. */
  lemma NoLostWakeUp(size: int, events: seq<Event>)
    requires forall e | e in events :: !e.AbortWoken?
    ensures var s := Run(Initial(size), events);
      s.waiters != [] ==> Count(s.place, ToRun) + Count(s.place, ToClose) >= |s.idle| + s.size - s.open
  {
    RunKeeps(size, events);
    LostOnlyByAborts(size, events);
  }

  /** No wake-up is lost: a parked caller means that wake-ups and closing releases under way cover what is free. */
  ghost predicate NoneLost(s: State) {
    s.waiters != [] ==> Count(s.place, ToRun) + Count(s.place, ToClose) >= |s.idle| + s.size - s.open
  }

  /** Nobody is parked, or one wake-up more is under way than needed. */
  ghost predicate CanSpare(s: State) {
    s.waiters == [] || Count(s.place, ToRun) + Count(s.place, ToClose) > |s.idle| + s.size - s.open
  }

  /** Aborting a woken caller loses its wake-up exactly when no other one could be spared. */
  lemma AbortLosesIff(s: State, c: nat)
    requires At(s, c, Woken) && NoneLost(s)
    ensures NoneLost(Step(s, AbortWoken(c))) <==> CanSpare(s)
  {
    AllCounts(s.place, c, Done);
  }

  function Forget(s: State): State { s.(lost := 0) }

  lemma ForgetParts(s: State, c: nat, h: Handle)
    ensures Wake(Forget(s)) == Forget(Wake(s)) && TryAcquire(Forget(s), c) == Forget(TryAcquire(s, c))
    ensures HandleInUse(Forget(s), h) == HandleInUse(s, h) && HandOver(Forget(s), c, h) == Forget(HandOver(s, c, h))
  {
  }

  lemma ForgetUse(s: State, c: nat, use: Use, dead: bool)
    requires c in s.place && s.place[c].Leased?
    ensures Login(Forget(s), c) == Forget(Login(s, c)) && Using(Forget(s), c, use) == Forget(Using(s, c, use))
    ensures Release(Forget(s), c, dead) == Forget(Release(s, c, dead))
  {
  }

  lemma ForgetMove(s: State, c: nat, to: Place, open: int)
    ensures Wake(Move(Forget(s).(open := open), c, to)) == Forget(Wake(Move(s.(open := open), c, to)))
    ensures Move(Forget(s), c, to) == Forget(Move(s, c, to))
  {
  }

  lemma CallerLostFree(s: State, e: Event)
    requires e.Authenticate? || e.LoginSeen? || e.Finish?
    ensures Step(Forget(s), e) == Forget(Step(s, e))
  {
    hide Login, Using, Release;
    var c := e.caller;
    if c in s.place && s.place[c].Leased? {
      match e
      case LoginSeen(_, dead) => ForgetUse(s, c, Working, dead);
      case Finish(_, failed, dead) => ForgetUse(s, c, Working, failed && dead);
      case _ => ForgetUse(s, c, Working, false);
    }
  }

  lemma PlaceLostFree(s: State, e: Event)
    requires e.OpenFailed? || e.DeadClosed? || e.LoginReset? || e.Opened?
    ensures Step(Forget(s), e) == Forget(Step(s, e))
  {
    hide Wake, Move, HandOver, HandleInUse;
    match e
    case OpenFailed(c) => ForgetMove(s, c, Done, s.open - 1);
    case DeadClosed(c) => ForgetMove(s, c, Failing, s.open);
    case Opened(c, h) => ForgetParts(s, c, h);
    case LoginReset(c) => ForgetMove(s.(loggedIn := false), c, Done, s.open);
  }

  /** What is counted as lost has no effect on any other step. */
  lemma LostFree(s: State, e: Event)
    requires !e.AbortWoken?
    ensures Step(Forget(s), e) == Forget(Step(s, e))
  {
    hide Wake, TryAcquire, HandOver, Login, Using, Release, HandleInUse;
    match e
    case Enter(c) => ForgetParts(s, c, 0);
    case Resume(c) => ForgetParts(s, c, 0);
    case PinSettles(_) =>
    case TokenLoginSettles(_) =>
    case LoginCleared =>
    case Drain =>
    case DrainDone => if s.drains > 0 { ForgetParts(s.(drains := s.drains - 1, loggedIn := false), 0, 0); }
    case _ =>
      hide Step;
      if e.Authenticate? || e.LoginSeen? || e.Finish? { CallerLostFree(s, e); } else { PlaceLostFree(s, e); }
  }

  lemma OtherStepsLoseNothing(s: State, e: Event)
    requires Inv(s) && NoneLost(s) && !(e.AbortWoken? && At(s, e.caller, Woken))
    ensures NoneLost(Step(s, e))
  {
    if !e.AbortWoken? {
      LostFree(s, e);
      StepKeeps(Forget(s), e);
      hide Step, Core;
    }
  }

  /** The step aborts a woken caller whose wake-up is needed. */
  ghost predicate Wastes(s: State, e: Event) { e.AbortWoken? && At(s, e.caller, Woken) && !CanSpare(s) }

  /** At no moment of the run was a wake-up missing. */
  ghost predicate NeverShort(size: int, events: seq<Event>)
    decreases |events|
  {
    NoneLost(Run(Initial(size), events)) && (events != [] ==> NeverShort(size, events[..|events| - 1]))
  }

  /** No event of the run aborted a woken caller that could not be spared. */
  ghost predicate NeverWastes(size: int, events: seq<Event>)
    decreases |events|
  {
    events != [] ==>
      var front := events[..|events| - 1];
      !Wastes(Run(Initial(size), front), events[|events| - 1]) && NeverWastes(size, front)
  }

  lemma RunLast(s: State, events: seq<Event>)
    requires events != []
    ensures Run(s, events) == Step(Run(s, events[..|events| - 1]), events[|events| - 1])
  {
  }

  /** All along a run no wake-up is lost, exactly when every woken caller it aborts could be spared. */
  lemma {:induction false} NothingLostIff(size: int, events: seq<Event>)
    ensures NeverShort(size, events) <==> NeverWastes(size, events)
    decreases |events|
  {
    if events == [] {
      assert Run(Initial(size), []) == Initial(size);
    } else {
      var front, last := events[..|events| - 1], events[|events| - 1];
      RunLast(Initial(size), events);
      RunKeeps(size, front);
      assert NeverShort(size, front) ==> NoneLost(Run(Initial(size), front));
      hide Run, Step, Inv, NoneLost, Wastes, Initial;
      NothingLostIff(size, front);
      if NeverShort(size, front) { LastStep(Run(Initial(size), front), last); }
    }
  }

  lemma LastStep(s: State, e: Event)
    requires Inv(s) && NoneLost(s)
    ensures NoneLost(Step(s, e)) <==> !Wastes(s, e)
  {
    if e.AbortWoken? && At(s, e.caller, Woken) { AbortLosesIff(s, e.caller); } else { OtherStepsLoseNothing(s, e); }
    hide Step, NoneLost, CanSpare, Inv;
  }

  /** Each abort of a woken caller loses at most one wake-up. */
  lemma LostWakeUpsBounded(size: int, events: seq<Event>)
    ensures var s := Run(Initial(size), events);
      s.waiters != [] ==> Count(s.place, ToRun) + Count(s.place, ToClose) + s.lost >= |s.idle| + s.size - s.open
  {
    RunKeeps(size, events);
  }

  lemma RunOn(s: State, events: seq<Event>, e: Event)
    ensures Run(s, events + [e]) == Step(Run(s, events), e)
  {
    assert (events + [e])[..|events|] == events;
  }

  /** With one session: 0 opens it, 1 and 2 park, opening fails and wakes 1, and 1 is aborted. Then 2 stays parked
      although a slot is free and nobody is about to wake it. */
  lemma AbortLosesWakeUp()
    ensures var s := Run(Initial(1), [Enter(0), Enter(1), Enter(2)] + [OpenFailed(0)] + [AbortWoken(1)]);
      s.waiters == [2] && s.open < s.size && Count(s.place, ToRun) == 0 && Count(s.place, ToClose) == 0
  {
    var parked := [Enter(0), Enter(1), Enter(2)];
    RunOn(Initial(1), parked, OpenFailed(0));
    RunOn(Initial(1), parked + [OpenFailed(0)], AbortWoken(1));
    TwoParked();
    Stranded(Run(Initial(1), parked));
    NobodyComing();
  }

  lemma Stranded(s: State)
    requires s.waiters == [1, 2] && s.open == 1 && s.size == 1 && s.place == map[0 := Opening, 1 := Parked, 2 := Parked]
    ensures var q := Step(Step(s, OpenFailed(0)), AbortWoken(1));
      q.waiters == [2] && q.open == 0 && q.size == 1 && q.place == map[0 := Done, 1 := Done, 2 := Parked]
  {
    assert Step(s, OpenFailed(0)).place == map[0 := Done, 1 := Woken, 2 := Parked];
  }

  lemma NobodyComing()
    ensures Count(map[0 := Done, 1 := Done, 2 := Parked], ToRun) == 0
    ensures Count(map[0 := Done, 1 := Done, 2 := Parked], ToClose) == 0
  {
    assert Those(map[0 := Done, 1 := Done, 2 := Parked], ToRun) == {};
    assert Those(map[0 := Done, 1 := Done, 2 := Parked], ToClose) == {};
  }

  lemma TwoParked()
    ensures var s := Run(Initial(1), [Enter(0), Enter(1), Enter(2)]);
      && s.waiters == [1, 2] && s.open == 1 && s.size == 1 && s.idle == []
      && s.place == map[0 := Opening, 1 := Parked, 2 := Parked]
  {
    var i := Initial(1);
    RunOn(i, [], Enter(0));
    RunOn(i, [Enter(0)], Enter(1));
    RunOn(i, [Enter(0), Enter(1)], Enter(2));
    assert [] + [Enter(0)] == [Enter(0)];
    assert [Enter(0)] + [Enter(1)] == [Enter(0), Enter(1)];
    assert [Enter(0), Enter(1)] + [Enter(2)] == [Enter(0), Enter(1), Enter(2)];
    assert Run(i, [Enter(0)]).place == map[0 := Opening];
    assert Run(i, [Enter(0), Enter(1)]).place == map[0 := Opening, 1 := Parked];
  }

  /** When nothing is on its way, a parked caller means that every slot is leased or being opened. */
  lemma ParkedMeansFull(size: int, events: seq<Event>)
    requires forall e | e in events :: !e.AbortWoken?
    ensures var s := Run(Initial(size), events);
      s.waiters != [] && Count(s.place, ToRun) == 0 && Count(s.place, ToClose) == 0 ==>
        s.idle == [] && Count(s.place, Holding) + Count(s.place, ToOpen) == s.size
  {
    RunKeeps(size, events);
    LostOnlyByAborts(size, events);
  }

  /** The open counter is what is idle, leased or opening, within 0..size; no handle is in two hands. */
  lemma Accounting(size: int, events: seq<Event>)
    ensures var s := Run(Initial(size), events);
      && s.open == |s.idle| + Count(s.place, Holding) + Count(s.place, ToOpen) && 0 <= s.open <= s.size
      && (forall i, j | 0 <= i < j < |s.idle| :: s.idle[i] != s.idle[j])
      && (forall c | c in s.place && s.place[c].Leased? :: s.place[c].handle !in s.idle)
      && (forall c, d | c in s.place && d in s.place && s.place[c].Leased? && s.place[d].Leased? && c != d ::
            s.place[c].handle != s.place[d].handle)
  {
    RunKeeps(size, events);
  }

  /** withSession releases each session it acquired exactly once, and never one it did not acquire. */
  lemma ReleasesExactlyOnce(size: int, events: seq<Event>)
    ensures var s := Run(Initial(size), events);
      && (forall c: nat :: s.releases[c] <= 1)
      && (forall c | c in s.place && s.place[c].Done? :: s.releases[c] == if c in s.acquired then 1 else 0)
      && (forall c | c in s.place && s.place[c].Leased? :: s.releases[c] == 0 && c in s.acquired)
      && (forall c: nat | c !in s.acquired :: s.releases[c] == 0)
  {
    RunKeeps(size, events);
  }

  /** At most one login of the token is in flight. */
  lemma OneTokenLogin(size: int, events: seq<Event>)
    ensures var s := Run(Initial(size), events);
      forall j, k | 0 <= j < k < |s.attempts| :: s.attempts[j].Settled? || s.attempts[k].Settled?
  {
    RunKeeps(size, events);
  }
}

/** The pool in its own form: an object whose methods update its fields. */
module SessionPoolClass {
  import opened SessionModel

  /** What one turn of the loop in acquire leads to. */
  datatype Turn = Got(handle: Handle) | MustOpen | MustWait

  class SessionPool {
    const size: nat
    var open: int
    var idle: seq<Handle>
    var waiters: seq<nat>
    ghost var model: State        // these fields, and where every caller stands

    ghost predicate Agrees()
      reads this
    {
      model.size == size && model.open == open && model.idle == idle && model.waiters == waiters
    }

    constructor (bound: int)
      ensures Agrees() && model == Initial(bound)
    {
      size := if bound < 1 then 1 else bound;
      open, idle, waiters := 0, [], [];
      model := Initial(bound);
    }

    method TakeTurn(caller: nat) returns (turn: Turn)
      requires Agrees() && Inv(model) && (caller in model.place ==> model.place[caller].Woken?)
      modifies this
      ensures Agrees() && model == TryAcquire(old(model), caller) && Inv(model)
      ensures turn == match model.place[caller] case Leased(h, _) => Got(h) case Opening => MustOpen case _ => MustWait
    {
      TryKeeps(model, caller);
      model := TryAcquire(model, caller);
      if |idle| > 0 {
        turn := Got(idle[|idle| - 1]);
        idle := idle[..|idle| - 1];
      } else if open < size {
        open := open + 1;
        turn := MustOpen;
      } else {
        waiters := waiters + [caller];
        turn := MustWait;
      }
    }

    /** Pays a wake-up that is owed, to the one who has waited longest; nobody else moves. */
    method WakeOne()
      requires Agrees()
      modifies this
      ensures Agrees() && model == Wake(old(model))
      ensures old(Core(model) && Owing(model)) ==> Inv(model)
      ensures old(waiters) != [] ==> waiters == old(waiters)[1..] && At(model, old(waiters)[0], Woken)
      ensures open == old(open) && idle == old(idle)
      ensures forall c | c in old(model).place && (old(waiters) == [] || c != old(waiters)[0]) :: At(model, c, old(model).place[c])
    {
      if Core(model) && Owing(model) { WakeKeeps(model); }
      model := Wake(model);
      if |waiters| > 0 {
        waiters := waiters[1..];
      }
    }

    method OpenRejected(caller: nat)
      requires Agrees() && At(model, caller, Opening)
      modifies this
      ensures Agrees() && model == Step(old(model), OpenFailed(caller)) && (old(Inv(model)) ==> Inv(model))
    {
      if Inv(model) { OpenFailedKeeps(model, caller); }
      open := open - 1;
      model := Move(model.(open := open), caller, Done);
      WakeOne();
    }

    /** Up to the await of closeSession; `closing` tells whether there is one. */
    method GiveBack(caller: nat, handle: Handle, dead: bool) returns (closing: bool)
      requires Agrees() && caller in model.place && model.place[caller].Leased? && model.place[caller].handle == handle
      modifies this
      ensures Agrees() && model == Release(old(model), caller, dead) && closing == dead
      ensures old(Inv(model)) ==> Inv(model)
    {
      if Inv(model) { ReleaseKeeps(model, caller, dead); }
      model := model.(releases := model.releases + multiset{caller});
      if dead {
        open := open - 1;
        model := Move(model.(open := open), caller, Closing);
        return true;
      }
      idle := idle + [handle];
      model := Move(model.(idle := idle), caller, Done);
      WakeOne();
      return false;
    }

    /** Up to the first await: the sessions to close. Their slots are free at once; leased and opening ones stay counted. */
    method DrainIdle() returns (sessions: seq<Handle>)
      requires Agrees()
      modifies this
      ensures Agrees() && model == DoDrain(old(model)) && sessions == old(model).idle
      ensures idle == [] && open == old(open) - |sessions| && waiters == old(waiters) && model.place == old(model).place
      ensures old(Inv(model)) ==> Inv(model) && open == Count(model.place, Holding) + Count(model.place, ToOpen)
      ensures old(Inv(model)) ==> forall c | c in model.place && model.place[c].Leased? :: model.place[c].handle !in sessions
    {
      if Inv(model) { DrainKeeps(model); }
      sessions := idle;
      idle := [];
      open := open - |sessions|;
      model := DoDrain(model);
    }
  }
}
