/**
The session token shared by every thread that talks to one device: two locks, login on demand,
relogin once when a request is refused, and compare-and-clear. Each critical section under the
token lock is one step, except the login and logout exchanges, which hold the lock across the
network. The guarantees hold for any number of threads and every interleaving.
 */
module TokenProtocol {
  import opened Wrappers

  /** Serial commands and snapshots take the request lock; slow commands and bare logins do not. */
  datatype Kind = Serial | Slow | Snapshot | LoginOnly

  datatype Pc =
    | Idle
    | WantRequest(kind: Kind)                               // before taking the request lock
    | WantLogin(kind: Kind, attempt: nat)                   // before ensureLogin takes the token lock
    | LoggingIn(kind: Kind, attempt: nat)                   // holds the token lock, login in flight
    | WantToken(kind: Kind, attempt: nat)                   // before reading the token
    | Posting(kind: Kind, attempt: nat, tok: Option<nat>)   // request in flight, token lock not held
    | WantNote(kind: Kind, attempt: nat, tok: Option<nat>, refused: bool) // before recording the failure kind
    | WantClear(kind: Kind, tok: Option<nat>)               // before compare-and-clear
    | WantLogout                                            // before logout takes the token lock
    | LoggingOut                                            // holds the token lock, logout in flight

  /** What the program does not store, of the call under way or, when idle, of the last one: how often it posted, the
      token of its first request, whether that request was refused and whether a login failed. */
  datatype Thread = Thread(pc: Pc, posts: nat, first: Option<nat>, refused: bool, denied: bool)

  /** A rejection names the thread that cleared the token and the token its refused request had used. */
  datatype Why = Rejected(thread: nat, used: Option<nat>) | Expired | LoggedOut

  datatype Event =
    | LoggedIn(tok: nat) | Dropped(tok: nat, why: Why) | RanOut(tok: nat)
    | Ready(thread: nat)                                    // ensureLogin returned to the thread: it may post
    | Posted(thread: nat, used: Option<nat>) | Refused(thread: nat, used: Option<nat>)

  /** Tokens are numbered in the order the device issued them; the device never issues one twice. */
  datatype State = State(
    threads: seq<Thread>, requestOwner: Option<nat>, tokenOwner: Option<nat>,
    token: Option<nat>, stale: bool, issued: nat, log: seq<Event>)

  function NewCall(pc: Pc): Thread { Thread(pc, 0, None, false, false) }

  function Start(n: nat): State {
    State(seq(n, _ => NewCall(Idle)), None, None, None, false, 0, [])
  }

  datatype Step =
    | Call(t: nat, kind: Kind) | CallLogout(t: nat)
    | LockRequest(t: nat)
    | EnsureLogin(t: nat)
    | LoginOk(t: nat) | LoginFail(t: nat)
    | ReadToken(t: nat)
    | PostOk(t: nat) | PostFail(t: nat) | PostRefused(t: nat)
    | Note(t: nat)
    | Clear(t: nat)
    | LockLogout(t: nat) | LogoutDone(t: nat)
    | TokenExpires

  function At(s: State, t: nat): Pc
    requires t < |s.threads|
  {
    s.threads[t].pc
  }

  predicate Enabled(s: State, step: Step) {
    (step.TokenExpires? || step.t < |s.threads|)
    && match step
       case Call(t, _) => At(s, t).Idle?
       case CallLogout(t) => At(s, t).Idle?
       case LockRequest(t) => At(s, t).WantRequest? && s.requestOwner == None
       case EnsureLogin(t) => At(s, t).WantLogin? && s.tokenOwner == None
       case LoginOk(t) => At(s, t).LoggingIn?
       case LoginFail(t) => At(s, t).LoggingIn?
       case ReadToken(t) => At(s, t).WantToken? && s.tokenOwner == None
       case PostOk(t) => At(s, t).Posting?
       case PostFail(t) => At(s, t).Posting?
       case PostRefused(t) => At(s, t).Posting?
       case Note(t) => At(s, t).WantNote? && s.tokenOwner == None
       case Clear(t) => At(s, t).WantClear? && s.tokenOwner == None
       case LockLogout(t) => At(s, t).WantLogout? && s.tokenOwner == None
       case LogoutDone(t) => At(s, t).LoggingOut?
       case TokenExpires => s.token.Some?
  }

  function Goto(s: State, t: nat, pc: Pc): State
    requires t < |s.threads|
  {
    s.(threads := s.threads[t := s.threads[t].(pc := pc)])
  }

  /** Only what is recorded about the thread changes, not where it is. */
  function Noting(s: State, t: nat, th: Thread): State
    requires t < |s.threads| && th.pc == s.threads[t].pc
  {
    s.(threads := s.threads[t := th])
  }

  /** The call returns; a request lock it held is released. */
  function Finish(s: State, t: nat): State
    requires t < |s.threads|
  {
    Goto(s.(requestOwner := if s.requestOwner == Some(t) then None else s.requestOwner), t, Idle)
  }

  function Logged(s: State, e: Event): (r: State)
    ensures r.threads == s.threads
    ensures r.requestOwner == s.requestOwner
    ensures r.tokenOwner == s.tokenOwner
    ensures r.token == s.token && r.stale == s.stale
    ensures r.issued == s.issued
  {
    s.(log := s.log + [e])
  }

  predicate TakesRequestLock(k: Kind) { k == Serial || k == Snapshot }

  function Begin(s: State, t: nat, pc: Pc): State
    requires t < |s.threads|
  {
    s.(threads := s.threads[t := NewCall(pc)])
  }

  /** After ensureLogin: a bare login is done, anything else goes on to read the token. */
  function AfterLogin(s: State, t: nat, kind: Kind, attempt: nat): State
    requires t < |s.threads|
  {
    var r := Logged(s, Ready(t));
    if kind == LoginOnly then Finish(r, t) else Goto(r, t, WantToken(kind, attempt))
  }

  /** Drop the held token, if any. */
  function Drop(s: State, why: Why): (r: State)
    ensures r.threads == s.threads
    ensures r.requestOwner == s.requestOwner
    ensures r.tokenOwner == s.tokenOwner
  {
    if s.token.Some? then Logged(s.(token := None), Dropped(s.token.value, why)) else s
  }

  /** The device issued a new token. */
  function Issued(s: State): (r: State)
    ensures r.threads == s.threads
    ensures r.requestOwner == s.requestOwner
    ensures r.tokenOwner == s.tokenOwner
  {
    Logged(s.(token := Some(s.issued), stale := false, issued := s.issued + 1), LoggedIn(s.issued))
  }

  /** What a request's outcome leads to. Only commands record a failure kind. */
  function AfterPost(s: State, t: nat, kind: Kind, attempt: nat, tok: Option<nat>, refused: bool): State
    requires t < |s.threads|
  {
    if refused && attempt == 0 then Goto(s, t, WantClear(kind, tok)) else Finish(s, t)
  }

  function Next(s: State, step: Step): State
    requires Enabled(s, step)
  {
    match step
    case Call(t, kind) => Begin(s, t, if TakesRequestLock(kind) then WantRequest(kind) else WantLogin(kind, 0))
    case CallLogout(t) => Begin(s, t, WantLogout)
    case LockRequest(t) => Goto(s.(requestOwner := Some(t)), t, WantLogin(At(s, t).kind, 0))
    case EnsureLogin(t) =>
      var pc := At(s, t);
      if s.token.Some? && !s.stale then AfterLogin(s, t, pc.kind, pc.attempt)
      else Goto(s.(tokenOwner := Some(t)), t, LoggingIn(pc.kind, pc.attempt))
    case LoginOk(t) =>
      var pc := At(s, t);
      AfterLogin(Issued(Drop(s, Expired)).(tokenOwner := None), t, pc.kind, pc.attempt)
    case LoginFail(t) => Finish(Noting(s, t, s.threads[t].(denied := true)).(tokenOwner := None), t)
    case ReadToken(t) =>
      var pc, th := At(s, t), s.threads[t];
      var r := Noting(s, t, th.(posts := th.posts + 1, first := if pc.attempt == 0 then s.token else th.first));
      Goto(Logged(r, Posted(t, s.token)), t, Posting(pc.kind, pc.attempt, s.token))
    case PostOk(t) =>
      var pc := At(s, t);
      if pc.kind == Snapshot then AfterPost(s, t, pc.kind, pc.attempt, pc.tok, false)
      else Goto(s, t, WantNote(pc.kind, pc.attempt, pc.tok, false))
    case PostFail(t) =>
      var pc := At(s, t);
      if pc.kind == Snapshot then AfterPost(s, t, pc.kind, pc.attempt, pc.tok, false)
      else Goto(s, t, WantNote(pc.kind, pc.attempt, pc.tok, false))
    case PostRefused(t) =>
      var pc := At(s, t);
      var th := s.threads[t];
      var r := Noting(Logged(s, Refused(t, pc.tok)), t, th.(refused := th.refused || pc.attempt == 0));
      if pc.kind == Snapshot then AfterPost(r, t, pc.kind, pc.attempt, pc.tok, true)
      else Goto(r, t, WantNote(pc.kind, pc.attempt, pc.tok, true))
    case Note(t) =>
      var pc := At(s, t);
      AfterPost(s, t, pc.kind, pc.attempt, pc.tok, pc.refused)
    case Clear(t) =>
      var pc := At(s, t);
      Goto(if s.token == pc.tok then Drop(s, Rejected(t, pc.tok)) else s, t, WantLogin(pc.kind, 1))
    case LockLogout(t) =>
      if s.token.None? then Finish(s, t) else Goto(s.(tokenOwner := Some(t)), t, LoggingOut)
    case LogoutDone(t) => Finish(Drop(s, LoggedOut).(tokenOwner := None), t)
    case TokenExpires => Logged(s.(stale := true), RanOut(s.token.value))
  }

  predicate Runs(s: State, steps: seq<Step>)
    decreases |steps|
  {
    steps == [] || (Enabled(s, steps[0]) && Runs(Next(s, steps[0]), steps[1..]))
  }

  function After(s: State, steps: seq<Step>): State
    requires Runs(s, steps)
    decreases |steps|
  {
    if steps == [] then s else After(Next(s, steps[0]), steps[1..])
  }

  // ---- locks ----

  /** Between taking and releasing the request lock. */
  predicate InExchange(pc: Pc) {
    match pc
    case WantLogin(k, _) => TakesRequestLock(k)
    case LoggingIn(k, _) => TakesRequestLock(k)
    case WantToken(k, _) => TakesRequestLock(k)
    case Posting(k, _, _) => TakesRequestLock(k)
    case WantNote(k, _, _, _) => TakesRequestLock(k)
    case WantClear(k, _) => TakesRequestLock(k)
    case _ => false
  }

  predicate HoldsTokenLock(pc: Pc) { pc.LoggingIn? || pc.LoggingOut? }

  predicate LocksOk(s: State) {
    && (forall t | 0 <= t < |s.threads| :: InExchange(At(s, t)) <==> s.requestOwner == Some(t))
    && (forall t | 0 <= t < |s.threads| :: HoldsTokenLock(At(s, t)) <==> s.tokenOwner == Some(t))
    && (s.requestOwner.Some? ==> s.requestOwner.value < |s.threads|)
    && (s.tokenOwner.Some? ==> s.tokenOwner.value < |s.threads|)
    && (forall t | 0 <= t < |s.threads| && At(s, t).WantRequest? :: TakesRequestLock(At(s, t).kind))
  }

  /** One lock and one thread: whether the thread holds it before and after agrees with the owner's change. */
  predicate LockMove(held: bool, holds: bool, owner: Option<nat>, owner': Option<nat>, t: nat) {
    if holds then owner' == Some(t) && (held || owner == None)
    else owner' == if held then None else owner
  }

  /** Only thread t moved, and both locks with it. */
  predicate Moved(s: State, n: State, t: nat) {
    && t < |s.threads| == |n.threads|
    && n.threads == s.threads[t := n.threads[t]]
    && (s.requestOwner == Some(t) <==> InExchange(At(s, t)))
    && (s.tokenOwner == Some(t) <==> HoldsTokenLock(At(s, t)))
    && LockMove(InExchange(At(s, t)), InExchange(At(n, t)), s.requestOwner, n.requestOwner, t)
    && LockMove(HoldsTokenLock(At(s, t)), HoldsTokenLock(At(n, t)), s.tokenOwner, n.tokenOwner, t)
    && (At(n, t).WantRequest? ==> TakesRequestLock(At(n, t).kind))
  }

  lemma MovedKeepsLocks(s: State, n: State, t: nat)
    requires LocksOk(s) && Moved(s, n, t)
    ensures LocksOk(n)
  {
    hide InExchange, HoldsTokenLock, TakesRequestLock;
    forall u | 0 <= u < |n.threads|
      ensures InExchange(At(n, u)) <==> n.requestOwner == Some(u)
      ensures HoldsTokenLock(At(n, u)) <==> n.tokenOwner == Some(u)
      ensures At(n, u).WantRequest? ==> TakesRequestLock(At(n, u).kind)
    {
      if u != t { assert At(n, u) == At(s, u); }
    }
  }

  lemma FinishMoves(s: State, n: State, t: nat)
    requires LocksOk(s) && t < |s.threads| == |n.threads| && n.requestOwner == s.requestOwner
    requires n.threads == s.threads[t := n.threads[t]] && At(n, t) == At(s, t)
    requires n.tokenOwner == if HoldsTokenLock(At(s, t)) then None else s.tokenOwner
    ensures Moved(s, Finish(n, t), t)
  {
  }

  lemma EntryMoves(s: State, step: Step)
    requires Enabled(s, step) && LocksOk(s) && (step.Call? || step.CallLogout? || step.LockRequest?)
    ensures Moved(s, Next(s, step), step.t)
  {
  }

  lemma LoginMoves(s: State, step: Step)
    requires Enabled(s, step) && LocksOk(s) && (step.EnsureLogin? || step.LoginOk? || step.LoginFail?)
    ensures Moved(s, Next(s, step), step.t)
  {
    hide Drop, Issued, Finish, Logged;
    match step
    case EnsureLogin(t) => if At(s, t).kind == LoginOnly { FinishMoves(s, Logged(s, Ready(t)), t); }
    case LoginOk(t) => FinishMoves(s, Logged(Issued(Drop(s, Expired)).(tokenOwner := None), Ready(t)), t);
    case LoginFail(t) => FinishMoves(s, Noting(s, t, s.threads[t].(denied := true)).(tokenOwner := None), t);
  }

  lemma ReadMoves(s: State, step: Step)
    requires Enabled(s, step) && LocksOk(s) && step.ReadToken?
    ensures Moved(s, Next(s, step), step.t)
  {
    hide Logged;
  }

  lemma AnswerMoves(s: State, step: Step)
    requires Enabled(s, step) && LocksOk(s) && (step.PostOk? || step.PostFail?)
    ensures Moved(s, Next(s, step), step.t)
  {
    hide Finish;
    FinishMoves(s, s, step.t);
  }

  lemma RefusalMoves(s: State, t: nat)
    requires Enabled(s, PostRefused(t)) && LocksOk(s)
    ensures Moved(s, Next(s, PostRefused(t)), t)
  {
    hide Logged, Finish;
    var th := s.threads[t];
    FinishMoves(s, Noting(Logged(s, Refused(t, At(s, t).tok)), t,
        th.(refused := th.refused || At(s, t).attempt == 0)), t);
  }

  lemma NoteMoves(s: State, t: nat)
    requires Enabled(s, Note(t)) && LocksOk(s)
    ensures Moved(s, Next(s, Note(t)), t)
  {
    hide Finish;
    FinishMoves(s, s, t);
  }

  lemma ClearMoves(s: State, t: nat)
    requires Enabled(s, Clear(t)) && LocksOk(s)
    ensures Moved(s, Next(s, Clear(t)), t)
  {
    hide Drop;
  }

  lemma LogoutMoves(s: State, step: Step)
    requires Enabled(s, step) && LocksOk(s) && (step.LockLogout? || step.LogoutDone?)
    ensures Moved(s, Next(s, step), step.t)
  {
    hide Drop, Finish;
    FinishMoves(s, if step.LogoutDone? then Drop(s, LoggedOut).(tokenOwner := None) else s, step.t);
  }

  lemma StepMoves(s: State, step: Step)
    requires Enabled(s, step) && LocksOk(s) && !step.TokenExpires?
    ensures Moved(s, Next(s, step), step.t)
  {
    hide Moved, Enabled, Next, LocksOk;
    match step
    case Call(_, _) => EntryMoves(s, step);
    case CallLogout(_) => EntryMoves(s, step);
    case LockRequest(_) => EntryMoves(s, step);
    case EnsureLogin(_) => LoginMoves(s, step);
    case LoginOk(_) => LoginMoves(s, step);
    case LoginFail(_) => LoginMoves(s, step);
    case ReadToken(_) => ReadMoves(s, step);
    case PostOk(_) => AnswerMoves(s, step);
    case PostFail(_) => AnswerMoves(s, step);
    case PostRefused(t) => RefusalMoves(s, t);
    case Note(t) => NoteMoves(s, t);
    case Clear(t) => ClearMoves(s, t);
    case _ => LogoutMoves(s, step);
  }

  lemma LocksAreKept(s: State, step: Step)
    requires Enabled(s, step) && LocksOk(s)
    ensures LocksOk(Next(s, step))
  {
    hide Moved, LocksOk;
    if step.TokenExpires? {
      SameThreadsSameLocks(s, Next(s, step));
    } else {
      StepMoves(s, step);
      MovedKeepsLocks(s, Next(s, step), step.t);
    }
  }

  lemma SameThreadsSameLocks(s: State, n: State)
    requires LocksOk(s) && n.threads == s.threads && n.requestOwner == s.requestOwner
    requires n.tokenOwner == s.tokenOwner
    ensures LocksOk(n)
  {
    assert forall t | 0 <= t < |n.threads| :: At(n, t) == At(s, t);
  }

  // ---- the token's life ----

  predicate TokenEvent(e: Event) { e.LoggedIn? || e.Dropped? }

  /** The token events of the log, in order. */
  function Lives(log: seq<Event>): seq<Event> {
    if log == [] then []
    else Lives(log[..|log| - 1]) + if TokenEvent(log[|log| - 1]) then [log[|log| - 1]] else []
  }

  /** Token after token: issued, dropped, issued, dropped, never two at once. */
  predicate OneAfterTheOther(lives: seq<Event>) {
    forall i | 0 <= i < |lives| ::
      if i % 2 == 0 then lives[i] == LoggedIn(i / 2) else lives[i].Dropped? && lives[i].tok == i / 2
  }

  predicate TokenOk(s: State) {
    && OneAfterTheOther(Lives(s.log))
    && (if s.token.Some? then |Lives(s.log)| == 2 * s.issued - 1 && s.token.value == s.issued - 1
        else |Lives(s.log)| == 2 * s.issued)
  }

  lemma DropKeepsTokenOk(s: State, why: Why)
    requires TokenOk(s)
    ensures TokenOk(Drop(s, why)) && Drop(s, why).token == None
  {
  }

  lemma IssueKeepsTokenOk(s: State)
    requires TokenOk(s) && s.token == None
    ensures TokenOk(Issued(s))
  {
  }

  lemma SameLifeKeepsTokenOk(s: State, n: State)
    requires TokenOk(s) && n.token == s.token && n.issued == s.issued
    requires n.log == s.log || (|n.log| == |s.log| + 1 && n.log[..|s.log|] == s.log && !TokenEvent(n.log[|s.log|]))
    ensures TokenOk(n)
  {
    if n.log != s.log {
      assert n.log == s.log + [n.log[|s.log|]];
    }
  }

  lemma TokenIsKept(s: State, step: Step)
    requires Enabled(s, step) && TokenOk(s)
    ensures TokenOk(Next(s, step))
  {
    hide TokenOk, Drop;
    match step
    case LoginOk(t) =>
      DropKeepsTokenOk(s, Expired);
      IssueKeepsTokenOk(Drop(s, Expired));
      SameLifeKeepsTokenOk(Issued(Drop(s, Expired)), Next(s, step));
    case Clear(t) =>
      var why := Rejected(t, At(s, t).tok);
      DropKeepsTokenOk(s, why);
      SameLifeKeepsTokenOk(if s.token == At(s, t).tok then Drop(s, why) else s, Next(s, step));
    case LogoutDone(t) =>
      DropKeepsTokenOk(s, LoggedOut);
      SameLifeKeepsTokenOk(Drop(s, LoggedOut), Next(s, step));
    case _ => OtherStepsLogNoLife(s, step);
  }

  lemma OtherStepsLogNoLife(s: State, step: Step)
    requires Enabled(s, step) && TokenOk(s) && !step.LoginOk? && !step.Clear? && !step.LogoutDone?
    ensures TokenOk(Next(s, step))
  {
    hide TokenOk;
    SameLifeKeepsTokenOk(s, Next(s, step));
  }

  function LoginsOf(log: seq<Event>, tok: nat): nat {
    if log == [] then 0 else LoginsOf(log[..|log| - 1], tok) + if log[|log| - 1] == LoggedIn(tok) then 1 else 0
  }

  function DropsOf(log: seq<Event>, tok: nat): nat {
    if log == [] then 0
    else DropsOf(log[..|log| - 1], tok) + if log[|log| - 1].Dropped? && log[|log| - 1].tok == tok then 1 else 0
  }

  function Logins(log: seq<Event>): nat {
    if log == [] then 0 else Logins(log[..|log| - 1]) + if log[|log| - 1].LoggedIn? then 1 else 0
  }

  function Drops(log: seq<Event>): nat {
    if log == [] then 0 else Drops(log[..|log| - 1]) + if log[|log| - 1].Dropped? then 1 else 0
  }

  lemma {:induction false} LivesCountAlike(log: seq<Event>, tok: nat)
    ensures (LoginsOf(Lives(log), tok), DropsOf(Lives(log), tok)) == (LoginsOf(log, tok), DropsOf(log, tok))
    ensures (Logins(Lives(log)), Drops(Lives(log))) == (Logins(log), Drops(log))
  {
    if log != [] {
      var e := log[|log| - 1];
      LivesCountAlike(log[..|log| - 1], tok);
      var before := Lives(log[..|log| - 1]);
      assert (before + [e])[..|before|] == before && before + [] == before;
    }
  }

  lemma {:induction false} CountsOfAlternation(lives: seq<Event>, tok: nat)
    requires OneAfterTheOther(lives)
    ensures (LoginsOf(lives, tok), DropsOf(lives, tok))
         == (if 2 * tok < |lives| then 1 else 0, if 2 * tok + 1 < |lives| then 1 else 0)
    ensures (Logins(lives), Drops(lives)) == ((|lives| + 1) / 2, |lives| / 2)
  {
    if lives != [] { CountsOfAlternation(lives[..|lives| - 1], tok); }
  }

  // ---- logins happen on demand ----

  predicate NeedsLogin(s: State) { s.token.None? || s.stale }

  predicate OnDemand(s: State) {
    forall t | 0 <= t < |s.threads| && At(s, t).LoggingIn? :: NeedsLogin(s)
  }

  lemma NeedStays(s: State, step: Step)
    requires Enabled(s, step) && NeedsLogin(s) && !step.LoginOk?
    ensures NeedsLogin(Next(s, step))
  {
  }

  lemma LoginIsEntered(s: State, step: Step)
    requires Enabled(s, step) && !step.TokenExpires? && step.t < |Next(s, step).threads|
    requires At(Next(s, step), step.t).LoggingIn?
    ensures step.EnsureLogin? && !step.LoginOk? && NeedsLogin(s)
  {
  }

  lemma OnDemandIsKept(s: State, step: Step)
    requires Enabled(s, step) && LocksOk(s) && OnDemand(s)
    ensures OnDemand(Next(s, step))
  {
    hide Enabled, Next, NeedsLogin;
    var n := Next(s, step);
    if step.TokenExpires? {
      ExpiryOnlyMarks(s);
    } else {
      StepMoves(s, step);
      forall u | 0 <= u < |n.threads| && At(n, u).LoggingIn? ensures NeedsLogin(n) {
        if u == step.t {
          LoginIsEntered(s, step);
        } else {
          assert n.threads[u] == s.threads[u] && At(s, u) == At(n, u);
          if step.LoginOk? { LoginHoldsTheLock(s, step); }
        }
        NeedStays(s, step);
      }
    }
  }

  lemma ExpiryOnlyMarks(s: State)
    requires Enabled(s, TokenExpires)
    ensures NeedsLogin(Next(s, TokenExpires)) && s.token.Some?
    ensures Next(s, TokenExpires)
         == s.(stale := true, log := s.log + [RanOut(s.token.value)])
  {
  }

  lemma LoginHoldsTheLock(s: State, step: Step)
    requires Enabled(s, step) && step.LoginOk?
    ensures At(s, step.t).LoggingIn?
    ensures !At(Next(s, step), step.t).LoggingIn?
  {
  }

  // ---- no token goes without a reason ----

  predicate Happened(log: seq<Event>, n: nat, e: Event) {
    exists i :: 0 <= i < n && i < |log| && log[i] == e
  }

  /** What must have happened before a token is dropped: as rejected, the thread that clears it was refused with that
      very token; as expired, it ran out; logging out needs nothing. */
  predicate Justified(log: seq<Event>, n: nat, tok: nat, why: Why) {
    match why
    case Rejected(t, used) => used == Some(tok) && Happened(log, n, Refused(t, used))
    case Expired => Happened(log, n, RanOut(tok))
    case LoggedOut => true
  }

  predicate DropsAreJustified(log: seq<Event>) {
    forall i | 0 <= i < |log| && log[i].Dropped? ::
      Justified(log, i, log[i].tok, log[i].why)
  }

  /** A thread about to clear a token was itself refused with it. */
  predicate WasRefused(log: seq<Event>, pc: Pc, t: nat) {
    (pc.WantNote? && pc.refused) || pc.WantClear? ==> Happened(log, |log|, Refused(t, pc.tok))
  }

  predicate ReasonsOk(s: State) {
    && DropsAreJustified(s.log)
    && (s.stale && s.token.Some? ==> Happened(s.log, |s.log|, RanOut(s.token.value)))
    && forall t | 0 <= t < |s.threads| :: WasRefused(s.log, At(s, t), t)
  }

  lemma HappenedStays(log: seq<Event>, more: seq<Event>, n: nat, m: nat, e: Event)
    requires Happened(log, n, e) && log <= more && n <= m
    ensures Happened(more, m, e)
  {
    var i :| 0 <= i < n && i < |log| && log[i] == e;
    assert more[i] == e;
  }

  lemma JustLogged(log: seq<Event>, e: Event)
    ensures Happened(log + [e], |log + [e]|, e)
  {
    assert (log + [e])[|log|] == e;
  }

  lemma JustifiedStays(log: seq<Event>, more: seq<Event>, n: nat, tok: nat, why: Why)
    requires Justified(log, n, tok, why) && log <= more
    ensures Justified(more, n, tok, why)
  {
    hide Happened;
    match why
    case Rejected(t, used) => HappenedStays(log, more, n, n, Refused(t, used));
    case Expired => HappenedStays(log, more, n, n, RanOut(tok));
    case LoggedOut =>
  }

  lemma OneMoreEvent(log: seq<Event>, e: Event)
    requires DropsAreJustified(log) && (e.Dropped? ==> Justified(log, |log|, e.tok, e.why))
    ensures DropsAreJustified(log + [e])
  {
    hide Justified;
    var more := log + [e];
    forall i | 0 <= i < |more| && more[i].Dropped? ensures Justified(more, i, more[i].tok, more[i].why) {
      JustifiedStays(log, more, i, more[i].tok, more[i].why);
    }
  }

  /** Only thread t moved, and what it needs to have happened did. */
  lemma MovedKeepsReasons(s: State, n: State, t: nat)
    requires ReasonsOk(s) && s.log <= n.log && DropsAreJustified(n.log)
    requires n.stale && n.token.Some? ==> s.stale && n.token == s.token
    requires t < |s.threads| == |n.threads| && n.threads == s.threads[t := n.threads[t]]
    requires WasRefused(n.log, At(n, t), t)
    ensures ReasonsOk(n)
  {
    hide Happened, DropsAreJustified;
    if n.stale && n.token.Some? { HappenedStays(s.log, n.log, |s.log|, |n.log|, RanOut(s.token.value)); }
    forall u | 0 <= u < |n.threads| ensures WasRefused(n.log, At(n, u), u) {
      if u != t { WasRefusedStays(s.log, n.log, At(s, u), u); }
    }
  }

  lemma WasRefusedStays(log: seq<Event>, more: seq<Event>, pc: Pc, t: nat)
    requires WasRefused(log, pc, t) && log <= more
    ensures WasRefused(more, pc, t)
  {
    hide Happened;
    if (pc.WantNote? && pc.refused) || pc.WantClear? {
      HappenedStays(log, more, |log|, |more|, Refused(t, pc.tok));
    }
  }

  lemma LoginIsJustified(s: State, t: nat)
    requires Enabled(s, LoginOk(t)) && ReasonsOk(s) && OnDemand(s)
    ensures s.log <= Next(s, LoginOk(t)).log
    ensures DropsAreJustified(Next(s, LoginOk(t)).log)
  {
    hide DropsAreJustified, Happened;
    assert NeedsLogin(s);
    if s.token.Some? { OneMoreEvent(s.log, Dropped(s.token.value, Expired)); }
    OneMoreEvent(Drop(s, Expired).log, LoggedIn(s.issued));
    OneMoreEvent(Issued(Drop(s, Expired)).log, Ready(t));
  }

  lemma ClearIsJustified(s: State, t: nat)
    requires Enabled(s, Clear(t)) && ReasonsOk(s)
    ensures s.log <= Next(s, Clear(t)).log
    ensures DropsAreJustified(Next(s, Clear(t)).log)
  {
    hide DropsAreJustified, Happened;
    var tok := At(s, t).tok;
    assert WasRefused(s.log, At(s, t), t);
    if s.token == tok && s.token.Some? { OneMoreEvent(s.log, Dropped(tok.value, Rejected(t, tok))); }
  }

  lemma StepIsJustified(s: State, step: Step)
    requires Enabled(s, step) && ReasonsOk(s) && OnDemand(s)
    ensures s.log <= Next(s, step).log
    ensures DropsAreJustified(Next(s, step).log)
  {
    hide DropsAreJustified, Happened, WasRefused, OnDemand;
    match step
    case LoginOk(t) => LoginIsJustified(s, t);
    case EnsureLogin(t) => OneMoreEvent(s.log, Ready(t));
    case ReadToken(t) => OneMoreEvent(s.log, Posted(t, s.token));
    case PostRefused(t) => OneMoreEvent(s.log, Refused(t, At(s, t).tok));
    case Clear(t) => ClearIsJustified(s, t);
    case LogoutDone(_) => if s.token.Some? { OneMoreEvent(s.log, Dropped(s.token.value, LoggedOut)); }
    case TokenExpires => OneMoreEvent(s.log, RanOut(s.token.value));
    case _ =>
  }

  lemma AnswersDoNotClear(s: State, step: Step)
    requires Enabled(s, step) && (step.PostOk? || step.PostFail?)
    ensures var pc := At(Next(s, step), step.t);
            !pc.WantClear? && (pc.WantNote? ==> !pc.refused)
  {
  }

  /** No other step leads to a clear. */
  lemma OthersDoNotClear(s: State, step: Step)
    requires Enabled(s, step) && !step.TokenExpires? && !step.PostRefused? && !step.Note?
    requires step.t < |Next(s, step).threads|
    ensures var pc := At(Next(s, step), step.t);
            !pc.WantClear? && (pc.WantNote? ==> !pc.refused)
  {
    hide Next, Enabled;
    if step.PostOk? || step.PostFail? { AnswersDoNotClear(s, step); } else { CallsDoNotClear(s, step); }
  }

  lemma CallsDoNotClear(s: State, step: Step)
    requires Enabled(s, step) && !step.TokenExpires? && !step.PostRefused? && !step.Note?
    requires !step.PostOk? && !step.PostFail? && step.t < |Next(s, step).threads|
    ensures !At(Next(s, step), step.t).WantClear? && !At(Next(s, step), step.t).WantNote?
  {
    hide Drop, Issued, Logged;
  }

  /** The thread that moved was refused with the token it is about to clear. */
  lemma MoverWasRefused(s: State, step: Step)
    requires Enabled(s, step) && ReasonsOk(s) && !step.TokenExpires? && step.t < |Next(s, step).threads|
    ensures WasRefused(Next(s, step).log, At(Next(s, step), step.t), step.t)
  {
    hide DropsAreJustified, Happened;
    if step.PostRefused? {
      JustLogged(s.log, Refused(step.t, At(s, step.t).tok));
    } else if step.Note? {
      assert WasRefused(s.log, At(s, step.t), step.t);
    } else {
      hide Next;
      OthersDoNotClear(s, step);
    }
  }

  lemma StaleStays(s: State, step: Step)
    requires Enabled(s, step) && !step.TokenExpires?
    ensures var n := Next(s, step);
            n.stale && n.token.Some? ==> s.stale && n.token == s.token
  {
  }

  lemma ReasonsAreKept(s: State, step: Step)
    requires Enabled(s, step) && ReasonsOk(s) && OnDemand(s) && LocksOk(s)
    ensures ReasonsOk(Next(s, step))
  {
    hide OnDemand, LocksOk, DropsAreJustified, Happened, WasRefused, Next, Enabled, InExchange, HoldsTokenLock,
        LockMove;
    var n := Next(s, step);
    StepIsJustified(s, step);
    if step.TokenExpires? {
      ExpiryOnlyMarks(s);
      JustLogged(s.log, RanOut(s.token.value));
      forall u | 0 <= u < |n.threads| ensures WasRefused(n.log, At(n, u), u) {
        WasRefusedStays(s.log, n.log, At(s, u), u);
      }
    } else {
      StepMoves(s, step);
      MoverWasRefused(s, step);
      StaleStays(s, step);
      MovedKeepsReasons(s, n, step.t);
    }
  }

  // ---- the requests of one call ----

  /** The call so far: refused exactly if it is on its second attempt; it ends with a second request exactly if the
      first was refused and no login failed. */
  predicate CallOk(th: Thread) {
    match th.pc
    case WantRequest(_) => th.posts == 0 && !th.refused && !th.denied
    case WantLogin(k, a) => th.posts == a <= 1 && (th.refused <==> a == 1) && !th.denied && (a == 1 ==> k != LoginOnly)
    case LoggingIn(k, a) => th.posts == a <= 1 && (th.refused <==> a == 1) && !th.denied && (a == 1 ==> k != LoginOnly)
    case WantToken(k, a) => th.posts == a <= 1 && (th.refused <==> a == 1) && !th.denied && k != LoginOnly
    case Posting(k, a, tok) =>
      th.posts == a + 1 <= 2 && (th.refused <==> a == 1) && !th.denied && k != LoginOnly && (a == 0 ==> tok == th.first)
    case WantNote(k, a, tok, refused) =>
      th.posts == a + 1 <= 2 && !th.denied && k != LoginOnly
      && (if a == 0 then tok == th.first && th.refused == refused else th.refused)
    case WantClear(k, tok) => th.posts == 1 && th.refused && !th.denied && k != LoginOnly && tok == th.first
    case Idle => th.posts <= 2 && (th.posts == 2 <==> th.refused && !th.denied)
    case _ => th.posts == 0 && !th.refused
  }

  predicate CallsOk(s: State) {
    forall t | 0 <= t < |s.threads| :: CallOk(s.threads[t])
  }

  lemma EntryKeepsCall(s: State, step: Step)
    requires Enabled(s, step) && (step.Call? || step.CallLogout? || step.LockRequest?) && CallOk(s.threads[step.t])
    ensures CallOk(Next(s, step).threads[step.t])
  {
  }

  lemma LoginKeepsCall(s: State, step: Step)
    requires Enabled(s, step) && (step.EnsureLogin? || step.LoginOk? || step.LoginFail?)
    requires CallOk(s.threads[step.t])
    ensures |Next(s, step).threads| == |s.threads|
    ensures CallOk(Next(s, step).threads[step.t])
  {
    hide Drop, Issued;
  }

  lemma ReadKeepsCall(s: State, step: Step)
    requires Enabled(s, step) && step.ReadToken? && CallOk(s.threads[step.t])
    ensures CallOk(Next(s, step).threads[step.t])
  {
    hide Logged;
  }

  lemma AnswerKeepsCall(s: State, step: Step)
    requires Enabled(s, step) && (step.PostOk? || step.PostFail?) && CallOk(s.threads[step.t])
    ensures CallOk(Next(s, step).threads[step.t])
  {
  }

  lemma RefusalKeepsCall(s: State, step: Step)
    requires Enabled(s, step) && step.PostRefused? && CallOk(s.threads[step.t])
    ensures CallOk(Next(s, step).threads[step.t])
  {
    hide Logged;
  }

  lemma NoteKeepsCall(s: State, t: nat)
    requires Enabled(s, Note(t)) && CallOk(s.threads[t])
    ensures CallOk(Next(s, Note(t)).threads[t])
  {
  }

  lemma ClearKeepsCall(s: State, t: nat)
    requires Enabled(s, Clear(t)) && CallOk(s.threads[t])
    ensures |Next(s, Clear(t)).threads| == |s.threads|
    ensures CallOk(Next(s, Clear(t)).threads[t])
  {
    hide Drop;
  }

  lemma LogoutKeepsCall(s: State, step: Step)
    requires Enabled(s, step) && (step.LockLogout? || step.LogoutDone?) && CallOk(s.threads[step.t])
    ensures |Next(s, step).threads| == |s.threads|
    ensures CallOk(Next(s, step).threads[step.t])
  {
    hide Drop;
  }

  lemma CallsAreKept(s: State, step: Step)
    requires Enabled(s, step) && CallsOk(s) && LocksOk(s)
    ensures CallsOk(Next(s, step))
  {
    hide CallOk, Enabled, Next, LocksOk, LockMove, InExchange, HoldsTokenLock;
    if step.TokenExpires? {
      ExpiryOnlyMarks(s);
    } else {
      StepMoves(s, step);
      match step
      case Call(_, _) => EntryKeepsCall(s, step);
      case CallLogout(_) => EntryKeepsCall(s, step);
      case LockRequest(_) => EntryKeepsCall(s, step);
      case EnsureLogin(_) => LoginKeepsCall(s, step);
      case LoginOk(_) => LoginKeepsCall(s, step);
      case LoginFail(_) => LoginKeepsCall(s, step);
      case ReadToken(_) => ReadKeepsCall(s, step);
      case PostOk(_) => AnswerKeepsCall(s, step);
      case PostFail(_) => AnswerKeepsCall(s, step);
      case PostRefused(_) => RefusalKeepsCall(s, step);
      case Note(t) => NoteKeepsCall(s, t);
      case Clear(t) => ClearKeepsCall(s, t);
      case _ => LogoutKeepsCall(s, step);
    }
  }

  // ---- the second request carries another token ----

  /** On a second attempt the token of the first request is no longer held, and what is sent was issued after it. */
  predicate RetryOk(th: Thread, token: Option<nat>, issued: nat) {
    th.first.Some? ==>
      && th.first.value < issued
      && (th.pc.WantLogin? || th.pc.LoggingIn? || th.pc.WantToken? ==> th.pc.attempt >= 1 ==> token != th.first)
      && (th.pc.Posting? && th.pc.attempt >= 1 && th.pc.tok.Some? ==> th.pc.tok.value > th.first.value)
  }

  predicate RetriesOk(s: State) {
    forall t | 0 <= t < |s.threads| ::
      RetryOk(s.threads[t], s.token, s.issued)
  }

  /** The token held only ever goes away or is replaced by one with a new number. */
  predicate OnlyNewer(s: State, n: State) {
    && n.issued >= s.issued
    && (n.token == s.token || n.token.None? || n.token.value >= s.issued)
  }

  lemma TokensOnlyGetNewer(s: State, step: Step)
    requires Enabled(s, step)
    ensures OnlyNewer(s, Next(s, step))
  {
  }

  lemma NewerKeepsRetry(th: Thread, s: State, n: State)
    requires RetryOk(th, s.token, s.issued) && OnlyNewer(s, n)
    ensures RetryOk(th, n.token, n.issued)
  {
  }

  lemma ClearMakesRetryOk(s: State, step: Step)
    requires Enabled(s, step) && step.Clear? && CallOk(s.threads[step.t])
    requires RetryOk(s.threads[step.t], s.token, s.issued)
    ensures RetryOk(Next(s, step).threads[step.t], Next(s, step).token, Next(s, step).issued)
  {
  }

  lemma EnsureKeepsRetry(s: State, step: Step)
    requires Enabled(s, step) && step.EnsureLogin?
    requires RetryOk(s.threads[step.t], s.token, s.issued)
    ensures |Next(s, step).threads| == |s.threads|
    ensures RetryOk(Next(s, step).threads[step.t], Next(s, step).token, Next(s, step).issued)
  {
  }

  lemma LoginOkKeepsRetry(s: State, step: Step)
    requires Enabled(s, step) && step.LoginOk?
    requires RetryOk(s.threads[step.t], s.token, s.issued)
    ensures |Next(s, step).threads| == |s.threads|
    ensures RetryOk(Next(s, step).threads[step.t], Next(s, step).token, Next(s, step).issued)
  {
  }

  lemma LoginFailKeepsRetry(s: State, step: Step)
    requires Enabled(s, step) && step.LoginFail?
    requires RetryOk(s.threads[step.t], s.token, s.issued)
    ensures |Next(s, step).threads| == |s.threads|
    ensures RetryOk(Next(s, step).threads[step.t], Next(s, step).token, Next(s, step).issued)
  {
  }

  lemma ReadKeepsRetry(s: State, step: Step)
    requires Enabled(s, step) && step.ReadToken?
    requires TokenIsLast(s) && RetryOk(s.threads[step.t], s.token, s.issued)
    ensures |Next(s, step).threads| == |s.threads|
    ensures RetryOk(Next(s, step).threads[step.t], s.token, s.issued)
  {
    hide Logged;
  }

  lemma AnswerKeepsRetry(s: State, step: Step)
    requires Enabled(s, step) && (step.PostOk? || step.PostFail?)
    requires RetryOk(s.threads[step.t], s.token, s.issued)
    ensures |Next(s, step).threads| == |s.threads|
    ensures RetryOk(Next(s, step).threads[step.t], s.token, s.issued)
  {
  }

  lemma RefusalKeepsRetry(s: State, step: Step)
    requires Enabled(s, step) && step.PostRefused?
    requires RetryOk(s.threads[step.t], s.token, s.issued)
    ensures |Next(s, step).threads| == |s.threads|
    ensures RetryOk(Next(s, step).threads[step.t], s.token, s.issued)
  {
    hide Logged;
  }

  lemma EndsKeepRetry(s: State, step: Step)
    requires Enabled(s, step) && !step.TokenExpires?
    requires step.Call? || step.CallLogout? || step.LockRequest? || step.Note? || step.LockLogout? || step.LogoutDone?
    requires CallOk(s.threads[step.t]) && RetryOk(s.threads[step.t], s.token, s.issued)
    ensures |Next(s, step).threads| == |s.threads|
    ensures RetryOk(Next(s, step).threads[step.t], Next(s, step).token, Next(s, step).issued)
  {
    hide Drop;
    DropOnlyDrops(s, LoggedOut);
  }

  lemma RequestsLeaveTokens(s: State, step: Step)
    requires Enabled(s, step) && (step.ReadToken? || step.PostOk? || step.PostFail? || step.PostRefused?)
    ensures Next(s, step).token == s.token
    ensures Next(s, step).issued == s.issued
  {
    hide Logged;
  }

  /** The token held is the last one issued. */
  predicate TokenIsLast(s: State) { s.token.Some? ==> s.token.value == s.issued - 1 }

  lemma DropOnlyDrops(s: State, why: Why)
    ensures Drop(s, why).token == None
    ensures Drop(s, why).issued == s.issued
  {
  }

  lemma RetriesAreKept(s: State, step: Step)
    requires Enabled(s, step) && RetriesOk(s) && CallsOk(s) && LocksOk(s) && TokenIsLast(s)
    ensures RetriesOk(Next(s, step))
  {
    hide CallOk, RetryOk, Enabled, Next, LocksOk, LockMove, InExchange, HoldsTokenLock, TokenIsLast, OnlyNewer;
    var n := Next(s, step);
    TokensOnlyGetNewer(s, step);
    if step.TokenExpires? {
      ExpiryOnlyMarks(s);
    } else {
      StepMoves(s, step);
      if step.Clear? { ClearMakesRetryOk(s, step); }
      else if step.EnsureLogin? { EnsureKeepsRetry(s, step); }
      else if step.LoginOk? { LoginOkKeepsRetry(s, step); }
      else if step.LoginFail? { LoginFailKeepsRetry(s, step); }
      else if step.ReadToken? || step.PostOk? || step.PostFail? || step.PostRefused? {
        RequestsLeaveTokens(s, step);
        if step.ReadToken? { ReadKeepsRetry(s, step); }
        else if step.PostRefused? { RefusalKeepsRetry(s, step); }
        else { AnswerKeepsRetry(s, step); }
      } else { EndsKeepRetry(s, step); }
    }
    forall u | 0 <= u < |n.threads| && (step.TokenExpires? || u != step.t)
      ensures RetryOk(n.threads[u], n.token, n.issued)
    {
      assert n.threads[u] == s.threads[u];
      NewerKeepsRetry(s.threads[u], s, n);
    }
  }

  // ---- every reachable state ----

  predicate Inv(s: State) {
    && LocksOk(s) && TokenOk(s) && OnDemand(s) && ReasonsOk(s)
    && CallsOk(s) && RetriesOk(s)
  }

  lemma HeldTokenIsLast(s: State)
    requires TokenOk(s)
    ensures TokenIsLast(s)
  {
  }

  lemma {:induction false} InvHoldsThroughout(s: State, steps: seq<Step>)
    requires Inv(s) && Runs(s, steps)
    ensures Inv(After(s, steps))
    decreases |steps|
  {
    hide LocksOk, TokenOk, OnDemand, ReasonsOk, CallsOk, RetriesOk, Enabled, Next;
    if steps != [] {
      LocksAreKept(s, steps[0]);
      TokenIsKept(s, steps[0]);
      OnDemandIsKept(s, steps[0]);
      ReasonsAreKept(s, steps[0]);
      CallsAreKept(s, steps[0]);
      HeldTokenIsLast(s);
      RetriesAreKept(s, steps[0]);
      InvHoldsThroughout(Next(s, steps[0]), steps[1..]);
    }
  }

  lemma StartIsOk(n: nat)
    ensures Inv(Start(n))
  {
  }

  /** In every interleaving of any number of threads: successful logins = tokens dropped + one if a token is held. */
  lemma TokensBalance(n: nat, steps: seq<Step>)
    requires Runs(Start(n), steps)
    ensures var s := After(Start(n), steps);
            Logins(s.log) == Drops(s.log) + if s.token.Some? then 1 else 0
  {
    hide Start, Runs, After, LocksOk, OnDemand, ReasonsOk, CallsOk, RetriesOk, Lives, OneAfterTheOther, Logins, Drops;
    var s := After(Start(n), steps);
    StartIsOk(n);
    InvHoldsThroughout(Start(n), steps);
    LivesCountAlike(s.log, 0);
    CountsOfAlternation(Lives(s.log), 0);
  }

  /** Each token is issued once and dropped at most once, and the next is issued only after it was dropped. */
  lemma TokensFollowEachOther(n: nat, steps: seq<Step>)
    requires Runs(Start(n), steps)
    ensures var log := After(Start(n), steps).log;
            forall k: nat :: LoginsOf(log, k + 1) <= DropsOf(log, k) <= LoginsOf(log, k) <= 1
  {
    hide Start, Runs, After, LocksOk, OnDemand, ReasonsOk, CallsOk, RetriesOk, Lives, OneAfterTheOther, LoginsOf,
        DropsOf;
    var s := After(Start(n), steps);
    StartIsOk(n);
    InvHoldsThroughout(Start(n), steps);
    forall k: nat ensures LoginsOf(s.log, k + 1) <= DropsOf(s.log, k) <= LoginsOf(s.log, k) <= 1 {
      LivesCountAlike(s.log, k);
      LivesCountAlike(s.log, k + 1);
      CountsOfAlternation(Lives(s.log), k);
      CountsOfAlternation(Lives(s.log), k + 1);
    }
  }

  /** Every token dropped as rejected was dropped by a thread whose own request with that very token had been refused,
      and every token dropped as expired had run out. */
  lemma OnlyARefusedCallerClears(n: nat, steps: seq<Step>)
    requires Runs(Start(n), steps)
    ensures DropsAreJustified(After(Start(n), steps).log)
  {
    hide Start, Runs, After, LocksOk, TokenOk, OnDemand, CallsOk, RetriesOk, DropsAreJustified;
    var s := After(Start(n), steps);
    StartIsOk(n);
    InvHoldsThroughout(Start(n), steps);
  }

  // ---- what refusals with one token cause ----

  /** A token was dropped because of a request that was refused with token k. */
  predicate CausedBy(e: Event, k: nat) {
    e.Dropped? && e.why.Rejected? && e.why.used == Some(k)
  }

  /** How many drops refusals with token k caused. */
  function DropsFor(log: seq<Event>, k: nat): nat {
    if log == [] then 0 else DropsFor(log[..|log| - 1], k) + if CausedBy(log[|log| - 1], k) then 1 else 0
  }

  /** The token was last dropped, and a refusal with token k caused it. */
  predicate MissingFor(log: seq<Event>, k: nat) {
    Lives(log) != [] && CausedBy(Lives(log)[|Lives(log)| - 1], k)
  }

  /** How many successful logins refusals with token k caused: those that replace a token dropped for them. */
  function ReloginsFor(log: seq<Event>, k: nat): nat {
    if log == [] then 0
    else ReloginsFor(log[..|log| - 1], k) + if log[|log| - 1].LoggedIn? && MissingFor(log[..|log| - 1], k) then 1 else 0
  }

  /** Each login caused by refusals with k uses up a drop they caused. */
  lemma {:induction false} ReloginsNeedDrops(log: seq<Event>, k: nat)
    ensures ReloginsFor(log, k) + (if MissingFor(log, k) then 1 else 0) <= DropsFor(log, k)
  {
    if log != [] { ReloginsNeedDrops(log[..|log| - 1], k); }
  }

  /** A drop caused by a refusal with token k drops token k. */
  lemma {:induction false} DropsForAreDropsOf(log: seq<Event>, k: nat)
    requires DropsAreJustified(log)
    ensures DropsFor(log, k) <= DropsOf(log, k)
  {
    if log != [] {
      var e := log[|log| - 1];
      if e.Dropped? { assert Justified(log, |log| - 1, e.tok, e.why); }
      JustifiedSoFar(log);
      DropsForAreDropsOf(log[..|log| - 1], k);
    }
  }

  lemma JustifiedSoFar(log: seq<Event>)
    requires log != [] && DropsAreJustified(log)
    ensures DropsAreJustified(log[..|log| - 1])
  {
    var less := log[..|log| - 1];
    forall i | 0 <= i < |less| && less[i].Dropped? ensures Justified(less, i, less[i].tok, less[i].why) {
      assert Justified(log, i, log[i].tok, log[i].why);
      match less[i].why
      case Rejected(t, used) => HappenedBefore(log, less, i, Refused(t, used));
      case Expired => HappenedBefore(log, less, i, RanOut(less[i].tok));
      case LoggedOut =>
    }
  }

  lemma HappenedBefore(log: seq<Event>, less: seq<Event>, n: nat, e: Event)
    requires Happened(log, n, e) && less <= log && n <= |less|
    ensures Happened(less, n, e)
  {
    var i :| 0 <= i < n && i < |log| && log[i] == e;
    assert less[i] == e;
  }

  /** However many threads are refused with token k, in whatever order they clear and log in again: their refusals
      cause at most one drop, of token k itself, and at most one successful login. */
  lemma OneReloginPerRejectedToken(n: nat, steps: seq<Step>)
    requires Runs(Start(n), steps)
    ensures var log := After(Start(n), steps).log;
            && (forall k: nat :: ReloginsFor(log, k) <= DropsFor(log, k) <= 1)
            && (forall e | e in log && e.Dropped? && e.why.Rejected? :: e.why.used == Some(e.tok))
  {
    hide Start, Runs, After, LocksOk, TokenOk, OnDemand, CallsOk, RetriesOk, DropsFor, ReloginsFor, MissingFor,
        Happened;
    var s := After(Start(n), steps);
    StartIsOk(n);
    InvHoldsThroughout(Start(n), steps);
    TokensFollowEachOther(n, steps);
    forall k: nat ensures ReloginsFor(s.log, k) <= DropsFor(s.log, k) <= 1 {
      ReloginsNeedDrops(s.log, k);
      DropsForAreDropsOf(s.log, k);
      assert DropsOf(s.log, k) <= 1;
    }
    forall i | 0 <= i < |s.log| && s.log[i].Dropped? && s.log[i].why.Rejected?
      ensures s.log[i].why.used == Some(s.log[i].tok)
    {
      assert Justified(s.log, i, s.log[i].tok, s.log[i].why);
    }
  }

  // ---- a token is kept unless there is a reason ----

  lemma {:induction false} LivesAreLogged(log: seq<Event>, e: Event)
    ensures e in Lives(log) <==> e in log && TokenEvent(e)
  {
    if log != [] {
      LivesAreLogged(log[..|log| - 1], e);
      assert log == log[..|log| - 1] + [log[|log| - 1]];
    }
  }

  /** A token once issued is held, however many threads are refused with others, until it is dropped for a reason
      of its own: a request refused with it, its lease run out, or a logout. */
  lemma IssuedTokenIsKept(n: nat, steps: seq<Step>, k: nat)
    requires Runs(Start(n), steps) && LoggedIn(k) in After(Start(n), steps).log
    ensures var s := After(Start(n), steps);
            s.token == Some(k)
            || exists i :: 0 <= i < |s.log| && s.log[i].Dropped? && s.log[i].tok == k
                && Justified(s.log, i, k, s.log[i].why)
  {
    hide Start, Runs, After, LocksOk, OnDemand, CallsOk, RetriesOk, Lives, Justified;
    var s := After(Start(n), steps);
    StartIsOk(n);
    InvHoldsThroughout(Start(n), steps);
    var lives := Lives(s.log);
    LivesAreLogged(s.log, LoggedIn(k));
    var j :| 0 <= j < |lives| && lives[j] == LoggedIn(k);
    if s.token != Some(k) {
      assert j == 2 * k && j + 1 < |lives|;
      var e := lives[j + 1];
      LivesAreLogged(s.log, e);
      var i :| 0 <= i < |s.log| && s.log[i] == e;
      assert Justified(s.log, i, k, s.log[i].why);
    }
  }

  /** The token a second request carries, if any, was issued after the one its first request was refused with. */
  lemma RetryUsesANewerToken(n: nat, steps: seq<Step>)
    requires Runs(Start(n), steps)
    ensures forall th | th in After(Start(n), steps).threads && th.pc.Posting? && th.pc.attempt == 1 ::
              th.refused && (th.first.Some? && th.pc.tok.Some? ==> th.pc.tok.value > th.first.value)
  {
    hide Start, Runs, After, LocksOk, TokenOk, OnDemand, ReasonsOk;
    var s := After(Start(n), steps);
    StartIsOk(n);
    InvHoldsThroughout(Start(n), steps);
    assert forall t | 0 <= t < |s.threads| ::
        CallOk(s.threads[t]) && RetryOk(s.threads[t], s.token, s.issued);
  }

  /** The thread is inside the exchange of a serial command or a snapshot, from its first check to its last answer. */
  predicate InSerialExchange(pc: Pc) {
    && (pc.WantLogin? || pc.LoggingIn? || pc.WantToken? || pc.Posting? || pc.WantNote? || pc.WantClear?)
    && (pc.kind == Serial || pc.kind == Snapshot)
  }

  /** Locks exclude, calls post at most twice, and only serial commands and snapshots wait for the request lock. */
  lemma CallsAreSerialAndPostAtMostTwice(n: nat, steps: seq<Step>)
    requires Runs(Start(n), steps)
    ensures var s := After(Start(n), steps);
            forall t, u | 0 <= t < |s.threads| && 0 <= u < |s.threads| ::
              && s.threads[t].posts <= 2
              && (InSerialExchange(At(s, t)) && InSerialExchange(At(s, u)) ==> t == u)
              && ((At(s, t).LoggingIn? || At(s, t).LoggingOut?) && (At(s, u).LoggingIn? || At(s, u).LoggingOut?)
                  ==> t == u)
              && (At(s, t).WantRequest? ==> At(s, t).kind == Serial || At(s, t).kind == Snapshot)
  {
    hide Start, Runs, After, TokenOk, OnDemand, ReasonsOk, RetriesOk;
    var s := After(Start(n), steps);
    StartIsOk(n);
    InvHoldsThroughout(Start(n), steps);
    assert forall t | 0 <= t < |s.threads| :: CallOk(s.threads[t]);
    assert forall t | 0 <= t < |s.threads| && InSerialExchange(At(s, t)) :: InExchange(At(s, t));
  }

  /** Every answer to a command is followed by the record of its failure kind, under the token lock; a snapshot's is
      not. */
  lemma AnswersToCommandsAreNoted(s: State, step: Step)
    requires Enabled(s, step) && (step.PostOk? || step.PostFail? || step.PostRefused?)
    ensures step.t < |Next(s, step).threads|
    ensures At(Next(s, step), step.t).WantNote? <==> At(s, step.t).kind != Snapshot
  {
    hide Logged;
  }

  /** A logout without a token returns at once; any other ends with no token held. */
  lemma LogoutForgetsTheToken(s: State, t: nat)
    ensures Enabled(s, LockLogout(t)) ==>
              var n := Next(s, LockLogout(t));
              && n.token == s.token && n.log == s.log && t < |n.threads|
              && At(n, t) == if s.token.Some? then LoggingOut else Idle
    ensures Enabled(s, LogoutDone(t)) ==>
              var n := Next(s, LogoutDone(t));
              n.token == None && n.tokenOwner == None && t < |n.threads| && At(n, t) == Idle
  {
  }

  // ---- no deadlock, no livelock ----

  /** A step of a call under way, as opposed to a new call or a token running out. */
  predicate Advances(step: Step) {
    !step.Call? && !step.CallLogout? && !step.TokenExpires?
  }

  /** The step that continues thread u when it waits for no lock that is taken. */
  function Continue(pc: Pc, u: nat): Step {
    match pc
    case Idle => CallLogout(u)
    case WantRequest(_) => LockRequest(u)
    case WantLogin(_, _) => EnsureLogin(u)
    case LoggingIn(_, _) => LoginFail(u)
    case WantToken(_, _) => ReadToken(u)
    case Posting(_, _, _) => PostFail(u)
    case WantNote(_, _, _, _) => Note(u)
    case WantClear(_, _) => Clear(u)
    case WantLogout => LockLogout(u)
    case LoggingOut => LogoutDone(u)
  }

  /** Whenever some call is under way, some call can take its next step. */
  lemma NoDeadlock(s: State, t: nat)
    requires LocksOk(s) && t < |s.threads| && At(s, t) != Idle
    ensures exists step :: Enabled(s, step) && Advances(step)
  {
    var u := if s.tokenOwner.Some? then s.tokenOwner.value
             else if s.requestOwner.Some? then s.requestOwner.value else t;
    assert HoldsTokenLock(At(s, u)) <==> s.tokenOwner == Some(u);
    assert InExchange(At(s, u)) <==> s.requestOwner == Some(u);
    var step := Continue(At(s, u), u);
    assert Enabled(s, step) && Advances(step);
  }

  /** How many steps a call may still take. */
  function Rank(pc: Pc): nat {
    match pc
    case Idle => 0
    case WantRequest(_) => 12
    case WantLogin(_, a) => if a == 0 then 11 else 5
    case LoggingIn(_, a) => if a == 0 then 10 else 4
    case WantToken(_, a) => if a == 0 then 9 else 3
    case Posting(_, a, _) => if a == 0 then 8 else 2
    case WantNote(_, a, _, _) => if a == 0 then 7 else 1
    case WantClear(_, _) => 6
    case WantLogout => 2
    case LoggingOut => 1
  }

  function TotalRank(threads: seq<Thread>): nat {
    if threads == [] then 0 else Rank(threads[0].pc) + TotalRank(threads[1..])
  }

  lemma {:induction false} OneThreadLess(threads: seq<Thread>, t: nat, th: Thread)
    requires t < |threads|
    ensures TotalRank(threads[t := th]) == TotalRank(threads) - Rank(threads[t].pc) + Rank(th.pc)
  {
    if t > 0 {
      OneThreadLess(threads[1..], t - 1, th);
      assert threads[t := th][1..] == threads[1..][t - 1 := th];
    } else {
      assert threads[t := th][1..] == threads[1..];
    }
  }

  /** Thread t took a step towards the end of its call; the others stayed. */
  predicate Lowered(s: State, n: State, t: nat) {
    && t < |s.threads| == |n.threads|
    && n.threads == s.threads[t := n.threads[t]]
    && Rank(At(n, t)) < Rank(At(s, t))
  }

  lemma EntryLowersRank(s: State, step: Step)
    requires Enabled(s, step) && Advances(step) && (step.LockRequest? || step.EnsureLogin? || step.ReadToken?)
    ensures Lowered(s, Next(s, step), step.t)
  {
    hide Drop, Issued, Logged;
  }

  lemma LoginLowersRank(s: State, step: Step)
    requires Enabled(s, step) && Advances(step) && (step.LoginOk? || step.LoginFail?)
    ensures Lowered(s, Next(s, step), step.t)
  {
    hide Drop, Issued, Logged;
  }

  lemma AnswerLowersRank(s: State, step: Step)
    requires Enabled(s, step) && Advances(step) && (step.PostOk? || step.PostFail? || step.PostRefused?)
    ensures Lowered(s, Next(s, step), step.t)
  {
    hide Drop, Issued, Logged;
  }

  lemma ClosingLowersRank(s: State, step: Step)
    requires Enabled(s, step) && Advances(step)
    requires (step.Note? || step.Clear? || step.LockLogout? || step.LogoutDone?)
    ensures Lowered(s, Next(s, step), step.t)
  {
    hide Drop, Issued, Logged;
  }

  lemma StepLowersRank(s: State, step: Step)
    requires Enabled(s, step) && Advances(step)
    ensures Lowered(s, Next(s, step), step.t)
  {
    hide Enabled, Next, Rank, Lowered;
    if step.LockRequest? || step.EnsureLogin? || step.ReadToken? {
      EntryLowersRank(s, step);
    } else if step.LoginOk? || step.LoginFail? {
      LoginLowersRank(s, step);
    } else if step.PostOk? || step.PostFail? || step.PostRefused? {
      AnswerLowersRank(s, step);
    } else {
      ClosingLowersRank(s, step);
    }
  }

  /** With no new calls, every run of the calls under way ends: at most 12 steps for each. */
  lemma {:induction false} CallsFinish(s: State, steps: seq<Step>)
    requires Runs(s, steps) && forall i | 0 <= i < |steps| :: Advances(steps[i])
    ensures |steps| <= TotalRank(s.threads)
    decreases |steps|
  {
    hide Enabled, Next, Rank;
    if steps != [] {
      var n := Next(s, steps[0]);
      StepLowersRank(s, steps[0]);
      OneThreadLess(s.threads, steps[0].t, n.threads[steps[0].t]);
      assert forall i | 0 <= i < |steps| - 1 :: steps[1..][i] == steps[i + 1];
      CallsFinish(n, steps[1..]);
    }
  }
}
