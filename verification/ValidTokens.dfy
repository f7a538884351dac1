/**
That logins happen when they must: in every interleaving a thread posts only after a check of its
own, which passes only while a token is valid, so each request carries a valid token unless another
thread dropped one or one ran out after that check.
 */
module ValidTokens {
  import opened Wrappers
  import opened TokenProtocol

  // ---- what the log says ----

  /** By the first n events the token was issued, and neither dropped nor run out. */
  predicate ValidAt(log: seq<Event>, n: nat, tok: nat) {
    && Happened(log, n, LoggedIn(tok))
    && forall i | 0 <= i < n && i < |log| :: log[i] != RanOut(tok) && !(log[i].Dropped? && log[i].tok == tok)
  }

  /** From event a up to event b no token is dropped and none runs out. */
  predicate Calm(log: seq<Event>, a: nat, b: nat) {
    forall i | a <= i < b && i < |log| :: !log[i].Dropped? && !log[i].RanOut?
  }

  predicate NoPostBy(log: seq<Event>, t: nat, a: nat, b: nat) {
    forall i | a <= i < b && i < |log| :: !(log[i].Posted? && log[i].thread == t)
  }

  /** Event j is the thread's own check for the request posted at i, and the request carries a valid token unless
      one was dropped or ran out in between. */
  predicate CheckedBefore(log: seq<Event>, j: nat, i: nat) {
    && j < i < |log| && log[i].Posted? && log[j] == Ready(log[i].thread)
    && NoPostBy(log, log[i].thread, j, i)
    && (Calm(log, j, i) ==> log[i].used.Some? && ValidAt(log, i, log[i].used.value))
  }

  ghost predicate EveryPostIsChecked(log: seq<Event>) {
    forall i: nat | i < |log| && log[i].Posted? :: exists j: nat :: CheckedBefore(log, j, i)
  }

  ghost predicate ChecksPassOnlyWithAToken(log: seq<Event>) {
    forall j: nat | j < |log| && log[j].Ready? :: exists tok: nat :: ValidAt(log, j, tok)
  }

  // ---- what every state keeps ----

  /** Only tokens already issued are in the log, and the held one is valid unless it is known to have run out. */
  predicate LogOk(log: seq<Event>, token: Option<nat>, stale: bool, issued: nat) {
    && (forall e | e in log && (e.LoggedIn? || e.Dropped? || e.RanOut?) :: e.tok < issued)
    && (token.Some? ==>
          && LoggedIn(token.value) in log
          && (forall e | e in log && e.Dropped? :: e.tok != token.value)
          && (!stale ==> RanOut(token.value) !in log))
  }

  predicate Usable(token: Option<nat>, stale: bool) { token.Some? && !stale }

  /** The thread checked since its last request, and there is a valid token unless one was dropped or ran out since. */
  predicate CheckedSince(log: seq<Event>, token: Option<nat>, stale: bool, t: nat, j: nat) {
    && j < |log| && log[j] == Ready(t) && NoPostBy(log, t, j, |log|)
    && (Calm(log, j, |log|) ==> Usable(token, stale))
  }

  ghost predicate ThreadOk(log: seq<Event>, token: Option<nat>, stale: bool, pc: Pc, t: nat) {
    && (pc.WantToken? ==> exists j: nat :: CheckedSince(log, token, stale, t, j))
    && (pc.Posting? ==> exists i: nat :: PostedLast(log, t, pc.tok, i))
  }

  /** The thread's last request is event i. */
  predicate PostedLast(log: seq<Event>, t: nat, tok: Option<nat>, i: nat) {
    i < |log| && log[i] == Posted(t, tok) && NoPostBy(log, t, i + 1, |log|)
  }

  ghost predicate Sound(s: State) {
    && LogOk(s.log, s.token, s.stale, s.issued)
    && EveryPostIsChecked(s.log) && ChecksPassOnlyWithAToken(s.log)
    && forall t | 0 <= t < |s.threads| :: ThreadOk(s.log, s.token, s.stale, At(s, t), t)
  }

  lemma UsableIsValid(log: seq<Event>, token: Option<nat>, stale: bool, issued: nat)
    requires LogOk(log, token, stale, issued) && Usable(token, stale)
    ensures ValidAt(log, |log|, token.value)
  {
    var i :| 0 <= i < |log| && log[i] == LoggedIn(token.value);
  }

  // ---- one more event ----

  lemma ValidStays(log: seq<Event>, e: Event, n: nat, tok: nat)
    requires ValidAt(log, n, tok) && n <= |log|
    ensures ValidAt(log + [e], n, tok)
  {
    HappenedStays(log, log + [e], n, n, LoggedIn(tok));
  }

  lemma CheckStays(log: seq<Event>, e: Event, j: nat, i: nat)
    requires CheckedBefore(log, j, i)
    ensures CheckedBefore(log + [e], j, i)
  {
    hide ValidAt;
    var more := log + [e];
    assert forall k | 0 <= k < |log| :: more[k] == log[k];
    if Calm(more, j, i) {
      assert Calm(log, j, i);
      ValidStays(log, e, i, log[i].used.value);
    }
  }

  lemma PostsStayChecked(log: seq<Event>, e: Event)
    requires EveryPostIsChecked(log)
    requires e.Posted? ==> exists j: nat :: CheckedBefore(log + [e], j, |log|)
    ensures EveryPostIsChecked(log + [e])
  {
    hide CheckedBefore;
    var more := log + [e];
    forall i: nat | i < |more| && more[i].Posted? ensures exists j: nat :: CheckedBefore(more, j, i) {
      if i < |log| {
        var j: nat :| CheckedBefore(log, j, i);
        CheckStays(log, e, j, i);
      }
    }
  }

  lemma ChecksStayRight(log: seq<Event>, e: Event)
    requires ChecksPassOnlyWithAToken(log)
    requires e.Ready? ==> exists tok: nat :: ValidAt(log, |log|, tok)
    ensures ChecksPassOnlyWithAToken(log + [e])
  {
    hide ValidAt;
    var more := log + [e];
    forall j: nat | j < |more| && more[j].Ready? ensures exists tok: nat :: ValidAt(more, j, tok) {
      var tok: nat :| ValidAt(log, j, tok);
      ValidStays(log, e, j, tok);
    }
  }

  /** Where another thread stands does not depend on the event, unless that takes the valid token away. */
  lemma OthersStayOk(log: seq<Event>, e: Event, token: Option<nat>, stale: bool, token': Option<nat>, stale': bool,
      pc: Pc, t: nat)
    requires ThreadOk(log, token, stale, pc, t) && !(e.Posted? && e.thread == t)
    requires e.Dropped? || e.RanOut? || (Usable(token, stale) ==> Usable(token', stale'))
    ensures ThreadOk(log + [e], token', stale', pc, t)
  {
    var more := log + [e];
    assert forall k | 0 <= k < |log| :: more[k] == log[k];
    if pc.WantToken? {
      var j: nat :| CheckedSince(log, token, stale, t, j);
      assert more[|log|] == e;
      if Calm(more, j, |more|) { assert Calm(log, j, |log|); }
      assert CheckedSince(more, token', stale', t, j);
    }
    if pc.Posting? {
      var i: nat :| PostedLast(log, t, pc.tok, i);
      assert PostedLast(more, t, pc.tok, i);
    }
  }

  /** State n is state s after event e; threads keep their place in the program. */
  predicate OneEvent(s: State, n: State, e: Event) {
    n.threads == s.threads && n.log == s.log + [e]
  }

  lemma QuietEventIsSound(s: State, n: State, e: Event)
    requires Sound(s) && OneEvent(s, n, e) && (e.Refused? || (e.Ready? && Usable(s.token, s.stale)))
    requires n.token == s.token && n.stale == s.stale && n.issued == s.issued
    ensures Sound(n)
  {
    hide ValidAt, EveryPostIsChecked, ChecksPassOnlyWithAToken, ThreadOk;
    if e.Ready? { UsableIsValid(s.log, s.token, s.stale, s.issued); }
    PostsStayChecked(s.log, e);
    ChecksStayRight(s.log, e);
    forall t | 0 <= t < |n.threads| ensures ThreadOk(n.log, n.token, n.stale, At(n, t), t) {
      OthersStayOk(s.log, e, s.token, s.stale, n.token, n.stale, At(s, t), t);
    }
  }

  lemma TokenEventIsSound(s: State, n: State, e: Event)
    requires Sound(s) && OneEvent(s, n, e) && (e.Dropped? || e.RanOut? || e.LoggedIn?)
    requires e.LoggedIn? ==> e.tok == s.issued && n.token == Some(e.tok) && !n.stale && n.issued == s.issued + 1
    requires e.Dropped? ==> s.token == Some(e.tok) && n.token == None && n.issued == s.issued
    requires e.RanOut? ==> s.token == Some(e.tok) && n.token == s.token && n.stale && n.issued == s.issued
    ensures Sound(n)
  {
    hide ValidAt, EveryPostIsChecked, ChecksPassOnlyWithAToken, ThreadOk;
    PostsStayChecked(s.log, e);
    ChecksStayRight(s.log, e);
    forall t | 0 <= t < |n.threads| ensures ThreadOk(n.log, n.token, n.stale, At(n, t), t) {
      OthersStayOk(s.log, e, s.token, s.stale, n.token, n.stale, At(s, t), t);
    }
  }

  /** Only thread t goes on, to a place where it need not have checked. */
  lemma GoingOnIsSound(s: State, n: State, t: nat)
    requires Sound(s) && t < |s.threads| == |n.threads| && n.threads == s.threads[t := n.threads[t]]
    requires (n.log, n.token, n.stale, n.issued) == (s.log, s.token, s.stale, s.issued)
    requires ThreadOk(s.log, s.token, s.stale, At(n, t), t)
    ensures Sound(n)
  {
    hide LogOk, EveryPostIsChecked, ChecksPassOnlyWithAToken, ThreadOk;
    forall u | 0 <= u < |n.threads| ensures ThreadOk(n.log, n.token, n.stale, At(n, u), u) {
      if u != t { assert At(n, u) == At(s, u); }
    }
  }

  lemma JustChecked(log: seq<Event>, token: Option<nat>, stale: bool, pc: Pc, t: nat)
    requires log != [] && log[|log| - 1] == Ready(t) && Usable(token, stale) && !pc.Posting?
    ensures ThreadOk(log, token, stale, pc, t)
  {
    assert CheckedSince(log, token, stale, t, |log| - 1);
  }

  lemma DropIsSound(s: State, why: Why)
    requires Sound(s)
    ensures Sound(Drop(s, why))
  {
    hide Sound;
    if s.token.Some? { TokenEventIsSound(s, Drop(s, why), Dropped(s.token.value, why)); }
  }

  /** The lock does not matter. */
  lemma SameButLocks(s: State, n: State)
    requires Sound(s) && n.threads == s.threads
    requires (n.log, n.token, n.stale, n.issued) == (s.log, s.token, s.stale, s.issued)
    ensures Sound(n)
  {
    hide LogOk, EveryPostIsChecked, ChecksPassOnlyWithAToken, ThreadOk;
    assert forall t | 0 <= t < |n.threads| :: At(n, t) == At(s, t);
  }

  // ---- each step ----

  predicate NoNeedToCheck(pc: Pc) { !pc.WantToken? && !pc.Posting? }

  lemma MoveIsSound(s: State, n: State, t: nat)
    requires Sound(s) && t < |s.threads| == |n.threads| && n.threads == s.threads[t := n.threads[t]]
    requires (n.log, n.token, n.stale, n.issued) == (s.log, s.token, s.stale, s.issued)
    requires NoNeedToCheck(At(n, t))
    ensures Sound(n)
  {
    hide Sound;
    GoingOnIsSound(s, n, t);
  }

  /** ensureLogin returned to thread t in state m, which has a valid token. */
  lemma AfterLoginIsSound(m: State, t: nat, kind: Kind, attempt: nat)
    requires Sound(m) && t < |m.threads| && Usable(m.token, m.stale)
    ensures Sound(AfterLogin(m, t, kind, attempt))
  {
    hide Sound, ThreadOk;
    var r, n := Logged(m, Ready(t)), AfterLogin(m, t, kind, attempt);
    QuietEventIsSound(m, r, Ready(t));
    JustChecked(n.log, n.token, n.stale, At(n, t), t);
    GoingOnIsSound(r, n, t);
  }

  lemma LoginIsSound(s: State, t: nat)
    requires Enabled(s, LoginOk(t)) && Sound(s)
    ensures Sound(Next(s, LoginOk(t)))
  {
    hide Sound, AfterLogin;
    DropIsSound(s, Expired);
    DropOnlyDrops(s, Expired);
    var d := Drop(s, Expired);
    var m := Issued(d);
    TokenEventIsSound(d, m, LoggedIn(d.issued));
    SameButLocks(m, m.(tokenOwner := None));
    AfterLoginIsSound(m.(tokenOwner := None), t, At(s, t).kind, At(s, t).attempt);
  }

  lemma CheckIsSound(s: State, t: nat)
    requires Enabled(s, EnsureLogin(t)) && Sound(s)
    ensures Sound(Next(s, EnsureLogin(t)))
  {
    hide Sound, AfterLogin;
    if Usable(s.token, s.stale) {
      AfterLoginIsSound(s, t, At(s, t).kind, At(s, t).attempt);
    } else {
      MoveIsSound(s, Next(s, EnsureLogin(t)), t);
    }
  }

  lemma PostIsChecked(log: seq<Event>, token: Option<nat>, stale: bool, issued: nat, t: nat, j: nat)
    requires LogOk(log, token, stale, issued) && CheckedSince(log, token, stale, t, j)
    ensures CheckedBefore(log + [Posted(t, token)], j, |log|)
  {
    var more := log + [Posted(t, token)];
    assert forall k | 0 <= k < |log| :: more[k] == log[k];
    if Calm(more, j, |log|) {
      assert Calm(log, j, |log|);
      UsableIsValid(log, token, stale, issued);
      ValidStays(log, Posted(t, token), |log|, token.value);
    }
  }

  lemma ReadIsSound(s: State, t: nat)
    requires Enabled(s, ReadToken(t)) && Sound(s)
    ensures Sound(Next(s, ReadToken(t)))
  {
    hide EveryPostIsChecked, ChecksPassOnlyWithAToken, ValidAt;
    var n, e := Next(s, ReadToken(t)), Posted(t, s.token);
    assert ThreadOk(s.log, s.token, s.stale, At(s, t), t);
    var j: nat :| CheckedSince(s.log, s.token, s.stale, t, j);
    PostIsChecked(s.log, s.token, s.stale, s.issued, t, j);
    PostsStayChecked(s.log, e);
    ChecksStayRight(s.log, e);
    assert PostedLast(n.log, t, s.token, |s.log|);
    forall u | 0 <= u < |n.threads| ensures ThreadOk(n.log, n.token, n.stale, At(n, u), u) {
      if u != t {
        assert At(n, u) == At(s, u);
        OthersStayOk(s.log, e, s.token, s.stale, n.token, n.stale, At(s, u), u);
      }
    }
  }

  lemma RefusalIsSound(s: State, t: nat)
    requires Enabled(s, PostRefused(t)) && Sound(s)
    ensures Sound(Next(s, PostRefused(t)))
  {
    hide Sound;
    var m := Logged(s, Refused(t, At(s, t).tok));
    QuietEventIsSound(s, m, Refused(t, At(s, t).tok));
    MoveIsSound(m, Next(s, PostRefused(t)), t);
  }

  lemma ClearIsSound(s: State, t: nat)
    requires Enabled(s, Clear(t)) && Sound(s)
    ensures Sound(Next(s, Clear(t)))
  {
    hide Sound, Drop;
    var m := if s.token == At(s, t).tok then Drop(s, Rejected(t, At(s, t).tok)) else s;
    DropIsSound(s, Rejected(t, At(s, t).tok));
    MoveIsSound(m, Next(s, Clear(t)), t);
  }

  lemma LogoutIsSound(s: State, t: nat)
    requires Enabled(s, LogoutDone(t)) && Sound(s)
    ensures Sound(Next(s, LogoutDone(t)))
  {
    hide Sound, Drop;
    DropIsSound(s, LoggedOut);
    MoveIsSound(Drop(s, LoggedOut), Next(s, LogoutDone(t)), t);
  }

  lemma OtherStepIsSound(s: State, step: Step)
    requires Enabled(s, step) && Sound(s) && !step.TokenExpires? && !step.EnsureLogin? && !step.LoginOk?
    requires !step.ReadToken? && !step.PostRefused? && !step.Clear? && !step.LogoutDone?
    ensures Sound(Next(s, step))
  {
    hide Sound;
    MoveIsSound(s, Next(s, step), step.t);
  }

  lemma SoundIsKept(s: State, step: Step)
    requires Enabled(s, step) && Sound(s)
    ensures Sound(Next(s, step))
  {
    hide Sound, Enabled, Next;
    match step
    case EnsureLogin(t) => CheckIsSound(s, t);
    case LoginOk(t) => LoginIsSound(s, t);
    case ReadToken(t) => ReadIsSound(s, t);
    case PostRefused(t) => RefusalIsSound(s, t);
    case Clear(t) => ClearIsSound(s, t);
    case LogoutDone(t) => LogoutIsSound(s, t);
    case TokenExpires => ExpiryIsSound(s);
    case _ => OtherStepIsSound(s, step);
  }

  lemma ExpiryIsSound(s: State)
    requires Enabled(s, TokenExpires) && Sound(s)
    ensures Sound(Next(s, TokenExpires))
  {
    hide Sound;
    ExpiryOnlyMarks(s);
    TokenEventIsSound(s, Next(s, TokenExpires), RanOut(s.token.value));
  }

  lemma {:induction false} SoundThroughout(s: State, steps: seq<Step>)
    requires Sound(s) && Runs(s, steps)
    ensures Sound(After(s, steps))
    decreases |steps|
  {
    hide Sound, Enabled, Next;
    if steps != [] {
      SoundIsKept(s, steps[0]);
      SoundThroughout(Next(s, steps[0]), steps[1..]);
    }
  }

  lemma StartIsSound(n: nat)
    ensures Sound(Start(n))
  {
  }

  // ---- the promises ----

  /** In every interleaving a login is under way only while there is no token or the one held has run out, so no login
      throws a valid token away; and ensureLogin returns to a thread only while there is a token issued and neither
      dropped nor run out, so no login that is needed is skipped. */
  lemma LoginsAreExactlyOnDemand(n: nat, steps: seq<Step>)
    requires Runs(Start(n), steps)
    ensures var s := After(Start(n), steps);
            && (forall t | 0 <= t < |s.threads| && At(s, t).LoggingIn? :: s.token.None? || s.stale)
            && (forall j: nat | j < |s.log| && s.log[j].Ready? :: exists tok: nat :: ValidAt(s.log, j, tok))
  {
    hide Start, Runs, After, EveryPostIsChecked, ValidAt, LocksOk, TokenOk, ReasonsOk, CallsOk, RetriesOk;
    var s := After(Start(n), steps);
    StartIsOk(n);
    InvHoldsThroughout(Start(n), steps);
    StartIsSound(n);
    SoundThroughout(Start(n), steps);
  }

  /** Each request of every run is preceded by a check of its own thread, after that thread's last request, and
      carries a token issued and neither dropped nor run out, unless a token was dropped or ran out after that
      check. */
  lemma RequestsCarryAValidToken(n: nat, steps: seq<Step>)
    requires Runs(Start(n), steps)
    ensures EveryPostIsChecked(After(Start(n), steps).log)
  {
    hide Start, Runs, After, ChecksPassOnlyWithAToken, EveryPostIsChecked;
    StartIsSound(n);
    SoundThroughout(Start(n), steps);
  }

  /** A call that has returned posted a second time exactly if its first request was refused and the login after it did
      not fail; and a second request under way comes after a second check of its own, and carries a valid token issued
      after the refused one, unless a token was dropped or ran out after that check. */
  lemma RefusedCallsTryOnceMore(n: nat, steps: seq<Step>)
    requires Runs(Start(n), steps)
    ensures var s := After(Start(n), steps);
            forall t | 0 <= t < |s.threads| ::
              var th := s.threads[t];
              && (th.pc.Idle? ==> th.posts <= 2 && (th.posts == 2 <==> th.refused && !th.denied))
              && (th.pc.Posting? && th.pc.attempt == 1 ==> th.refused && SentAnew(s.log, t, th.pc.tok, th.first))
  {
    hide Start, Runs, After, LocksOk, TokenOk, OnDemand, ReasonsOk, RetriesOk, SentAnew, LogOk,
        ChecksPassOnlyWithAToken;
    var s := After(Start(n), steps);
    StartIsOk(n);
    InvHoldsThroughout(Start(n), steps);
    StartIsSound(n);
    SoundThroughout(Start(n), steps);
    RetryUsesANewerToken(n, steps);
    forall t | 0 <= t < |s.threads| && At(s, t).Posting? && At(s, t).attempt == 1
      ensures s.threads[t].refused && SentAnew(s.log, t, At(s, t).tok, s.threads[t].first)
    {
      assert ThreadOk(s.log, s.token, s.stale, At(s, t), t);
      LastPostIsSentAnew(s.log, t, At(s, t).tok, s.threads[t].first);
    }
    assert forall t | 0 <= t < |s.threads| :: CallOk(s.threads[t]);
  }

  /** The thread's last request came after a check of its own since the one before, and unless a token was dropped
      or ran out in between it carries a token, issued after `first`. */
  ghost predicate SentAnew(log: seq<Event>, t: nat, tok: Option<nat>, first: Option<nat>) {
    exists j: nat, i: nat ::
      PostedLast(log, t, tok, i) && CheckedBefore(log, j, i) && NewerIfCalm(log, j, i, tok, first)
  }

  predicate NewerIfCalm(log: seq<Event>, j: nat, i: nat, tok: Option<nat>, first: Option<nat>) {
    Calm(log, j, i) ==> tok.Some? && (first.Some? ==> tok.value > first.value)
  }

  lemma LastPostIsSentAnew(log: seq<Event>, t: nat, tok: Option<nat>, first: Option<nat>)
    requires EveryPostIsChecked(log) && (exists i: nat :: PostedLast(log, t, tok, i))
    requires first.Some? && tok.Some? ==> tok.value > first.value
    ensures SentAnew(log, t, tok, first)
  {
    hide ValidAt;
    var i: nat :| PostedLast(log, t, tok, i);
    var j: nat :| CheckedBefore(log, j, i);
    assert NewerIfCalm(log, j, i, tok, first);
  }
}
