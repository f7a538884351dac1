/**
What the tile policy promises a waiting camera over whole runs: it keeps its place and the moment
its activity began, of two alike the one queued first goes first, and it is held back only when
the log of started streams shows its NVR at the cap.
 */
module WaitingLaws {
  import opened Sequences
  import opened TilePolicy
  import opened TickProperties
  import opened RunProperties
  import opened TileLaws

  // ---- a waiting camera keeps its place ----

  /** f is e after further detections of its camera: only the kind may have risen. */
  predicate SameWait(e: Queued, f: Queued) {
    && (f.row, f.number, f.trigger) == (e.row, e.number, e.trigger)
    && (f.kind == e.kind || Outranks(f.kind, e.kind))
  }

  /** Every entry of q waits in s already, or was queued later under a number that s had not given out. */
  predicate KeepsPlaces(s: Policy, q: seq<Queued>) {
    forall f | f in q :: (exists e :: e in s.queue && SameWait(e, f)) || f.number >= s.nextNumber
  }

  lemma {:induction false} ServeAllKeepsOnlyWaiting(c: Config, x: Pass, order: seq<Queued>, now: int, e: Queued)
    requires e in ServeAll(c, x, order, now).queue
    ensures e in x.queue
    decreases |order|
  {
    if order != [] {
      ServeAllKeepsOnlyWaiting(c, Serve(c, x, order[0], now), order[1..], now, e);
      WithoutDropsOnlyThatEntry(x.queue, order[0].number, e);
    }
  }

  lemma SameWaitOfItself(e: Queued)
    ensures SameWait(e, e)
  {
  }

  lemma CallKeepsPlaces(c: Config, s: Policy, op: Op)
    requires PolicyOk(s)
    ensures KeepsPlaces(s, Apply(c, s, op).queue)
    ensures Apply(c, s, op).nextNumber >= s.nextNumber
  {
    hide Serve, Ordered, TileShowing, PriorityOf, Outranks, PolicyOk;
    var q := Apply(c, s, op).queue;
    forall f | f in q ensures (exists e :: e in s.queue && SameWait(e, f)) || f.number >= s.nextNumber {
      match op
      case OpTick(now) =>
        ServeAllKeepsOnlyWaiting(c, FirstPass(s, now), Ordered(s.queue), now, f);
        SameWaitOfItself(f);
      case OpDetect(row, kind, now, trigger) =>
        var k := WaitingAmong(s.queue, row, |s.queue|);
        if f in s.queue { SameWaitOfItself(f); }
        else if k >= 0 && f == q[k] {
          OutranksByPriority(kind, s.queue[k].kind);
          assert SameWait(s.queue[k], f);
        }
      case _ => SameWaitOfItself(f);
    }
  }

  lemma OutranksMore(a: Kind, b: Kind, d: Kind)
    requires (b == a || Outranks(b, a)) && (d == b || Outranks(d, b))
    ensures d == a || Outranks(d, a)
  {
  }

  lemma PlacesSince(s: Policy, m: Policy, q: seq<Queued>)
    requires KeepsPlaces(s, m.queue) && m.nextNumber >= s.nextNumber && KeepsPlaces(m, q)
    ensures KeepsPlaces(s, q)
  {
    hide Outranks;
    forall f | f in q ensures (exists e :: e in s.queue && SameWait(e, f)) || f.number >= s.nextNumber {
      if f.number < s.nextNumber {
        var g :| g in m.queue && SameWait(g, f);
        var e :| e in s.queue && SameWait(e, g);
        OutranksMore(e.kind, g.kind, f.kind);
        assert SameWait(e, f);
      }
    }
  }

  /** After any calls, every waiting entry either waited before, with the same place, beginning and at least its
      kind, or was queued since, behind all that waited. */
  lemma {:induction false} WaitingKeepsItsPlace(c: Config, s: Policy, ops: seq<Op>)
    requires PolicyOk(s)
    ensures KeepsPlaces(s, Run(c, s, ops).queue)
    ensures Run(c, s, ops).nextNumber >= s.nextNumber
    decreases |ops|
  {
    hide Apply, PolicyOk, KeepsPlaces, Outranks;
    if ops == [] {
      assert KeepsPlaces(s, s.queue) by { PlacesOfItself(s); }
    } else {
      CallKeepsPlaces(c, s, ops[0]);
      PolicyOkIsKept(c, s, ops[0]);
      WaitingKeepsItsPlace(c, Apply(c, s, ops[0]), ops[1..]);
      PlacesSince(s, Apply(c, s, ops[0]), Run(c, s, ops).queue);
    }
  }

  lemma PlacesOfItself(s: Policy)
    ensures KeepsPlaces(s, s.queue)
  {
    forall f | f in s.queue ensures exists e :: e in s.queue && SameWait(e, f) { SameWaitOfItself(f); }
  }

  // ---- first come, first served ----

  lemma StandsInFront(q: seq<Queued>, e: Queued, f: Queued)
    requires QueueOk(q) && e in q && f in q && Ahead(e, f)
    ensures exists j, k :: 0 <= j < k < |q| && Ordered(q)[j] == e && Ordered(q)[k] == f
  {
    hide Ordered;
    OrderedIsTheQueueSorted(q);
    SameEntries(q, e);
    SameEntries(q, f);
    var j :| 0 <= j < |q| && Ordered(q)[j] == e;
    var k :| 0 <= k < |q| && Ordered(q)[k] == f;
    assert j < k;
  }

  /** A number given out before is lower than that of a camera that did not wait then. */
  lemma EarlierIsLower(s: Policy, q: seq<Queued>, e: Queued, f: Queued)
    requires PolicyOk(s) && KeepsPlaces(s, q) && f in q
    requires (exists x :: x in s.queue && x.number == e.number) && (forall x | x in s.queue :: x.row != f.row)
    ensures e.number < f.number
  {
    hide Outranks;
    var x :| x in s.queue && x.number == e.number;
    var i :| 0 <= i < |s.queue| && s.queue[i] == x;
  }

  /** Of two cameras that wait for activity of one class, the one that waited already when the other did not is
      served first: it stands in front in the serving order, and the next tick gives the other a tile and leaves it
      waiting only if they are on different NVRs and its own has no start left. */
  lemma FirstQueuedGoesFirst(c: Config, s: Policy, ops: seq<Op>, now: int, e: Queued, f: Queued)
    requires PolicyOk(s) && e in Run(c, s, ops).queue && f in Run(c, s, ops).queue
    requires (exists x :: x in s.queue && x.number == e.number) && (forall x | x in s.queue :: x.row != f.row)
    requires (e.kind == Motion) == (f.kind == Motion)
    ensures exists p, q :: 0 <= p < q < |Run(c, s, ops).queue|
                           && Ordered(Run(c, s, ops).queue)[p] == e && Ordered(Run(c, s, ops).queue)[q] == f
    ensures var (r, out) := Tick(c, Run(c, s, ops), now);
            e in r.queue && (exists ch :: ch in out && ch.row == f.row) ==>
              c.hostOf(e.row) != c.hostOf(f.row) && BudgetSpent(c, r.starts, c.hostOf(e.row), now)
  {
    hide Run, Tick, Ordered, BudgetSpent, KeepsPlaces, TilesOk, QueueOk;
    var w := Run(c, s, ops);
    RunKeepsPolicyOk(c, s, ops);
    WaitingKeepsItsPlace(c, s, ops);
    EarlierIsLower(s, w.queue, e, f);
    StandsInFront(w.queue, e, f);
    var (r, out) := Tick(c, w, now);
    if e in r.queue && exists ch :: ch in out && ch.row == f.row {
      var ch :| ch in out && ch.row == f.row;
      var m :| 0 <= m < |out| && out[m] == ch;
      NoOvertaking(c, w, now, e, f, m);
    }
  }

  // ---- held back only at the cap ----

  /** Times in order, none after `limit`. */
  predicate InOrderUpTo(times: seq<int>, limit: int) {
    forall j, k | 0 <= j <= k < |times| :: times[j] <= times[k] <= limit
  }

  lemma {:induction false} RecentOnes(times: seq<int>, lo: int, hi: int)
    requires InOrderUpTo(times, hi)
    ensures CountIn(times, lo, hi) == |Pruned(times, lo)|
  {
    if times != [] {
      RecentOnes(times[1..], lo, hi);
      if times[0] > lo { AllRecent(times, lo, hi); }
    }
  }

  lemma {:induction false} AllRecent(times: seq<int>, lo: int, hi: int)
    requires forall k | 0 <= k < |times| :: lo < times[k] <= hi
    ensures CountIn(times, lo, hi) == |times|
  {
    if times != [] { AllRecent(times[1..], lo, hi); }
  }

  lemma PrunedInOrder(times: seq<int>, edge: int, limit: int)
    requires InOrderUpTo(times, limit)
    ensures InOrderUpTo(Pruned(times, edge), limit)
  {
    PrunedIsAnEnd(times, edge);
  }

  lemma ServeKeepsOrder(c: Config, x: Pass, e: Queued, now: int, host: int)
    requires InOrderUpTo(StartsOf(x.starts, host), now)
    ensures InOrderUpTo(StartsOf(Serve(c, x, e, now).starts, host), now)
  {
    hide Serve, StartsOf, Pruned;
    ServeTouches(c, x, e, now, host);
    PrunedInOrder(StartsOf(x.starts, host), now - c.startWindowMs, now);
  }

  lemma CallKeepsOrder(c: Config, s: Policy, op: Op, clock: int, host: int)
    requires InOrderUpTo(StartsOf(s.starts, host), clock) && clock <= After(clock, op)
    ensures InOrderUpTo(StartsOf(Apply(c, s, op).starts, host), After(clock, op))
  {
    hide Serve, Ordered, TileShowing, WaitingAmong, StartsOf;
    if op.OpTick? {
      forall y: Pass, e | InOrderUpTo(StartsOf(y.starts, host), op.now)
        ensures InOrderUpTo(StartsOf(Serve(c, y, e, op.now).starts, host), op.now)
      {
        ServeKeepsOrder(c, y, e, op.now, host);
      }
      var inv := (y: Pass) => InOrderUpTo(StartsOf(y.starts, host), op.now);
      ServeAllKeeps(c, inv, FirstPass(s, op.now), Ordered(s.queue), op.now);
    }
  }

  /** The kept list is the recent part of the whole history, in order. */
  ghost predicate InBooks(c: Config, times: seq<int>, s: Policy, clock: int, host: int) {
    Budgeted(c, times, StartsOf(s.starts, host), clock) && InOrderUpTo(StartsOf(s.starts, host), clock)
  }

  lemma {:induction false} BooksThroughout(c: Config, before: seq<int>, s: Policy, ops: seq<Op>, clock: int, host: int)
    requires InBooks(c, before, s, clock, host) && Monotone(clock, ops)
    ensures InBooks(c, before + StartTimes(c, Log(c, s, ops), host), Run(c, s, ops), Clock(clock, ops), host)
    decreases |ops|
  {
    hide Apply, Said, Budgeted, InOrderUpTo, StartsOf;
    if ops == [] {
      assert before + [] == before;
    } else {
      var s' := Apply(c, s, ops[0]);
      var told := StartTimes(c, Said(c, s, ops[0]), host);
      BudgetIsKept(c, before, s, ops[0], clock, host);
      CallKeepsOrder(c, s, ops[0], clock, host);
      BooksThroughout(c, before + told, s', ops[1..], After(clock, ops[0]), host);
      StartTimesSplits(c, Said(c, s, ops[0]), Log(c, s', ops[1..]), host);
      Associate(before, told, StartTimes(c, Log(c, s', ops[1..]), host));
    }
  }

  /** The budget is spent exactly if the history shows the cap reached in the window that ends now. */
  lemma SpentByTheBooks(c: Config, times: seq<int>, s: Policy, now: int, host: int)
    requires InBooks(c, times, s, now, host)
    ensures BudgetSpent(c, s.starts, host, now) <==> CountIn(times, now - c.startWindowMs, now) >= c.maxStartsPerHost
  {
    hide WithinBudget, StartsOf, Pruned, CountIn;
    var kept, lo := StartsOf(s.starts, host), now - c.startWindowMs;
    var past :| times == past + kept && AllUpTo(past, lo);
    CountInSplits(past, kept, lo, now);
    CountInBounds(past, lo, now);
    RecentOnes(kept, lo, now);
  }

  lemma {:induction false} RunSplits(c: Config, s: Policy, a: seq<Op>, b: seq<Op>)
    ensures Run(c, s, a + b) == Run(c, Run(c, s, a), b)
    ensures Log(c, s, a + b) == Log(c, s, a) + Log(c, Run(c, s, a), b)
    decreases |a|
  {
    hide Apply, Said;
    if a == [] {
      assert a + b == b && [] + Log(c, s, b) == Log(c, s, b);
    } else {
      assert (a + b)[0] == a[0] && (a + b)[1..] == a[1..] + b;
      RunSplits(c, Apply(c, s, a[0]), a[1..], b);
    }
  }

  lemma {:induction false} OneMoreTick(clock: int, ops: seq<Op>, now: int)
    requires Monotone(clock, ops) && now >= Clock(clock, ops)
    ensures Monotone(clock, ops + [OpTick(now)])
    ensures Clock(clock, ops + [OpTick(now)]) == now
    decreases |ops|
  {
    if ops == [] {
      assert ops + [OpTick(now)] == [OpTick(now)] && [OpTick(now)][1..] == [];
    } else {
      assert (ops + [OpTick(now)])[0] == ops[0] && (ops + [OpTick(now)])[1..] == ops[1..] + [OpTick(now)];
      OneMoreTick(After(clock, ops[0]), ops[1..], now);
    }
  }

  /** Nobody waits for nothing: whatever happened since the policy was new or reset, if a tick leaves an entry waiting
      although an unpinned tile is idle, or for AI activity is held for motion and was shown its minimum time, then in
      the window that ends with the tick its NVR was asked for as many streams as the cap allows. */
  lemma HeldBackOnlyAtTheCap(c: Config, s: Policy, ops: seq<Op>, clock: int, now: int, i: nat, e: Queued)
    requires PolicyOk(s) && s.starts == map[] && Monotone(clock, ops) && now >= Clock(clock, ops)
    requires var before, after := Run(c, s, ops), Run(c, s, ops + [OpTick(now)]);
             && e in before.queue && e in after.queue && i < |after.tiles| && !after.tiles[i].pinned
             && var t := after.tiles[i];
             (!t.active || (e.kind != Motion && t.kind == Motion && now - t.shownSince >= c.minShownMs))
    ensures var asked := StartTimes(c, Log(c, s, ops + [OpTick(now)]), c.hostOf(e.row));
            CountIn(asked, now - c.startWindowMs, now) >= c.maxStartsPerHost
  {
    hide Run, Log, Tick, StartTimes, CountIn, Budgeted, BudgetSpent, InOrderUpTo, PolicyOk, Monotone, Clock;
    var host, w := c.hostOf(e.row), Run(c, s, ops);
    RunSplits(c, s, ops, [OpTick(now)]);
    OneTick(c, w, now);
    RunKeepsPolicyOk(c, s, ops);
    NoTileIdlesWithoutReason(c, w, now, i, e);
    OneMoreTick(clock, ops, now);
    NewBooks(c, s, clock, host);
    BooksThroughout(c, [], s, ops + [OpTick(now)], clock, host);
    var asked := StartTimes(c, Log(c, s, ops + [OpTick(now)]), host);
    assert [] + asked == asked;
    SpentByTheBooks(c, asked, Tick(c, w, now).0, now, host);
  }

  lemma OneTick(c: Config, s: Policy, now: int)
    ensures Run(c, s, [OpTick(now)]) == Tick(c, s, now).0
  {
    assert [OpTick(now)][1..] == [];
  }

  lemma NewBooks(c: Config, s: Policy, clock: int, host: int)
    requires s.starts == map[]
    ensures InBooks(c, [], s, clock, host)
  {
    NoHistory(c, clock);
  }
}
