/**
What the tile policy guarantees over whole runs of detections, ticks and settings under a clock
that never goes back: no flicker, held cameras stay, the start budget holds in every window, no
waiting camera is forgotten and a quiet grid serves its queue.
 */
module RunProperties {
  import opened Arithmetic
  import opened Sequences
  import opened TilePolicy
  import opened TickProperties

  datatype Op =
    | OpDetect(row: int, kind: Kind, now: int, trigger: int)
    | OpTick(now: int)
    | OpBaseline(rows: seq<int>)
    | OpPin(tile: int, pinned: bool)
    | OpExclude(row: int, excluded: bool)
    | OpTrack(kinds: set<Kind>)

  /** A change and the moment of the tick that asked for it. */
  datatype Stamped = Stamped(at: int, change: Change)

  function Stamp(at: int, out: seq<Change>): (r: seq<Stamped>)
    ensures |r| == |out|
    ensures forall i | 0 <= i < |out| :: r[i] == Stamped(at, out[i])
  {
    seq(|out|, i requires 0 <= i < |out| => Stamped(at, out[i]))
  }

  function Apply(c: Config, s: Policy, op: Op): Policy {
    match op
    case OpDetect(row, kind, now, trigger) => Detect(c, s, row, kind, now, trigger)
    case OpTick(now) => Tick(c, s, now).0
    case OpBaseline(rows) => SetBaseline(s, rows)
    case OpPin(tile, pinned) => SetPinned(s, tile, pinned)
    case OpExclude(row, excluded) => SetExcluded(s, row, excluded)
    case OpTrack(kinds) => SetTracked(s, kinds)
  }

  function Said(c: Config, s: Policy, op: Op): seq<Stamped> {
    if op.OpTick? then Stamp(op.now, Tick(c, s, op.now).1) else []
  }

  function Run(c: Config, s: Policy, ops: seq<Op>): Policy
    decreases |ops|
  {
    if ops == [] then s else Run(c, Apply(c, s, ops[0]), ops[1..])
  }

  function Log(c: Config, s: Policy, ops: seq<Op>): seq<Stamped>
    decreases |ops|
  {
    if ops == [] then [] else Said(c, s, ops[0]) + Log(c, Apply(c, s, ops[0]), ops[1..])
  }

  predicate Timed(op: Op) { op.OpDetect? || op.OpTick? }

  function After(clock: int, op: Op): int { if Timed(op) then op.now else clock }

  function Clock(clock: int, ops: seq<Op>): int
    decreases |ops|
  {
    if ops == [] then clock else Clock(After(clock, ops[0]), ops[1..])
  }

  /** Times never decrease, starting from `clock`. */
  predicate Monotone(clock: int, ops: seq<Op>)
    decreases |ops|
  {
    ops == [] || (After(clock, ops[0]) >= clock && Monotone(After(clock, ops[0]), ops[1..]))
  }

  /** The number of tiles stays n. */
  predicate SameGrid(n: nat, ops: seq<Op>) {
    forall i | 0 <= i < |ops| && ops[i].OpBaseline? :: |ops[i].rows| == n
  }

  // ---- every call keeps the state well formed ----

  predicate PassOk(x: Pass, n: int) {
    && QueueOk(x.queue) && TilesOk(x.tiles)
    && forall i | 0 <= i < |x.queue| :: x.queue[i].number < n
  }

  lemma ServeKeepsOk(c: Config, x: Pass, e: Queued, now: int, n: int)
    requires PassOk(x, n) && e.kind != None
    ensures PassOk(Serve(c, x, e, now), n)
  {
    hide PickTile, TileShowing, Recent;
    WithoutKeepsQueueOk(x.queue, e.number);
    var y := Serve(c, x, e, now);
    forall i | 0 <= i < |y.queue| ensures y.queue[i].number < n {
      WithoutDropsOnlyThatEntry(x.queue, e.number, y.queue[i]);
      assert y.queue[i] in x.queue;
    }
  }

  lemma DetectKeepsPolicyOk(c: Config, s: Policy, row: int, kind: Kind, now: int, trigger: int)
    requires PolicyOk(s)
    ensures PolicyOk(Detect(c, s, row, kind, now, trigger))
  {
    hide TileShowing;
  }

  lemma PolicyOkIsKept(c: Config, s: Policy, op: Op)
    requires PolicyOk(s)
    ensures PolicyOk(Apply(c, s, op))
  {
    hide Ordered, Detect, Serve;
    match op
    case OpDetect(row, kind, now, trigger) => DetectKeepsPolicyOk(c, s, row, kind, now, trigger);
    case OpTick(now) =>
      OrderedKeepsQueueOk(s.queue);
      forall y, e | PassOk(y, s.nextNumber) && e in Ordered(s.queue) ensures PassOk(Serve(c, y, e, now), s.nextNumber) {
        ServeKeepsOk(c, y, e, now, s.nextNumber);
      }
      ServeAllKeeps(c, y => PassOk(y, s.nextNumber), FirstPass(s, now), Ordered(s.queue), now);
    case _ =>
  }

  /** From the empty policy on, waiting cameras are pairwise distinct after any calls whatever. */
  lemma {:induction false} RunKeepsPolicyOk(c: Config, s: Policy, ops: seq<Op>)
    requires PolicyOk(s)
    ensures PolicyOk(Run(c, s, ops))
    decreases |ops|
  {
    hide Apply, PolicyOk;
    if ops != [] {
      PolicyOkIsKept(c, s, ops[0]);
      RunKeepsPolicyOk(c, Apply(c, s, ops[0]), ops[1..]);
    }
  }

  // ---- one camera, one tile ----

  lemma NoNewTwinsSince(base: seq<int>, middle: seq<Tile>, tiles: seq<Tile>)
    requires NoNewTwins(base, middle) && NoNewTwins(Shown(middle), tiles)
    ensures NoNewTwins(base, tiles)
  {
  }

  lemma CallMakesNoTwins(c: Config, s: Policy, op: Op)
    requires !op.OpBaseline?
    ensures NoNewTwins(Shown(s.tiles), Apply(c, s, op).tiles)
  {
    hide Tick, TileShowing;
    if op.OpTick? { TickMakesNoTwins(c, s, op.now); }
  }

  /** While the user leaves the arrangement alone, no camera is ever put on a second tile: two tiles that show the same
      at the end (two empty panes, or a camera the user arranged twice) showed just that from the start. */
  lemma {:induction false} NoCameraIsOnTwoTiles(c: Config, s: Policy, ops: seq<Op>)
    requires forall k | 0 <= k < |ops| :: !ops[k].OpBaseline?
    ensures NoNewTwins(Shown(s.tiles), Run(c, s, ops).tiles)
    decreases |ops|
  {
    hide Apply, NoNewTwins;
    if ops == [] {
      NothingNew(s.tiles);
    } else {
      CallMakesNoTwins(c, s, ops[0]);
      assert forall k | 0 <= k < |ops| - 1 :: ops[1..][k] == ops[k + 1];
      NoCameraIsOnTwoTiles(c, Apply(c, s, ops[0]), ops[1..]);
      NoNewTwinsSince(Shown(s.tiles), Apply(c, s, ops[0]).tiles, Run(c, s, ops).tiles);
    }
  }

  // ---- the user's arrangement ----

  /** The tile shows the user's own camera for it. */
  predicate AtHome(t: Tile) { t.shown == t.baseline }

  /** The user gives tile i another camera while it is held. */
  predicate RebasedWhileHeld(s: Policy, op: Op, i: nat) {
    && op.OpBaseline? && i < |s.tiles| && i < |op.rows|
    && s.tiles[i].active && op.rows[i] != s.tiles[i].baseline
  }

  predicate NeverRebasedWhileHeld(c: Config, s: Policy, ops: seq<Op>, i: nat)
    decreases |ops|
  {
    ops == [] || (!RebasedWhileHeld(s, ops[0], i) && NeverRebasedWhileHeld(c, Apply(c, s, ops[0]), ops[1..], i))
  }

  predicate AtHomeThroughout(c: Config, s: Policy, ops: seq<Op>, i: nat)
    decreases |ops|
  {
    i < |s.tiles| && AtHome(s.tiles[i]) && (ops == [] || AtHomeThroughout(c, Apply(c, s, ops[0]), ops[1..], i))
  }

  predicate NoneFor(log: seq<Stamped>, i: nat) {
    forall ch | ch in log :: ch.change.tile != i
  }

  /** One call that changes nothing on tile i: it stays at home unless it is rebased while held. */
  lemma HomeAfterOneCall(c: Config, s: Policy, op: Op, i: nat)
    requires i < |s.tiles| && SameGrid(|s.tiles|, [op]) && AtHome(s.tiles[i]) && NoneFor(Said(c, s, op), i)
    ensures i < |Apply(c, s, op).tiles|
    ensures AtHome(Apply(c, s, op).tiles[i]) <==> !RebasedWhileHeld(s, op, i)
  {
    hide Tick, TileShowing;
    GridIsKept(c, s, op);
    assert [op][0] == op;
    if op.OpTick? {
      assert forall m | 0 <= m < |Said(c, s, op)| :: Said(c, s, op)[m].change == Tick(c, s, op.now).1[m];
      UnnamedTileKeepsItsCamera(c, s, op.now, i);
    }
  }

  /** A tile that no activity takes shows the user's camera all along, through detections, holds, releases and new
      arrangements, exactly if the user never gives it another camera while it is held. */
  lemma {:induction false} UntakenTileShowsTheArrangement(c: Config, s: Policy, ops: seq<Op>, i: nat)
    requires i < |s.tiles| && SameGrid(|s.tiles|, ops) && AtHome(s.tiles[i]) && NoneFor(Log(c, s, ops), i)
    ensures AtHomeThroughout(c, s, ops, i) <==> NeverRebasedWhileHeld(c, s, ops, i)
    decreases |ops|
  {
    hide Apply, Said, RebasedWhileHeld;
    if ops != [] {
      var s' := Apply(c, s, ops[0]);
      RestOfGrid(|s.tiles|, ops);
      GridIsKept(c, s, ops[0]);
      HomeAfterOneCall(c, s, ops[0], i);
      if AtHome(s'.tiles[i]) {
        UntakenTileShowsTheArrangement(c, s', ops[1..], i);
      }
    }
  }

  /** The input: rebased while held, a tile keeps its camera when it is released and does not return to the baseline. */
  lemma ReleasedTileNeedNotReturn(c: Config)
    ensures var ops := [OpBaseline([1]), OpDetect(1, Person, 0, -1), OpBaseline([2]), OpTick(Max(0, c.holdMs))];
            var r := Run(c, EMPTY, ops);
            && |r.tiles| == 1
            && (r.tiles[0].active, r.tiles[0].shown, r.tiles[0].baseline) == (false, 1, 2)
            && Log(c, EMPTY, ops) == []
  {
    var end := Max(0, c.holdMs);
    var s1 := Arranged();
    var s2 := DetectedAlone(c, s1);
    var s3 := Apply(c, s2, OpBaseline([2]));
    assert s3.tiles == [s2.tiles[0].(baseline := 2)];
    var last, later := [OpBaseline([2]), OpTick(end)], [OpDetect(1, Person, 0, -1), OpBaseline([2]), OpTick(end)];
    FirstOp(c, EMPTY, OpBaseline([1]), later);
    FirstOp(c, s1, OpDetect(1, Person, 0, -1), last);
    FirstOp(c, s2, OpBaseline([2]), [OpTick(end)]);
    FirstOp(c, s3, OpTick(end), []);
    assert [OpBaseline([1])] + later == [OpBaseline([1]), OpDetect(1, Person, 0, -1), OpBaseline([2]), OpTick(end)];
    assert [OpDetect(1, Person, 0, -1)] + last == later && [OpBaseline([2])] + [OpTick(end)] == last
        && [OpTick(end)] + [] == [OpTick(end)];
  }

  function Arranged(): (s: Policy)
    ensures s == SetBaseline(EMPTY, [1])
  {
    var s := EMPTY.(tiles := [FRESH_TILE.(baseline := 1, shown := 1)]);
    assert s.tiles == SetBaseline(EMPTY, [1]).tiles;
    s
  }

  lemma DetectedAlone(c: Config, s: Policy) returns (r: Policy)
    requires s == Arranged()
    ensures r == Detect(c, s, 1, Person, 0, -1) && |r.tiles| == 1
    ensures r.queue == []
    ensures r.tiles[0].active && r.tiles[0].shown == 1
    ensures r.tiles[0].baseline == 1 && !r.tiles[0].pinned
    ensures r.tiles[0].holdUntil == Max(0, c.holdMs)
  {
    assert s.tiles[TileShowing(s.tiles, 1)].shown == 1 by { assert s.tiles[0].shown == 1; }
    r := Detect(c, s, 1, Person, 0, -1);
  }

  lemma FirstOp(c: Config, s: Policy, op: Op, rest: seq<Op>)
    ensures Run(c, s, [op] + rest) == Run(c, Apply(c, s, op), rest)
    ensures Log(c, s, [op] + rest) == Said(c, s, op) + Log(c, Apply(c, s, op), rest)
  {
    assert ([op] + rest)[0] == op && ([op] + rest)[1..] == rest;
  }

  /** Leaving Activity mode restores the user's arrangement and forgets queue, activity and start times. */
  lemma ResetRestoresTheArrangement(s: Policy)
    ensures var r := Reset(s);
            && r.queue == [] && r.starts == map[] && PolicyOk(r)
            && |r.tiles| == |s.tiles|
            && forall i | 0 <= i < |r.tiles| :: r.tiles[i].shown == s.tiles[i].baseline && !r.tiles[i].active
  {
  }

  // ---- no flicker ----

  /** What is known at `clock` about a tile that last changed at `since`. */
  predicate Settled(c: Config, t: Tile, since: int, clock: int) {
    if t.active then t.shownSince >= since && t.holdUntil >= since + c.holdMs
    else clock >= since + c.holdMs
  }

  /** Changes made this long after the last one to tile i come late enough. */
  predicate LateEnough(c: Config, out: seq<Change>, i: nat, gap: int) {
    (exists m :: 0 <= m < |out| && out[m].tile == i) ==> gap >= Min(c.holdMs, c.minShownMs)
  }

  predicate PassSettled(c: Config, x: Pass, now: int, i: nat, since: int) {
    && i < |x.tiles| && Settled(c, x.tiles[i], since, now)
    && LateEnough(c, x.out, i, now - since)
  }

  lemma ServeKeepsSettled(c: Config, x: Pass, e: Queued, now: int, i: nat, since: int)
    requires since <= now && PassSettled(c, x, now, i, since)
    ensures PassSettled(c, Serve(c, x, e, now), now, i, since)
  {
    hide PickTile, TileShowing, Recent, Without;
    var y := Serve(c, x, e, now);
    if y.out != x.out {
      assert forall m | 0 <= m < |x.out| :: y.out[m] == x.out[m];
    }
  }

  /** One call: a settled tile stays settled, and a change to it comes late enough. */
  lemma SettledIsKept(c: Config, s: Policy, op: Op, clock: int, i: nat, since: int)
    requires i < |s.tiles| && SameGrid(|s.tiles|, [op]) && since <= clock <= After(clock, op)
    requires Settled(c, s.tiles[i], since, clock)
    ensures |Apply(c, s, op).tiles| == |s.tiles|
    ensures Settled(c, Apply(c, s, op).tiles[i], since, After(clock, op))
    ensures forall m | 0 <= m < |Said(c, s, op)| && Said(c, s, op)[m].change.tile == i ::
              Said(c, s, op)[m].at - since >= Min(c.holdMs, c.minShownMs)
  {
    hide Ordered, TileShowing, Serve;
    GridIsKept(c, s, op);
    match op
    case OpTick(now) =>
      forall y, e | PassSettled(c, y, now, i, since) ensures PassSettled(c, Serve(c, y, e, now), now, i, since) {
        ServeKeepsSettled(c, y, e, now, i, since);
      }
      ServeAllKeeps(c, y => PassSettled(c, y, now, i, since), FirstPass(s, now), Ordered(s.queue), now);
    case _ =>
  }

  lemma {:induction false} SettledThroughout(c: Config, s: Policy, ops: seq<Op>, clock: int, i: nat, since: int)
    requires i < |s.tiles| && SameGrid(|s.tiles|, ops) && Monotone(clock, ops) && since <= clock
    requires Settled(c, s.tiles[i], since, clock)
    ensures forall m | 0 <= m < |Log(c, s, ops)| && Log(c, s, ops)[m].change.tile == i ::
              Log(c, s, ops)[m].at - since >= Min(c.holdMs, c.minShownMs)
    decreases |ops|
  {
    hide Apply, Settled, Said;
    if ops != [] {
      RestOfGrid(|s.tiles|, ops);
      SettledIsKept(c, s, ops[0], clock, i, since);
      SettledThroughout(c, Apply(c, s, ops[0]), ops[1..], After(clock, ops[0]), i, since);
    }
  }

  lemma RestOfGrid(n: nat, ops: seq<Op>)
    requires ops != [] && SameGrid(n, ops)
    ensures SameGrid(n, [ops[0]]) && SameGrid(n, ops[1..])
  {
    assert forall k | 0 <= k < |ops| - 1 :: ops[1..][k] == ops[k + 1];
  }

  lemma GridIsKept(c: Config, s: Policy, op: Op)
    requires SameGrid(|s.tiles|, [op])
    ensures |Apply(c, s, op).tiles| == |s.tiles|
  {
    assert [op][0] == op;
  }

  predicate ChangedJustNow(c: Config, x: Pass, now: int) {
    forall m | 0 <= m < |x.out| ::
      x.out[m].tile < |x.tiles| && x.tiles[x.out[m].tile].active && Settled(c, x.tiles[x.out[m].tile], now, now)
  }

  lemma ServeSettlesChanged(c: Config, x: Pass, e: Queued, now: int)
    requires ChangedJustNow(c, x, now)
    ensures ChangedJustNow(c, Serve(c, x, e, now), now)
  {
    hide PickTile, TileShowing, Recent, Without;
    var y := Serve(c, x, e, now);
    if y.out != x.out {
      assert forall m | 0 <= m < |x.out| :: y.out[m] == x.out[m];
    }
  }

  lemma FirstChangesSettle(c: Config, s: Policy, now: int, ops: seq<Op>, i: nat)
    requires PolicyOk(s) && SameGrid(|s.tiles|, ops) && Monotone(now, ops) && i < |Tick(c, s, now).1|
    ensures var (s', out) := Tick(c, s, now);
            forall m | 0 <= m < |Log(c, s', ops)| && Log(c, s', ops)[m].change.tile == out[i].tile ::
              Log(c, s', ops)[m].at - now >= Min(c.holdMs, c.minShownMs)
  {
    hide Serve, Ordered;
    forall y, e | ChangedJustNow(c, y, now) ensures ChangedJustNow(c, Serve(c, y, e, now), now) {
      ServeSettlesChanged(c, y, e, now);
    }
    ServeAllKeeps(c, y => ChangedJustNow(c, y, now), FirstPass(s, now), Ordered(s.queue), now);
    var (s', out) := Tick(c, s, now);
    SettledThroughout(c, s', ops, now, out[i].tile, now);
  }

  lemma FirstChangesDiffer(c: Config, s: Policy, now: int, i: nat, j: nat)
    requires PolicyOk(s) && i < j < |Tick(c, s, now).1|
    ensures Tick(c, s, now).1[i].tile != Tick(c, s, now).1[j].tile
  {
    ReplayingTheChangesGivesThePicture(c, s, now);
  }

  /** Any two changes of one tile are at least min(holdMs, minShownMs) apart. */
  lemma {:induction false} NoFlicker(c: Config, s: Policy, ops: seq<Op>, clock: int, i: nat, j: nat)
    requires PolicyOk(s) && SameGrid(|s.tiles|, ops) && Monotone(clock, ops)
    requires i < j < |Log(c, s, ops)| && Log(c, s, ops)[i].change.tile == Log(c, s, ops)[j].change.tile
    ensures Log(c, s, ops)[j].at - Log(c, s, ops)[i].at >= Min(c.holdMs, c.minShownMs)
    decreases |ops|
  {
    hide PolicyOk, SameGrid, Tick, Detect, SetBaseline, SetPinned, SetExcluded, SetTracked;
    var op, s' := ops[0], Apply(c, s, ops[0]);
    var first, rest := Said(c, s, op), Log(c, s', ops[1..]);
    RestOfGrid(|s.tiles|, ops);
    GridIsKept(c, s, op);
    if i < |first| {
      assert j >= |first| by {
        if j < |first| { FirstChangesDiffer(c, s, op.now, i, j); }
      }
      FirstChangesSettle(c, s, op.now, ops[1..], i);
      assert Log(c, s, ops)[j] == rest[j - |first|];
    } else {
      PolicyOkIsKept(c, s, op);
      NoFlicker(c, s', ops[1..], After(clock, op), i - |first|, j - |first|);
    }
  }

  // ---- a camera held for AI activity stays ----

  predicate HeldForAi(t: Tile, row: int, until: int) {
    && (t.active, t.shown, PriorityOf(t.kind)) == (true, row, 2)
    && t.holdUntil >= until
  }

  predicate ShowsActive(s: Policy, i: nat, row: int) {
    i < |s.tiles| && (s.tiles[i].shown, s.tiles[i].active) == (row, true)
  }

  lemma HeldIsKept(c: Config, s: Policy, op: Op, i: nat, row: int, until: int)
    requires PolicyOk(s) && i < |s.tiles| && HeldForAi(s.tiles[i], row, until)
    requires SameGrid(|s.tiles|, [op]) && (Timed(op) ==> op.now < until)
    ensures i < |Apply(c, s, op).tiles|
    ensures HeldForAi(Apply(c, s, op).tiles[i], row, until)
    ensures NoneFor(Said(c, s, op), i)
  {
    hide Ordered, Serve, TileShowing;
    GridIsKept(c, s, op);
    if op.OpTick? {
      PinnedAndHeldTilesStay(c, s, op.now, i);
      PassKeepsHeld(c, FirstPass(s, op.now), Ordered(s.queue), op.now, i, row, until);
    }
  }

  lemma ServeKeepsHeld(c: Config, x: Pass, e: Queued, now: int, i: nat, row: int, until: int)
    requires i < |x.tiles| && HeldForAi(x.tiles[i], row, until)
    ensures HeldForAi(Serve(c, x, e, now).tiles[i], row, until)
  {
    hide PickTile, TileShowing, Recent, Without;
  }

  lemma PassKeepsHeld(c: Config, x: Pass, order: seq<Queued>, now: int, i: nat, row: int, until: int)
    requires i < |x.tiles| && HeldForAi(x.tiles[i], row, until)
    ensures HeldForAi(ServeAll(c, x, order, now).tiles[i], row, until)
  {
    hide Serve, HeldForAi;
    forall y: Pass, e | i < |y.tiles| && HeldForAi(y.tiles[i], row, until)
      ensures HeldForAi(Serve(c, y, e, now).tiles[i], row, until)
    {
      ServeKeepsHeld(c, y, e, now, i, row, until);
    }
    ServeAllKeeps(c, (y: Pass) => i < |y.tiles| && HeldForAi(y.tiles[i], row, until), x, order, now);
  }

  lemma {:induction false} HeldThroughout(c: Config, s: Policy, ops: seq<Op>, i: nat, row: int, until: int)
    requires PolicyOk(s) && i < |s.tiles| && HeldForAi(s.tiles[i], row, until)
    requires SameGrid(|s.tiles|, ops) && forall k | 0 <= k < |ops| && Timed(ops[k]) :: ops[k].now < until
    ensures i < |Run(c, s, ops).tiles|
    ensures HeldForAi(Run(c, s, ops).tiles[i], row, until)
    ensures NoneFor(Log(c, s, ops), i)
    decreases |ops|
  {
    hide Apply, Said, HeldForAi, PolicyOk;
    if ops != [] {
      RestOfGrid(|s.tiles|, ops);
      GridIsKept(c, s, ops[0]);
      HeldIsKept(c, s, ops[0], i, row, until);
      PolicyOkIsKept(c, s, ops[0]);
      assert forall k | 0 <= k < |ops| - 1 :: ops[1..][k] == ops[k + 1];
      HeldThroughout(c, Apply(c, s, ops[0]), ops[1..], i, row, until);
    }
  }

  /** After a detection on a visible camera that is AI activity, or of any kind on a tile already held for AI activity,
      whatever is called in the next holdMs, that camera stays on its tile and no change touches the tile. */
  lemma DetectedCameraIsHeld(c: Config, s: Policy, row: int, kind: Kind, now: int, trigger: int, ops: seq<Op>)
    requires PolicyOk(s) && Counts(s, row, kind) && TileShowing(s.tiles, row) >= 0
    requires var t := s.tiles[TileShowing(s.tiles, row)];
             PriorityOf(kind) == 2 || (t.active && PriorityOf(t.kind) == 2)
    requires SameGrid(|s.tiles|, ops)
    requires forall k | 0 <= k < |ops| && Timed(ops[k]) :: ops[k].now < now + c.holdMs
    ensures var i, s' := TileShowing(s.tiles, row), Detect(c, s, row, kind, now, trigger);
            ShowsActive(Run(c, s', ops), i, row) && NoneFor(Log(c, s', ops), i)
  {
    hide Run, Log, SameGrid;
    DetectKeepsPolicyOk(c, s, row, kind, now, trigger);
    HeldThroughout(c, Detect(c, s, row, kind, now, trigger), ops, TileShowing(s.tiles, row), row, now + c.holdMs);
  }

  /** The same from the tick that put the camera on screen. */
  lemma GrantedCameraIsHeld(c: Config, s: Policy, now: int, m: nat, ops: seq<Op>)
    requires PolicyOk(s) && m < |Tick(c, s, now).1| && PriorityOf(Tick(c, s, now).1[m].kind) == 2
    requires SameGrid(|s.tiles|, ops)
    requires forall k | 0 <= k < |ops| && Timed(ops[k]) :: ops[k].now < now + c.holdMs
    ensures var (s', out) := Tick(c, s, now);
            && ShowsActive(Run(c, s', ops), out[m].tile, out[m].row)
            && NoneFor(Log(c, s', ops), out[m].tile)
  {
    hide Run, Log, SameGrid, Serve, Ordered;
    var (s', out) := Tick(c, s, now);
    PolicyOkIsKept(c, s, OpTick(now));
    forall y, e | GrantHeld(c, y, now, m) ensures GrantHeld(c, Serve(c, y, e, now), now, m) {
      ServeHoldsItsGrant(c, y, e, now, m);
    }
    ServeAllKeeps(c, y => GrantHeld(c, y, now, m), FirstPass(s, now), Ordered(s.queue), now);
    HeldThroughout(c, s', ops, out[m].tile, out[m].row, now + c.holdMs);
  }

  /** The m-th change, if made yet and for AI activity, holds its tile. */
  predicate GrantHeld(c: Config, x: Pass, now: int, m: nat) {
    m < |x.out| && PriorityOf(x.out[m].kind) == 2 ==>
      x.out[m].tile < |x.tiles| && HeldForAi(x.tiles[x.out[m].tile], x.out[m].row, now + c.holdMs)
  }

  lemma ServeHoldsItsGrant(c: Config, x: Pass, e: Queued, now: int, m: nat)
    requires GrantHeld(c, x, now, m)
    ensures GrantHeld(c, Serve(c, x, e, now), now, m)
  {
    hide PickTile, TileShowing, Recent, Without;
    if m < |x.out| && PriorityOf(x.out[m].kind) == 2 {
      ServeKeepsHeld(c, x, e, now, x.out[m].tile, x.out[m].row, now + c.holdMs);
      ServeOnlyAdds(c, x, e, now);
    }
  }

  // ---- of the tiles held for motion, the one whose hold ends first is taken ----

  lemma TouchedByAiIsHeld(c: Config, x: Pass, e: Queued, now: int, i: nat)
    requires i < |x.tiles| && PriorityOf(e.kind) == 2
    ensures var t := Serve(c, x, e, now).tiles[i];
            t == x.tiles[i] || HeldForAi(t, t.shown, t.holdUntil)
  {
    hide PickTile, TileShowing, Recent, Without;
  }

  /** A tile that is not held for AI activity after a pass was untouched by the AI entries at its front. */
  lemma {:induction false} UntouchedByAi(c: Config, x: Pass, order: seq<Queued>, k: nat, now: int, i: nat)
    requires k <= |order| && i < |x.tiles| && forall j | 0 <= j < k :: PriorityOf(order[j].kind) == 2
    requires ServeAll(c, x, order, now).tiles[i].kind == Motion
    ensures ServeAll(c, x, order[..k], now).tiles[i] == x.tiles[i]
    decreases k
  {
    hide Serve;
    if k > 0 {
      var y := Serve(c, x, order[0], now);
      TouchedByAiIsHeld(c, x, order[0], now, i);
      if y.tiles[i] != x.tiles[i] {
        PassKeepsHeld(c, y, order[1..], now, i, y.tiles[i].shown, y.tiles[i].holdUntil);
        assert false;
      }
      assert forall j | 0 <= j < k - 1 :: order[1..][j] == order[j + 1];
      assert order[..k][0] == order[0] && order[..k][1..] == order[1..][..k - 1];
      UntouchedByAi(c, y, order[1..], k - 1, now, i);
    }
  }

  /** When a tile held for motion is taken, no tile is free any more, and every other that could have been taken before
      the tick and still can afterwards has a hold that ends no sooner. */
  lemma {:induction false} SoonestHoldIsTakenFirst(c: Config, s: Policy, now: int)
    requires PolicyOk(s)
    ensures var (r, out) := Tick(c, s, now);
            forall m, i | 0 <= m < |out| && 0 <= i < |s.tiles| && Takeable(c, r.tiles[i], now)
                          && Takeable(c, Released(s.tiles[i], now), now)
                          && out[m].tile < |s.tiles| ::
              var before := Released(s.tiles[out[m].tile], now);
              Free(before) || GoesFirst(before, out[m].tile, Released(s.tiles[i], now), i)
  {
    hide Serve, Ordered, TileShowing, BudgetSpent, PickTile, GoesFirst, Takeable;
    var x0, order := FirstPass(s, now), Ordered(s.queue);
    var (r, out) := Tick(c, s, now);
    OrderedIsALine(s.queue);
    forall m: nat, i: nat | m < |out| && i < |s.tiles| && Takeable(c, r.tiles[i], now)
                            && Takeable(c, Released(s.tiles[i], now), now)
                            && out[m].tile < |s.tiles|
      ensures var before := Released(s.tiles[out[m].tile], now);
              Free(before) || GoesFirst(before, out[m].tile, Released(s.tiles[i], now), i)
    {
      ChangeCameFrom(c, x0, order, now, m);
      var k: nat :| CameFrom(c, x0, order, now, m, k);
      TakenWasUntouched(c, x0, order, k, k, now);
      var y := ServeAll(c, x0, order[..k], now);
      if !Free(y.tiles[out[m].tile]) {
        forall j | 0 <= j < k ensures PriorityOf(order[j].kind) == 2 { assert Before(order[j], order[k]); }
        TakeableIsMotion(c, r.tiles[i], now);
        UntouchedByAi(c, x0, order, k, now, i);
      }
    }
  }

  lemma TakeableIsMotion(c: Config, t: Tile, now: int)
    requires Takeable(c, t, now)
    ensures t.kind == Motion
  {
  }

  // ---- a pinned tile is left alone ----

  predicate NeverUnpinned(ops: seq<Op>, i: nat) {
    forall k | 0 <= k < |ops| :: ops[k] != OpPin(i, false)
  }

  lemma PinnedAfterOneCall(c: Config, s: Policy, op: Op, i: nat)
    requires PolicyOk(s) && i < |s.tiles| && s.tiles[i].pinned && op != OpPin(i, false) && SameGrid(|s.tiles|, [op])
    ensures i < |Apply(c, s, op).tiles|
    ensures Apply(c, s, op).tiles[i].pinned
    ensures NoneFor(Said(c, s, op), i)
    ensures !op.OpBaseline? ==> Apply(c, s, op).tiles[i].shown == s.tiles[i].shown
  {
    hide Tick, TileShowing;
    GridIsKept(c, s, op);
    if op.OpTick? {
      PinnedAndHeldTilesStay(c, s, op.now, i);
      TickKeepsPin(c, s, op.now, i);
    }
  }

  /** A tile pinned throughout never gets a change, and shows what it did unless the user rearranges the grid. */
  lemma {:induction false} PinnedTilesAreLeftAlone(c: Config, s: Policy, ops: seq<Op>, i: nat)
    requires PolicyOk(s) && i < |s.tiles| && s.tiles[i].pinned && NeverUnpinned(ops, i) && SameGrid(|s.tiles|, ops)
    ensures NoneFor(Log(c, s, ops), i)
    ensures i < |Run(c, s, ops).tiles|
    ensures Run(c, s, ops).tiles[i].pinned
    ensures (forall k | 0 <= k < |ops| :: !ops[k].OpBaseline?) ==> Run(c, s, ops).tiles[i].shown == s.tiles[i].shown
    decreases |ops|
  {
    hide Apply, Said, PolicyOk;
    if ops != [] {
      RestOfGrid(|s.tiles|, ops);
      GridIsKept(c, s, ops[0]);
      PinnedAfterOneCall(c, s, ops[0], i);
      PolicyOkIsKept(c, s, ops[0]);
      assert forall k | 0 <= k < |ops| - 1 :: ops[1..][k] == ops[k + 1];
      PinnedTilesAreLeftAlone(c, Apply(c, s, ops[0]), ops[1..], i);
    }
  }

  lemma TickKeepsPin(c: Config, s: Policy, now: int, i: nat)
    requires i < |s.tiles|
    ensures Tick(c, s, now).0.tiles[i].pinned == s.tiles[i].pinned
  {
    hide Serve, Ordered;
    var pinned := s.tiles[i].pinned;
    forall y: Pass, e | i < |y.tiles| && y.tiles[i].pinned == pinned
      ensures Serve(c, y, e, now).tiles[i].pinned == pinned
    {
      ServeKeepsPins(c, y, e, now, i);
    }
    var inv := (y: Pass) => i < |y.tiles| && y.tiles[i].pinned == pinned;
    ServeAllKeeps(c, inv, FirstPass(s, now), Ordered(s.queue), now);
  }

  // ---- the start budget holds in every window ----

  /** How many of the times lie in the half-open window (lo, hi]. */
  function CountIn(times: seq<int>, lo: int, hi: int): nat {
    if times == [] then 0 else (if lo < times[0] <= hi then 1 else 0) + CountIn(times[1..], lo, hi)
  }

  lemma {:induction false} CountInSplits(a: seq<int>, b: seq<int>, lo: int, hi: int)
    ensures CountIn(a + b, lo, hi) == CountIn(a, lo, hi) + CountIn(b, lo, hi)
  {
    if a == [] {
      assert a + b == b;
    } else {
      assert (a + b)[0] == a[0] && (a + b)[1..] == a[1..] + b;
      CountInSplits(a[1..], b, lo, hi);
    }
  }

  predicate AllUpTo(times: seq<int>, limit: int) {
    forall k | 0 <= k < |times| :: times[k] <= limit
  }

  lemma {:induction false} CountInBounds(a: seq<int>, lo: int, hi: int)
    ensures CountIn(a, lo, hi) <= |a|
    ensures AllUpTo(a, lo) ==> CountIn(a, lo, hi) == 0
  {
    if a != [] { CountInBounds(a[1..], lo, hi); }
  }

  /** When the NVR `host` was asked for a stream, according to the log. */
  function StartTimes(c: Config, log: seq<Stamped>, host: int): seq<int> {
    if log == [] then []
    else (if c.hostOf(log[0].change.row) == host then [log[0].at] else []) + StartTimes(c, log[1..], host)
  }

  lemma {:induction false} StartTimesSplits(c: Config, a: seq<Stamped>, b: seq<Stamped>, host: int)
    ensures StartTimes(c, a + b, host) == StartTimes(c, a, host) + StartTimes(c, b, host)
  {
    if a == [] {
      assert a + b == b;
    } else {
      assert (a + b)[0] == a[0] && (a + b)[1..] == a[1..] + b;
      StartTimesSplits(c, a[1..], b, host);
    }
  }

  /** The starts in the window of startWindowMs that opens just after `a`. */
  function InWindow(c: Config, times: seq<int>, a: int): nat {
    CountIn(times, a, a + c.startWindowMs)
  }

  ghost predicate WithinBudget(c: Config, times: seq<int>) {
    forall a :: InWindow(c, times, a) <= Max(0, c.maxStartsPerHost)
  }

  /** `kept` is the end of the whole history, and what is no longer kept is not after `edge`. */
  ghost predicate RecentPart(times: seq<int>, kept: seq<int>, edge: int) {
    exists past :: times == past + kept && AllUpTo(past, edge)
  }

  /** The kept list is the recent part of the whole history `times`, and the history keeps the budget. */
  ghost predicate Budgeted(c: Config, times: seq<int>, kept: seq<int>, clock: int) {
    && RecentPart(times, kept, clock - c.startWindowMs)
    && WithinBudget(c, times)
  }

  lemma BudgetedPrune(c: Config, times: seq<int>, kept: seq<int>, clock: int, now: int)
    requires Budgeted(c, times, kept, clock) && clock <= now
    ensures Budgeted(c, times, Pruned(kept, now - c.startWindowMs), now)
  {
    var edge := now - c.startWindowMs;
    var r := Pruned(kept, edge);
    PrunedIsAnEnd(kept, edge);
    var past :| times == past + kept && AllUpTo(past, clock - c.startWindowMs);
    var dropped := kept[..|kept| - |r|];
    assert times == (past + dropped) + r && AllUpTo(past + dropped, edge);
  }

  lemma BudgetedStart(c: Config, times: seq<int>, kept: seq<int>, now: int)
    requires Budgeted(c, times, kept, now) && |kept| < c.maxStartsPerHost
    ensures Budgeted(c, times + [now], kept + [now], now)
  {
    var past :| times == past + kept && AllUpTo(past, now - c.startWindowMs);
    assert times + [now] == past + (kept + [now]);
    forall a ensures InWindow(c, times + [now], a) <= Max(0, c.maxStartsPerHost) {
      assert InWindow(c, times, a) <= Max(0, c.maxStartsPerHost);
      var lo, hi := a, a + c.startWindowMs;
      CountInSplits(times, [now], lo, hi);
      assert CountIn([now], lo, hi) == if lo < now <= hi then 1 else 0;
      if lo < now <= hi {
        CountInSplits(past, kept, lo, hi);
        CountInBounds(past, lo, hi);
        CountInBounds(kept, lo, hi);
      }
    }
  }

  /** `before` is the history up to this tick; the pass adds to it. */
  ghost predicate PassBudgeted(c: Config, before: seq<int>, x: Pass, now: int, host: int) {
    Budgeted(c, before + StartTimes(c, Stamp(now, x.out), host), StartsOf(x.starts, host), now)
  }

  lemma OneMoreStart(c: Config, now: int, out: seq<Change>, ch: Change, host: int)
    ensures StartTimes(c, Stamp(now, out + [ch]), host)
         == StartTimes(c, Stamp(now, out), host) + if c.hostOf(ch.row) == host then [now] else []
  {
    var last := Stamped(now, ch);
    assert Stamp(now, out + [ch]) == Stamp(now, out) + [last];
    StartTimesSplits(c, Stamp(now, out), [last], host);
    assert StartTimes(c, [last], host) == if c.hostOf(ch.row) == host then [now] else [];
  }

  /** How serving one entry touches the start list of `host` and the reported changes. */
  predicate Touched(c: Config, x: Pass, y: Pass, row: int, now: int, host: int) {
    var recent := Recent(c, x.starts, host, now);
    || (y.out == x.out && (StartsOf(y.starts, host) == StartsOf(x.starts, host) || StartsOf(y.starts, host) == recent))
    || (y.out != [] && y.out == x.out + [y.out[|y.out| - 1]] && y.out[|y.out| - 1].row == row
        && if c.hostOf(row) == host then StartsOf(y.starts, host) == recent + [now] && |recent| < c.maxStartsPerHost
           else StartsOf(y.starts, host) == StartsOf(x.starts, host))
  }

  /** What serving one entry does to start lists and changes: nothing, a pruning, or a start. */
  lemma ServeStarts(c: Config, x: Pass, e: Queued, now: int)
    ensures var y, h := Serve(c, x, e, now), c.hostOf(e.row);
            var recent := Recent(c, x.starts, h, now);
            || (y.out == x.out && (y.starts == x.starts || y.starts == x.starts[h := recent]))
            || (|recent| < c.maxStartsPerHost && y.starts == x.starts[h := recent + [now]]
                && exists t: nat :: y.out == x.out + [ChangeFor(c, t, e)])
  {
    hide PickTile, TileShowing, Without, Granted, MarkedInPlace, Recent, ChangeFor;
    var y := Serve(c, x, e, now);
    if y.out != x.out {
      var t: nat := PickTile(c, x.tiles, e.kind, now);
      assert y.out == x.out + [ChangeFor(c, t, e)];
    }
  }

  lemma ServeTouches(c: Config, x: Pass, e: Queued, now: int, host: int)
    ensures Touched(c, x, Serve(c, x, e, now), e.row, now, host)
  {
    hide Serve, Recent;
    ServeStarts(c, x, e, now);
  }

  lemma TouchedKeepsBudget(c: Config, before: seq<int>, x: Pass, y: Pass, row: int, now: int, host: int)
    requires PassBudgeted(c, before, x, now, host) && Touched(c, x, y, row, now, host)
    ensures PassBudgeted(c, before, y, now, host)
  {
    hide Pruned, StartsOf, StartTimes, Budgeted;
    var served := StartTimes(c, Stamp(now, x.out), host);
    BudgetedPrune(c, before + served, StartsOf(x.starts, host), now, now);
    if y.out != x.out {
      OneMoreStart(c, now, x.out, y.out[|y.out| - 1], host);
      if c.hostOf(row) == host {
        BudgetedStart(c, before + served, Recent(c, x.starts, host, now), now);
        Associate(before, served, [now]);
      } else {
        assert served + [] == served;
      }
    }
  }

  lemma BudgetIsKept(c: Config, before: seq<int>, s: Policy, op: Op, clock: int, host: int)
    requires Budgeted(c, before, StartsOf(s.starts, host), clock) && clock <= After(clock, op)
    ensures Budgeted(c, before + StartTimes(c, Said(c, s, op), host), StartsOf(Apply(c, s, op).starts, host),
              After(clock, op))
  {
    hide Serve, Ordered, TileShowing, WaitingAmong, WithinBudget;
    assert before + [] == before;
    if op.OpTick? {
      var x := FirstPass(s, op.now);
      assert Stamp(op.now, x.out) == [];
      assert PassBudgeted(c, before, x, op.now, host);
      forall y, e | PassBudgeted(c, before, y, op.now, host)
        ensures PassBudgeted(c, before, Serve(c, y, e, op.now), op.now, host)
      {
        ServeTouches(c, y, e, op.now, host);
        TouchedKeepsBudget(c, before, y, Serve(c, y, e, op.now), e.row, op.now, host);
      }
      ServeAllKeeps(c, y => PassBudgeted(c, before, y, op.now, host), x, Ordered(s.queue), op.now);
    }
  }

  lemma {:induction false} BudgetThroughout(c: Config, before: seq<int>, s: Policy, ops: seq<Op>, clock: int, host: int)
    requires Budgeted(c, before, StartsOf(s.starts, host), clock) && Monotone(clock, ops)
    ensures WithinBudget(c, before + StartTimes(c, Log(c, s, ops), host))
    decreases |ops|
  {
    hide Apply, Said, WithinBudget;
    if ops == [] {
      assert before + [] == before;
    } else {
      var s' := Apply(c, s, ops[0]);
      var told := StartTimes(c, Said(c, s, ops[0]), host);
      BudgetIsKept(c, before, s, ops[0], clock, host);
      BudgetThroughout(c, before + told, s', ops[1..], After(clock, ops[0]), host);
      StartTimesSplits(c, Said(c, s, ops[0]), Log(c, s', ops[1..]), host);
      Associate(before, told, StartTimes(c, Log(c, s', ops[1..]), host));
    }
  }

  lemma NoHistory(c: Config, clock: int)
    ensures Budgeted(c, [], [], clock)
  {
    var none: seq<int> := [];
    assert none == none + none && AllUpTo(none, clock - c.startWindowMs);
    forall a ensures InWindow(c, [], a) <= Max(0, c.maxStartsPerHost) {}
  }

  /** From a fresh or reset policy, every half-open window of startWindowMs holds at most
      maxStartsPerHost new streams of any one NVR. */
  lemma {:induction false} StartBudgetHoldsInEveryWindow(c: Config, s: Policy, ops: seq<Op>, clock: int,
      host: int, a: int)
    requires s.starts == map[] && Monotone(clock, ops)
    ensures InWindow(c, StartTimes(c, Log(c, s, ops), host), a) <= Max(0, c.maxStartsPerHost)
  {
    hide Log, StartTimes;
    NoHistory(c, clock);
    BudgetThroughout(c, [], s, ops, clock, host);
    assert [] + StartTimes(c, Log(c, s, ops), host) == StartTimes(c, Log(c, s, ops), host);
  }

  // ---- nothing is dropped ----

  predicate Waiting(s: Policy, row: int) {
    exists i :: 0 <= i < |s.queue| && s.queue[i].row == row
  }

  /** A detection that counts is never dropped: its camera is on an active tile or waits. */
  lemma DetectionIsNotDropped(c: Config, s: Policy, row: int, kind: Kind, now: int, trigger: int)
    requires Counts(s, row, kind)
    ensures var r := Detect(c, s, row, kind, now, trigger);
            OnScreen(r.tiles, row) || Waiting(r, row)
  {
    var r := Detect(c, s, row, kind, now, trigger);
    var t := TileShowing(s.tiles, row);
    if t >= 0 {
      assert r.tiles[t].shown == row && r.tiles[t].active;
    } else {
      var k := WaitingAmong(s.queue, row, |s.queue|);
      assert r.queue[if k >= 0 then k else |s.queue|].row == row;
    }
  }

  lemma WaitingIsKept(c: Config, s: Policy, op: Op, row: int)
    requires PolicyOk(s) && Waiting(s, row)
    ensures Waiting(Apply(c, s, op), row) || (op.OpTick? && OnScreen(Apply(c, s, op).tiles, row))
  {
    hide Tick, PolicyOk;
    var k :| 0 <= k < |s.queue| && s.queue[k].row == row;
    match op
    case OpTick(now) => NothingWaitingIsLost(c, s, now, s.queue[k]);
    case OpDetect(_, _, _, _) => assert Apply(c, s, op).queue[k].row == row;
    case _ => assert Apply(c, s, op).queue == s.queue;
  }

  /** Call k of the run is a tick that puts the camera on an active tile. */
  predicate PutOnScreen(c: Config, s: Policy, ops: seq<Op>, row: int, k: nat) {
    && k < |ops| && ops[k].OpTick?
    && OnScreen(Run(c, s, ops[..k + 1]).tiles, row)
  }

  /** A waiting camera goes on waiting until some tick puts it on an active tile. */
  lemma {:induction false} NobodyIsForgotten(c: Config, s: Policy, ops: seq<Op>, row: int)
    requires PolicyOk(s) && Waiting(s, row)
    ensures Waiting(Run(c, s, ops), row) || exists k: nat :: PutOnScreen(c, s, ops, row, k)
    decreases |ops|
  {
    hide Apply, PolicyOk, Waiting, OnScreen;
    if ops != [] && !Waiting(Run(c, s, ops), row) {
      var s' := Apply(c, s, ops[0]);
      WaitingIsKept(c, s, ops[0], row);
      PolicyOkIsKept(c, s, ops[0]);
      if Waiting(s', row) {
        NobodyIsForgotten(c, s', ops[1..], row);
        var j: nat :| PutOnScreen(c, s', ops[1..], row, j);
        assert ops[..j + 2][0] == ops[0] && ops[..j + 2][1..] == ops[1..][..j + 1];
        assert PutOnScreen(c, s, ops, row, j + 1);
      } else {
        assert ops[..1] == [ops[0]] && Run(c, s, ops[..1]) == Run(c, s', []);
        assert PutOnScreen(c, s, ops, row, 0);
      }
    }
  }

  // ---- a quiet grid serves its queue ----

  /** Nothing recorded lies in the future of `clock`. */
  predicate Bounded(c: Config, s: Policy, clock: int) {
    && (forall i | 0 <= i < |s.tiles| :: s.tiles[i].holdUntil <= clock + c.holdMs)
    && (forall h | h in s.starts :: AllUpTo(s.starts[h], clock))
  }

  predicate PassBounded(c: Config, x: Pass, now: int) {
    && (forall i | 0 <= i < |x.tiles| :: x.tiles[i].holdUntil <= now + c.holdMs)
    && (forall h | h in x.starts :: AllUpTo(x.starts[h], now))
  }

  lemma ServeKeepsBounded(c: Config, x: Pass, e: Queued, now: int)
    requires PassBounded(c, x, now)
    ensures PassBounded(c, Serve(c, x, e, now), now)
  {
    hide Serve, Recent;
    ServeKeepsTilesBounded(c, x, e, now);
    var y := Serve(c, x, e, now);
    forall h | h in y.starts ensures AllUpTo(y.starts[h], now) {
      ServeTouches(c, x, e, now, h);
      RecentUpTo(c, x.starts, h, now);
    }
  }

  lemma RecentUpTo(c: Config, starts: map<int, seq<int>>, h: int, now: int)
    requires h in starts ==> AllUpTo(starts[h], now)
    ensures AllUpTo(Recent(c, starts, h, now), now)
  {
    PrunedIsAnEnd(StartsOf(starts, h), now - c.startWindowMs);
  }

  lemma ServeKeepsTilesBounded(c: Config, x: Pass, e: Queued, now: int)
    requires forall i | 0 <= i < |x.tiles| :: x.tiles[i].holdUntil <= now + c.holdMs
    ensures var y := Serve(c, x, e, now);
            forall i | 0 <= i < |y.tiles| :: y.tiles[i].holdUntil <= now + c.holdMs
  {
    hide PickTile, TileShowing, Recent, Without;
  }

  lemma BoundedIsKept(c: Config, s: Policy, op: Op, clock: int)
    requires Bounded(c, s, clock) && clock <= After(clock, op)
    requires op.OpBaseline? ==> 0 <= clock + c.holdMs
    ensures Bounded(c, Apply(c, s, op), After(clock, op))
  {
    hide Serve, Ordered, TileShowing;
    if op.OpTick? {
      forall y, e | PassBounded(c, y, op.now) ensures PassBounded(c, Serve(c, y, e, op.now), op.now) {
        ServeKeepsBounded(c, y, e, op.now);
      }
      ServeAllKeeps(c, y => PassBounded(c, y, op.now), FirstPass(s, op.now), Ordered(s.queue), op.now);
    }
  }

  function Ticks(times: seq<int>): (ops: seq<Op>)
    ensures |ops| == |times|
    ensures forall i | 0 <= i < |times| :: ops[i] == OpTick(times[i])
  {
    seq(|times|, i requires 0 <= i < |times| => OpTick(times[i]))
  }

  predicate Spaced(clock: int, gap: int, times: seq<int>)
    decreases |times|
  {
    times == [] || (times[0] >= clock + gap && Spaced(times[0], gap, times[1..]))
  }

  predicate Unpinned(tiles: seq<Tile>) {
    exists i :: 0 <= i < |tiles| && !tiles[i].pinned
  }

  lemma ServeKeepsPins(c: Config, x: Pass, e: Queued, now: int, i: nat)
    requires i < |x.tiles|
    ensures Serve(c, x, e, now).tiles[i].pinned == x.tiles[i].pinned
  {
    hide PickTile, TileShowing, Recent, Without;
  }

  lemma TickKeepsPins(c: Config, s: Policy, now: int)
    requires Unpinned(s.tiles)
    ensures Unpinned(Tick(c, s, now).0.tiles)
  {
    hide Tick;
    var i :| 0 <= i < |s.tiles| && !s.tiles[i].pinned;
    TickKeepsPin(c, s, now, i);
  }

  lemma QuietTickServes(c: Config, s: Policy, now: int, clock: int)
    requires PolicyOk(s) && Bounded(c, s, clock) && Unpinned(s.tiles) && c.maxStartsPerHost >= 1
    requires now >= clock + Max(0, Max(c.holdMs, c.startWindowMs))
    ensures |Tick(c, s, now).0.queue| <= Max(0, |s.queue| - 1)
  {
    hide Tick;
    assert Rested(c, s, now) by {
      forall h | h in s.starts ensures forall k | 0 <= k < |s.starts[h]| :: s.starts[h][k] <= now - c.startWindowMs {
        assert AllUpTo(s.starts[h], clock);
      }
    }
    if s.queue != [] { RestedTickServesSomeone(c, s, now); } else { NobodyWaitingStaysSo(c, s, now); }
  }

  lemma NobodyWaitingStaysSo(c: Config, s: Policy, now: int)
    ensures s.queue == [] ==> Tick(c, s, now).0.queue == []
  {
  }

  /** Ticks spaced by the longer of the hold and the start window each serve someone, so a queue of n
      entries is empty after n of them, provided one tile is unpinned and the cap allows a start. */
  lemma {:induction false} QuietQueueDrains(c: Config, s: Policy, times: seq<int>, clock: int)
    requires PolicyOk(s) && Bounded(c, s, clock) && Unpinned(s.tiles) && c.maxStartsPerHost >= 1
    requires Spaced(clock, Max(0, Max(c.holdMs, c.startWindowMs)), times)
    ensures |Run(c, s, Ticks(times)).queue| <= Max(0, |s.queue| - |times|)
    decreases |times|
  {
    hide Tick, PolicyOk, Bounded, Unpinned;
    if times != [] {
      var now := times[0];
      var r := Tick(c, s, now).0;
      assert Ticks(times)[1..] == Ticks(times[1..]);
      QuietTickServes(c, s, now, clock);
      PolicyOkIsKept(c, s, OpTick(now));
      BoundedIsKept(c, s, OpTick(now), clock);
      TickKeepsPins(c, s, now);
      QuietQueueDrains(c, r, times[1..], now);
    }
  }

  const EMPTY := Policy([], [], {}, {}, true, map[], 0)

  lemma {:induction false} RunKeepsBounded(c: Config, s: Policy, ops: seq<Op>, clock: int)
    requires Bounded(c, s, clock) && Monotone(clock, ops) && 0 <= clock + c.holdMs
    ensures Bounded(c, Run(c, s, ops), Clock(clock, ops))
    decreases |ops|
  {
    hide Apply, Bounded;
    if ops != [] {
      BoundedIsKept(c, s, ops[0], clock);
      RunKeepsBounded(c, Apply(c, s, ops[0]), ops[1..], After(clock, ops[0]));
    }
  }

  /** So the queue built up by any run from a new policy drains once detections stop. */
  lemma {:induction false} AnyQueueDrains(c: Config, ops: seq<Op>, times: seq<int>)
    requires Monotone(0, ops) && c.holdMs >= 0 && c.maxStartsPerHost >= 1
    requires Unpinned(Run(c, EMPTY, ops).tiles)
    requires Spaced(Clock(0, ops), Max(c.holdMs, c.startWindowMs), times)
    requires |times| >= |Run(c, EMPTY, ops).queue|
    ensures Run(c, Run(c, EMPTY, ops), Ticks(times)).queue == []
  {
    hide Apply;
    RunKeepsPolicyOk(c, EMPTY, ops);
    RunKeepsBounded(c, EMPTY, ops, 0);
    QuietQueueDrains(c, Run(c, EMPTY, ops), times, Clock(0, ops));
  }
}
