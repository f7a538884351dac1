/**
The tile policy call by call, in the program's own fields: what a detection, a new arrangement and
a tick leave on each tile and in the queue, and what follows over whole runs for a camera on a
held tile and for one that waits.
 */
module TileLaws {
  import opened TilePolicy
  import opened TickProperties
  import opened RunProperties

  // ---- detections ----

  /** The tile at i is the first that shows the camera. */
  predicate FirstShowing(tiles: seq<Tile>, row: int, i: nat) {
    i < |tiles| && tiles[i].shown == row && forall j | 0 <= j < i :: tiles[j].shown != row
  }

  predicate NowhereShown(tiles: seq<Tile>, row: int) {
    forall j | 0 <= j < |tiles| :: tiles[j].shown != row
  }

  /** The entry at k is the first of that camera. */
  predicate FirstOf(q: seq<Queued>, row: int, k: nat) {
    k < |q| && q[k].row == row && forall j | 0 <= j < k :: q[j].row != row
  }

  /** The new kind ranks above the old: anything above none, AI activity above motion. */
  predicate Outranks(kind: Kind, was: Kind) {
    match was
    case None => kind != None
    case Motion => kind != None && kind != Motion
    case _ => false
  }

  lemma OutranksByPriority(kind: Kind, was: Kind)
    ensures PriorityOf(kind) > PriorityOf(was) <==> Outranks(kind, was)
  {
  }

  /** Detections of an excluded camera, of no kind, or of a kind that is not tracked change nothing. */
  lemma OtherDetectionsChangeNothing(c: Config, s: Policy, row: int, kind: Kind, now: int, trigger: int)
    requires row in s.excluded || kind == None || (!s.trackAll && kind !in s.tracked)
    ensures Detect(c, s, row, kind, now, trigger) == s
  {
  }

  /** Any other on a shown camera holds its first tile for holdMs from now, or longer if it was held for longer; the
      tile shows the camera since now if it was idle, its kind only ever rises, and nothing else changes. */
  lemma DetectionHoldsTheTile(c: Config, s: Policy, row: int, kind: Kind, now: int, trigger: int, i: nat)
    requires row !in s.excluded && kind != None && (s.trackAll || kind in s.tracked)
    requires FirstShowing(s.tiles, row, i)
    ensures var t, r := s.tiles[i], Detect(c, s, row, kind, now, trigger);
            && |r.tiles| == |s.tiles| && r == s.(tiles := s.tiles[i := r.tiles[i]])
            && (r.tiles[i].holdUntil == if t.holdUntil > now + c.holdMs then t.holdUntil else now + c.holdMs)
            && r.tiles[i].active
            && (r.tiles[i].kind == if !t.active || Outranks(kind, t.kind) then kind else t.kind)
            && (r.tiles[i].shownSince == if t.active then t.shownSince else now)
            && (r.tiles[i].triggerMs == if t.active then t.triggerMs else if trigger < 0 then now else trigger)
            && (r.tiles[i].shown, r.tiles[i].baseline, r.tiles[i].pinned, r.tiles[i].idleSince)
               == (row, t.baseline, t.pinned, t.idleSince)
  {
    hide PriorityOf;
    assert TileShowing(s.tiles, row) == i;
    OutranksByPriority(kind, s.tiles[i].kind);
  }

  /** On a camera shown nowhere it queues one entry, with the next number, or raises the kind of the one that waits:
      that one keeps its trigger and its number. Nothing else changes. */
  lemma DetectionQueuesOnce(c: Config, s: Policy, row: int, kind: Kind, now: int, trigger: int)
    requires row !in s.excluded && kind != None && (s.trackAll || kind in s.tracked)
    requires NowhereShown(s.tiles, row)
    ensures var r := Detect(c, s, row, kind, now, trigger);
            && (forall k | 0 <= k < |s.queue| && FirstOf(s.queue, row, k) ::
                  var e := s.queue[k];
                  r == s.(queue := s.queue[k := e.(kind := if Outranks(kind, e.kind) then kind else e.kind)]))
            && ((forall k | 0 <= k < |s.queue| :: s.queue[k].row != row) ==>
                  r == s.(queue := s.queue + [Queued(row, kind, if trigger < 0 then now else trigger, s.nextNumber)],
                          nextNumber := s.nextNumber + 1))
  {
    hide PriorityOf;
    assert TileShowing(s.tiles, row) < 0;
    var k := WaitingAmong(s.queue, row, |s.queue|);
    if k >= 0 { OutranksByPriority(kind, s.queue[k].kind); }
  }

  // ---- a new arrangement, and a reset ----

  /** A tile shows the user's camera for it at once if it is new, or idle and given another one; any other keeps the
      camera it shows, an idle tile its activity camera too. */
  lemma RearrangedTiles(s: Policy, rows: seq<int>)
    ensures var r := SetBaseline(s, rows);
            && |r.tiles| == |rows| && r == s.(tiles := r.tiles)
            && (forall i | 0 <= i < |rows| && i < |s.tiles| ::
                  var t := s.tiles[i];
                  r.tiles[i] == t.(baseline := rows[i],
                                   shown := if t.active || t.baseline == rows[i] then t.shown else rows[i]))
            && (forall i | |s.tiles| <= i < |rows| ::
                  r.tiles[i] == Tile(rows[i], rows[i], false, false, None, 0, 0, 0, 0))
  {
  }

  lemma ResetTiles(s: Policy)
    ensures var r := Reset(s);
            && |r.tiles| == |s.tiles| && r == s.(queue := [], starts := map[], tiles := r.tiles)
            && forall i | 0 <= i < |r.tiles| ::
                 r.tiles[i] == s.tiles[i].(shown := s.tiles[i].baseline, active := false, kind := None)
  {
  }

  lemma CallKeepsTheCamera(c: Config, s: Policy, op: Op, i: nat)
    requires i < |s.tiles| && SameGrid(|s.tiles|, [op]) && NoneFor(Said(c, s, op), i)
    requires op.OpBaseline? && i < |op.rows| ==> op.rows[i] == s.tiles[i].baseline
    ensures i < |Apply(c, s, op).tiles|
    ensures Apply(c, s, op).tiles[i].shown == s.tiles[i].shown
    ensures Apply(c, s, op).tiles[i].baseline == s.tiles[i].baseline
  {
    hide Tick, TileShowing;
    GridIsKept(c, s, op);
    assert [op][0] == op;
    if op.OpTick? {
      assert forall m | 0 <= m < |Said(c, s, op)| :: Said(c, s, op)[m].change == Tick(c, s, op.now).1[m];
      UnnamedTileKeepsItsCamera(c, s, op.now, i);
    }
  }

  /** A tile keeps its camera, an activity camera long after its hold too, through any calls, new arrangements included,
      until a change names it or the user gives it another camera. */
  lemma {:induction false} TileKeepsItsCamera(c: Config, s: Policy, ops: seq<Op>, i: nat)
    requires i < |s.tiles| && SameGrid(|s.tiles|, ops) && NoneFor(Log(c, s, ops), i)
    requires forall k | 0 <= k < |ops| && ops[k].OpBaseline? && i < |ops[k].rows| ::
               ops[k].rows[i] == s.tiles[i].baseline
    ensures i < |Run(c, s, ops).tiles|
    ensures Run(c, s, ops).tiles[i].shown == s.tiles[i].shown
    ensures Run(c, s, ops).tiles[i].baseline == s.tiles[i].baseline
    decreases |ops|
  {
    hide Apply, Said;
    if ops != [] {
      RestOfGrid(|s.tiles|, ops);
      GridIsKept(c, s, ops[0]);
      CallKeepsTheCamera(c, s, ops[0], i);
      assert forall k | 0 <= k < |ops| - 1 :: ops[1..][k] == ops[k + 1];
      TileKeepsItsCamera(c, Apply(c, s, ops[0]), ops[1..], i);
    }
  }

  // ---- pins, exclusions and tracked kinds ----

  lemma PinningTouchesOneTile(s: Policy, tile: int, pinned: bool)
    ensures var r := SetPinned(s, tile, pinned);
            && |r.tiles| == |s.tiles| && r == s.(tiles := r.tiles)
            && forall i | 0 <= i < |s.tiles| ::
                 r.tiles[i] == if i == tile then s.tiles[i].(pinned := pinned) else s.tiles[i]
  {
  }

  lemma ExcludingTouchesOneCamera(s: Policy, row: int, excluded: bool, other: int)
    ensures var r := SetExcluded(s, row, excluded);
            && r == s.(excluded := r.excluded)
            && (other in r.excluded <==> if other == row then excluded else other in s.excluded)
  {
  }

  /** Once kinds are named, a detection of any other kind changes nothing, and naming kinds changes nothing else. */
  lemma OnlyNamedKindsCount(c: Config, s: Policy, kinds: set<Kind>, row: int, kind: Kind, now: int, trigger: int)
    ensures var r := SetTracked(s, kinds);
            && r == s.(tracked := r.tracked, trackAll := false)
            && (kind in r.tracked <==> kind in kinds)
            && (kind !in kinds ==> Detect(c, r, row, kind, now, trigger) == r)
  {
  }

  // ---- a tick ----

  lemma LaterLeavesIt(c: Config, x: Pass, e: Queued, now: int, i: nat)
    requires i < |x.tiles| && Secured(c, x.tiles[i], PriorityOf(e.kind), now) && x.tiles[i].shown != e.row
    ensures Serve(c, x, e, now).tiles[i] == x.tiles[i]
  {
    hide PickTile, TileShowing, Recent, Without;
  }

  lemma {:induction false} TheRestLeavesIt(c: Config, x: Pass, order: seq<Queued>, now: int, i: nat)
    requires Sorted(order) && i < |x.tiles| && forall k | 0 <= k < |order| :: order[k].row != x.tiles[i].shown
    requires order != [] ==> Secured(c, x.tiles[i], PriorityOf(order[0].kind), now)
    ensures ServeAll(c, x, order, now).tiles[i] == x.tiles[i]
    decreases |order|
  {
    hide Serve, Secured;
    if order != [] {
      LaterLeavesIt(c, x, order[0], now, i);
      if |order| > 1 { SecuredForLess(c, x.tiles[i], order[0], order[1], now); }
      TheRestLeavesIt(c, Serve(c, x, order[0], now), order[1..], now, i);
    }
  }

  /** What serving an entry does to one tile: nothing, or it is marked in place, or it is given to the entry. */
  datatype Fate = Left | Marked(entry: Queued) | Given(entry: Queued)

  predicate Meets(c: Config, t: Tile, u: Tile, fate: Fate, now: int) {
    match fate
    case Left => u == t
    case Marked(e) => t.shown == e.row && u == MarkedInPlace(c, t, e, now)
    case Given(e) => u == Granted(c, t, e, now)
  }

  predicate Reported(c: Config, before: seq<Change>, after: seq<Change>, i: nat, fate: Fate) {
    if fate.Given? then exists m :: |before| <= m < |after| && after[m] == ChangeFor(c, i, fate.entry)
    else ExtendsWithout(before, after, i)
  }

  lemma ServeFate(c: Config, x: Pass, e: Queued, now: int, i: nat) returns (fate: Fate)
    requires i < |x.tiles| && e.kind != None
    ensures var y := Serve(c, x, e, now);
            Meets(c, x.tiles[i], y.tiles[i], fate, now) && Reported(c, x.out, y.out, i, fate)
    ensures fate != Left ==> (fate == Marked(e) || fate == Given(e))
  {
    hide PickTile, TileShowing, Recent, Without, ChangeFor, MarkedInPlace, Granted;
    var y, existing := Serve(c, x, e, now), TileShowing(x.tiles, e.row);
    var pick := PickTile(c, x.tiles, e.kind, now);
    if existing >= 0 {
      fate := if existing == i then Marked(e) else Left;
    } else if pick < 0 || BudgetSpent(c, x.starts, c.hostOf(e.row), now) || pick != i {
      ChangeNames(c, pick, e);
      fate := Left;
    } else {
      fate := Given(e);
      assert y.out[|x.out|] == ChangeFor(c, i, e);
    }
  }

  lemma ChangeNames(c: Config, i: int, e: Queued)
    ensures i >= 0 ==> ChangeFor(c, i, e).tile == i
  {
  }

  lemma {:induction false} PassFate(c: Config, x: Pass, order: seq<Queued>, now: int, i: nat) returns (fate: Fate)
    requires Line(order) && i < |x.tiles|
    ensures var y := ServeAll(c, x, order, now);
            Meets(c, x.tiles[i], y.tiles[i], fate, now) && Reported(c, x.out, y.out, i, fate)
    ensures fate != Left ==> exists e :: e in order && (fate == Marked(e) || fate == Given(e))
    decreases |order|
  {
    hide Serve, Secured, Meets;
    if order == [] {
      fate := Left;
      assert Meets(c, x.tiles[i], x.tiles[i], Left, now) by { LeftIsTheSame(c, x.tiles[i], now); }
    } else {
      var y, z := Serve(c, x, order[0], now), ServeAll(c, x, order, now);
      fate := ServeFate(c, x, order[0], now, i);
      OutOnlyGrows(c, y, order[1..], now);
      if fate == Left {
        MeetsLeft(c, x.tiles[i], y.tiles[i], now);
        fate := PassFate(c, y, order[1..], now, i);
        ReportedLater(c, x.out, y.out, z.out, i, fate);
      } else {
        TouchedIsNowSecured(c, x, order[0], now, i, fate);
        if |order| > 1 { SecuredForLess(c, y.tiles[i], order[0], order[1], now); }
        TheRestLeavesIt(c, y, order[1..], now, i);
        ServeAllKeepsSecured(c, y, order[1..], now, i);
        ReportedBefore(c, x.out, y.out, z.out, i, fate);
      }
    }
  }

  lemma LeftIsTheSame(c: Config, t: Tile, now: int)
    ensures Meets(c, t, t, Left, now)
  {
  }

  lemma MeetsLeft(c: Config, t: Tile, u: Tile, now: int)
    requires Meets(c, t, u, Left, now)
    ensures u == t
  {
  }

  lemma TouchedIsNowSecured(c: Config, x: Pass, e: Queued, now: int, i: nat, fate: Fate)
    requires i < |x.tiles| && e.kind != None && (fate == Marked(e) || fate == Given(e))
    requires Meets(c, x.tiles[i], Serve(c, x, e, now).tiles[i], fate, now)
    ensures Serve(c, x, e, now).tiles[i].shown == e.row
    ensures Secured(c, Serve(c, x, e, now).tiles[i], PriorityOf(e.kind), now)
  {
    hide Serve;
  }

  lemma ReportedLater(c: Config, a: seq<Change>, b: seq<Change>, d: seq<Change>, i: nat, fate: Fate)
    requires ExtendsWithout(a, b, i) && Reported(c, b, d, i, fate)
    ensures Reported(c, a, d, i, fate)
  {
  }

  lemma ReportedBefore(c: Config, a: seq<Change>, b: seq<Change>, d: seq<Change>, i: nat, fate: Fate)
    requires Reported(c, a, b, i, fate) && ExtendsWithout(b, d, i)
    ensures Reported(c, a, d, i, fate)
  {
    if fate.Given? {
      var m :| |a| <= m < |b| && b[m] == ChangeFor(c, i, fate.entry);
      assert d[m] == ChangeFor(c, i, fate.entry);
    }
  }

  /** The tile was given to the camera of this change. */
  predicate GivenBy(c: Config, u: Tile, ch: Change, i: nat, now: int) {
    && (ch.tile, ch.row, ch.kind, ch.triggerMs) == (i, u.shown, u.kind, u.triggerMs)
    && u.active && u.shownSince == now && u.holdUntil == now + c.holdMs
  }

  /** The tile showed the camera of this waiting entry already; `idle` says whether it was free by then. */
  predicate MarkedBy(c: Config, t: Tile, u: Tile, e: Queued, idle: bool, now: int) {
    && e.row == t.shown == u.shown && u.active
    && (u.kind == if idle || Outranks(e.kind, t.kind) then e.kind else t.kind)
    && (u.shownSince == if idle then now else t.shownSince)
    && (u.triggerMs == if idle then e.trigger else t.triggerMs)
    && (u.holdUntil == if t.holdUntil > now + c.holdMs then t.holdUntil else now + c.holdMs)
  }

  predicate OnlyReleased(t: Tile, u: Tile, over: bool) {
    && (u.shown, u.shownSince, u.holdUntil, u.triggerMs) == (t.shown, t.shownSince, t.holdUntil, t.triggerMs)
    && (u.active, u.kind) == if over then (false, None) else (t.active, t.kind)
  }

  /** What a tick leaves on each tile. A tile that a change names is held for holdMs for that camera; one no change
      names keeps its camera, and is either marked for a waiting entry of that camera or only released: it goes idle
      exactly if its hold is over, and has been idle since now unless it is pinned. */
  lemma EveryTileAfterATick(c: Config, s: Policy, now: int, i: nat)
    requires PolicyOk(s) && i < |s.tiles|
    ensures var (r, out) := Tick(c, s, now);
            var t, u := s.tiles[i], r.tiles[i];
            var over := t.active && now >= t.holdUntil;
            && (u.baseline, u.pinned) == (t.baseline, t.pinned)
            && (u.idleSince == if over && !t.pinned then now else t.idleSince)
            && ((exists ch :: ch in out && GivenBy(c, u, ch, i, now))
                || (Unnamed(out, i) && exists e :: e in s.queue && MarkedBy(c, t, u, e, !t.active || over, now))
                || (Unnamed(out, i) && OnlyReleased(t, u, over)))
  {
    hide Serve, ServeAll, Ordered, PriorityOf;
    OrderedIsALine(s.queue);
    var x0, order := FirstPass(s, now), Ordered(s.queue);
    var fate := PassFate(c, x0, order, now, i);
    var u, out := LastPass(c, s, now).tiles[i], Tick(c, s, now).1;
    match fate
    case Left => assert ExtendsWithout([], out, i);
    case Marked(e) =>
      SameEntries(s.queue, e);
      OutranksByPriority(e.kind, s.tiles[i].kind);
      OutranksByPriority(e.kind, None);
      assert MarkedBy(c, s.tiles[i], u, e, !s.tiles[i].active || now >= s.tiles[i].holdUntil, now);
      assert ExtendsWithout([], out, i);
    case Given(e) =>
      assert GivenBy(c, u, ChangeFor(c, i, e), i, now);
  }

  /** A pass shows a camera on a tile only for a waiting entry of that camera. */
  lemma ShownForItsEntries(c: Config, x: Pass, order: seq<Queued>, now: int, i: nat, row: int)
    requires Line(order) && i < |x.tiles| && forall k | 0 <= k < |order| :: order[k].row != row
    requires ServeAll(c, x, order, now).tiles[i].shown == row
    ensures x.tiles[i].shown == row
  {
    hide ServeAll;
    var fate := PassFate(c, x, order, now, i);
  }

  /** Up to its camera's turn, a tile that gets no change is as it was. */
  lemma UntouchedUntilItsTurn(c: Config, x: Pass, order: seq<Queued>, k: nat, now: int, i: nat)
    requires Line(order) && k < |order| && i < |x.tiles| && order[k].row == x.tiles[i].shown
    requires ExtendsWithout(x.out, ServeAll(c, x, order, now).out, i)
    ensures ServeAll(c, x, order[..k], now).tiles[i] == x.tiles[i]
  {
    hide ServeAll, Sorted;
    var y := ServeAll(c, x, order[..k], now);
    assert Sorted(order[..k]) by { FrontIsSorted(order, k); }
    var fate := PassFate(c, x, order[..k], now, i);
    if fate.Given? {
      var m :| |x.out| <= m < |y.out| && y.out[m] == ChangeFor(c, i, fate.entry);
      assert order[..k] + order[k..] == order;
      ServeAllSplits(c, x, order[..k], order[k..], now);
      OutOnlyGrows(c, y, order[k..], now);
      assert false;
    }
  }

  lemma FrontIsSorted(order: seq<Queued>, k: nat)
    requires Sorted(order) && k <= |order|
    ensures Sorted(order[..k])
  {
  }

  /** The first tile that shows the camera of a waiting entry, if no change names it, is marked for that entry. */
  lemma WaitingCameraIsMarkedWhereItShows(c: Config, s: Policy, now: int, i: nat, e: Queued)
    requires PolicyOk(s) && e in s.queue && FirstShowing(s.tiles, e.row, i) && Unnamed(Tick(c, s, now).1, i)
    ensures var t := s.tiles[i];
            MarkedBy(c, t, Tick(c, s, now).0.tiles[i], e, !t.active || now >= t.holdUntil, now)
  {
    hide Serve, ServeAll, Ordered, PriorityOf, Sorted;
    OrderedIsALine(s.queue);
    SameEntries(s.queue, e);
    var x0, order, t := FirstPass(s, now), Ordered(s.queue), s.tiles[i];
    var k :| 0 <= k < |order| && order[k] == e;
    assert ExtendsWithout([], Tick(c, s, now).1, i);
    UntouchedUntilItsTurn(c, x0, order, k, now, i);
    var x := ServeAll(c, x0, order[..k], now);
    FrontIsSorted(order, k);
    forall j | 0 <= j < i ensures x.tiles[j].shown != e.row {
      if x.tiles[j].shown == e.row { ShownForItsEntries(c, x0, order[..k], now, j, e.row); }
    }
    ServeMarks(c, x, e, now, i);
    ServeAllAt(c, x0, order, k, now);
    var y := Serve(c, x, e, now);
    assert Meets(c, x.tiles[i], y.tiles[i], Marked(e), now);
    TouchedIsNowSecured(c, x, e, now, i, Marked(e));
    if k + 1 < |order| {
      InTurn(order, k);
      SecuredForLess(c, y.tiles[i], e, order[k + 1], now);
    }
    BackIsSorted(order, k + 1);
    TheRestLeavesIt(c, y, order[k + 1..], now, i);
    OutranksByPriority(e.kind, t.kind);
    OutranksByPriority(e.kind, None);
  }

  lemma InTurn(order: seq<Queued>, k: nat)
    requires Sorted(order) && k + 1 < |order|
    ensures Before(order[k], order[k + 1])
  {
  }

  lemma BackIsSorted(order: seq<Queued>, k: nat)
    requires Sorted(order) && k <= |order|
    ensures Sorted(order[k..])
  {
  }

  lemma ServeMarks(c: Config, x: Pass, e: Queued, now: int, i: nat)
    requires FirstShowing(x.tiles, e.row, i)
    ensures Serve(c, x, e, now).tiles[i] == MarkedInPlace(c, x.tiles[i], e, now)
  {
    hide PickTile, Recent, Without, MarkedInPlace;
    assert TileShowing(x.tiles, e.row) == i;
  }

  // ---- a camera on a held tile, over runs ----

  /** The tile is held for this camera, shown since then, at least until then. */
  predicate HeldFor(t: Tile, row: int, since: int, until: int) {
    t.active && t.shown == row && t.shownSince == since && t.holdUntil >= until
  }

  /** The first change of tile i in the list is for AI activity, and comes when minShownMs have passed since. */
  predicate TakenForAi(c: Config, log: seq<Stamped>, i: nat, since: int) {
    exists m :: 0 <= m < |log| && TakesForAi(c, log[m], i, since) && forall k | 0 <= k < m :: log[k].change.tile != i
  }

  predicate TakesForAi(c: Config, ch: Stamped, i: nat, since: int) {
    ch.change.tile == i && ch.change.kind != None && ch.change.kind != Motion && ch.at - since >= c.minShownMs
  }

  predicate HeldOrTaken(c: Config, log: seq<Stamped>, tiles: seq<Tile>, i: nat, row: int, since: int, until: int) {
    || TakenForAi(c, log, i, since)
    || (i < |tiles| && HeldFor(tiles[i], row, since, until) && NoneFor(log, i))
  }

  lemma TakenEarlier(c: Config, log: seq<Stamped>, more: seq<Stamped>, i: nat, since: int)
    requires TakenForAi(c, log, i, since)
    ensures TakenForAi(c, log + more, i, since)
  {
    hide TakesForAi;
    var m :| 0 <= m < |log| && TakesForAi(c, log[m], i, since) && forall k | 0 <= k < m :: log[k].change.tile != i;
    assert (log + more)[m] == log[m] && forall k | 0 <= k < m :: (log + more)[k] == log[k];
  }

  lemma TakenLater(c: Config, log: seq<Stamped>, more: seq<Stamped>, i: nat, since: int)
    requires NoneFor(log, i) && TakenForAi(c, more, i, since)
    ensures TakenForAi(c, log + more, i, since)
  {
    hide TakesForAi;
    var m :| 0 <= m < |more| && TakesForAi(c, more[m], i, since) && forall k | 0 <= k < m :: more[k].change.tile != i;
    var n := |log| + m;
    assert (log + more)[n] == more[m];
    forall k | 0 <= k < n ensures (log + more)[k].change.tile != i {
      if k < |log| { assert log[k] in log; } else { assert (log + more)[k] == more[k - |log|]; }
    }
  }

  lemma NoneForBoth(log: seq<Stamped>, more: seq<Stamped>, i: nat)
    requires NoneFor(log, i) && NoneFor(more, i)
    ensures NoneFor(log + more, i)
  {
  }

  lemma StampAdds(now: int, out: seq<Change>, added: seq<Change>)
    ensures Stamp(now, out + added) == Stamp(now, out) + Stamp(now, added)
  {
  }

  lemma ServeHoldsOrTakes(c: Config, x: Pass, e: Queued, now: int, i: nat, row: int, since: int, until: int)
    requires HeldOrTaken(c, Stamp(now, x.out), x.tiles, i, row, since, until)
    ensures var y := Serve(c, x, e, now);
            HeldOrTaken(c, Stamp(now, y.out), y.tiles, i, row, since, until)
  {
    hide Serve, TakenForAi, NoneFor, HeldFor, Stamp;
    var y, log := Serve(c, x, e, now), Stamp(now, x.out);
    if TakenForAi(c, log, i, since) {
      ServeExtends(c, x, e, now);
      assert y.out == x.out + y.out[|x.out|..];
      StampAdds(now, x.out, y.out[|x.out|..]);
      TakenEarlier(c, log, Stamp(now, y.out[|x.out|..]), i, since);
    } else {
      var added := ServeHoldsOrTakesNow(c, x, e, now, i, row, since, until);
      StampAdds(now, x.out, added);
      if TakenForAi(c, Stamp(now, added), i, since) { TakenLater(c, log, Stamp(now, added), i, since); }
      else { NoneForBoth(log, Stamp(now, added), i); }
    }
  }

  lemma TakenAtOnce(c: Config, more: seq<Stamped>, i: nat, since: int)
    requires more != [] && TakesForAi(c, more[0], i, since)
    ensures TakenForAi(c, more, i, since)
  {
  }

  /** The tile stays held, and its camera with it, unless the entry takes it. */
  lemma ServeHoldsOrTakesNow(c: Config, x: Pass, e: Queued, now: int, i: nat, row: int, since: int, until: int)
      returns (added: seq<Change>)
    requires i < |x.tiles| && HeldFor(x.tiles[i], row, since, until)
    ensures Serve(c, x, e, now).out == x.out + added
    ensures HeldOrTaken(c, Stamp(now, added), Serve(c, x, e, now).tiles, i, row, since, until)
  {
    hide PickTile, TileShowing, Recent, Without, TakenForAi;
    var y := Serve(c, x, e, now);
    added := y.out[|x.out|..];
    if added != [] && added[0].tile == i { TakenAtOnce(c, Stamp(now, added), i, since); }
  }

  lemma TickHoldsOrTakes(c: Config, s: Policy, now: int, i: nat, row: int, since: int, until: int)
    requires i < |s.tiles| && HeldFor(s.tiles[i], row, since, until) && now < until
    ensures HeldOrTaken(c, Stamp(now, Tick(c, s, now).1), Tick(c, s, now).0.tiles, i, row, since, until)
  {
    hide Serve, Ordered, HeldOrTaken;
    var x := FirstPass(s, now);
    NotYetTaken(c, x, now, i, row, since, until);
    forall y: Pass, e | HeldOrTaken(c, Stamp(now, y.out), y.tiles, i, row, since, until)
      ensures var z := Serve(c, y, e, now);
              HeldOrTaken(c, Stamp(now, z.out), z.tiles, i, row, since, until)
    {
      ServeHoldsOrTakes(c, y, e, now, i, row, since, until);
    }
    var inv := (y: Pass) => HeldOrTaken(c, Stamp(now, y.out), y.tiles, i, row, since, until);
    ServeAllKeeps(c, inv, x, Ordered(s.queue), now);
  }

  lemma NotYetTaken(c: Config, x: Pass, now: int, i: nat, row: int, since: int, until: int)
    requires i < |x.tiles| && HeldFor(x.tiles[i], row, since, until) && x.out == []
    ensures HeldOrTaken(c, Stamp(now, x.out), x.tiles, i, row, since, until)
  {
  }

  lemma CallHoldsOrTakes(c: Config, s: Policy, op: Op, i: nat, row: int, since: int, until: int)
    requires i < |s.tiles| && HeldFor(s.tiles[i], row, since, until)
    requires SameGrid(|s.tiles|, [op]) && (Timed(op) ==> op.now < until)
    ensures HeldOrTaken(c, Said(c, s, op), Apply(c, s, op).tiles, i, row, since, until)
  {
    hide Tick, TileShowing, TakenForAi;
    GridIsKept(c, s, op);
    assert [op][0] == op;
    if op.OpTick? { TickHoldsOrTakes(c, s, op.now, i, row, since, until); }
  }

  lemma {:induction false} HeldOrTakenThroughout(c: Config, s: Policy, ops: seq<Op>, i: nat, row: int, since: int,
      until: int)
    requires i < |s.tiles| && HeldFor(s.tiles[i], row, since, until) && SameGrid(|s.tiles|, ops)
    requires forall k | 0 <= k < |ops| && Timed(ops[k]) :: ops[k].now < until
    ensures HeldOrTaken(c, Log(c, s, ops), Run(c, s, ops).tiles, i, row, since, until)
    decreases |ops|
  {
    hide Apply, Said, HeldFor, TakenForAi;
    if ops != [] {
      var s' := Apply(c, s, ops[0]);
      RestOfGrid(|s.tiles|, ops);
      GridIsKept(c, s, ops[0]);
      CallHoldsOrTakes(c, s, ops[0], i, row, since, until);
      assert forall k | 0 <= k < |ops| - 1 :: ops[1..][k] == ops[k + 1];
      if TakenForAi(c, Said(c, s, ops[0]), i, since) {
        TakenEarlier(c, Said(c, s, ops[0]), Log(c, s', ops[1..]), i, since);
      } else {
        HeldOrTakenThroughout(c, s', ops[1..], i, row, since, until);
        if TakenForAi(c, Log(c, s', ops[1..]), i, since) {
          TakenLater(c, Said(c, s, ops[0]), Log(c, s', ops[1..]), i, since);
        }
      }
    }
  }

  /** Whatever is called before its hold ends, a held tile keeps its camera, active and without a change, unless AI
      activity takes it when the camera has been shown for minShownMs. */
  lemma HeldTileKeepsItsCamera(c: Config, s: Policy, ops: seq<Op>, i: nat)
    requires i < |s.tiles| && s.tiles[i].active && SameGrid(|s.tiles|, ops)
    requires forall k | 0 <= k < |ops| && Timed(ops[k]) :: ops[k].now < s.tiles[i].holdUntil
    ensures var t, r := s.tiles[i], Run(c, s, ops);
            || TakenForAi(c, Log(c, s, ops), i, t.shownSince)
            || (NoneFor(Log(c, s, ops), i) && ShowsActive(r, i, t.shown))
  {
    hide Log, Run, SameGrid, TakenForAi;
    var t := s.tiles[i];
    HeldOrTakenThroughout(c, s, ops, i, t.shown, t.shownSince, t.holdUntil);
  }

  /** So after any detection that counts on a shown camera, of whatever kind, its tile keeps it until holdMs after that
      detection, unless AI activity takes the tile when the camera has been shown for minShownMs. */
  lemma DetectionKeepsTheCamera(c: Config, s: Policy, row: int, kind: Kind, now: int, trigger: int, i: nat,
      ops: seq<Op>)
    requires row !in s.excluded && kind != None && (s.trackAll || kind in s.tracked)
    requires FirstShowing(s.tiles, row, i) && SameGrid(|s.tiles|, ops)
    requires forall k | 0 <= k < |ops| && Timed(ops[k]) :: ops[k].now < now + c.holdMs
    ensures var s' := Detect(c, s, row, kind, now, trigger);
            var since := if s.tiles[i].active then s.tiles[i].shownSince else now;
            || TakenForAi(c, Log(c, s', ops), i, since)
            || (NoneFor(Log(c, s', ops), i) && ShowsActive(Run(c, s', ops), i, row))
  {
    hide Log, Run, SameGrid, TakenForAi, Detect;
    DetectionHoldsTheTile(c, s, row, kind, now, trigger, i);
    var s' := Detect(c, s, row, kind, now, trigger);
    assert SameGrid(|s'.tiles|, ops);
    HeldTileKeepsItsCamera(c, s', ops, i);
  }

  /** The same for a camera that a tick gave a tile: every change of the tick holds its tile so. */
  lemma GrantKeepsTheCamera(c: Config, s: Policy, now: int, m: nat, ops: seq<Op>)
    requires PolicyOk(s) && m < |Tick(c, s, now).1| && SameGrid(|s.tiles|, ops)
    requires forall k | 0 <= k < |ops| && Timed(ops[k]) :: ops[k].now < now + c.holdMs
    ensures var (s', out) := Tick(c, s, now);
            || TakenForAi(c, Log(c, s', ops), out[m].tile, now)
            || (NoneFor(Log(c, s', ops), out[m].tile) && ShowsActive(Run(c, s', ops), out[m].tile, out[m].row))
  {
    hide Log, Run, SameGrid, TakenForAi, Tick, MarkedBy, OnlyReleased;
    var (s', out) := Tick(c, s, now);
    ReplayingTheChangesGivesThePicture(c, s, now);
    EveryTileAfterATick(c, s, now, out[m].tile);
    var ch :| ch in out && GivenBy(c, s'.tiles[out[m].tile], ch, out[m].tile, now);
    var k :| 0 <= k < |out| && out[k] == ch;
    assert k == m;
    HeldTileKeepsItsCamera(c, s', ops, out[m].tile);
  }
}
