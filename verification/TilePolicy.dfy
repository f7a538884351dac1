/**
Activity mode's tile policy as a value: the state of the scheduler and what each call does to it.
The class in ActivityPolicy.dfy performs the same calls in place and is proved to agree;
Ticks.dfy and Runs.dfy prove what the policy promises.
 */
module TilePolicy {
  import opened Arithmetic

  datatype Kind = None | Motion | Person | Vehicle | Pet | Visitor

  function PriorityOf(k: Kind): (p: int)
    ensures 0 <= p <= 2
  {
    if k == Motion then 1 else if k == None then 0 else 2
  }

  /** Tunables plus the camera-to-NVR lookup, both fixed for a run. */
  datatype Config = Config(
    holdMs: int, minShownMs: int, replayLeadMs: int, maxStartsPerHost: int, startWindowMs: int,
    hostOf: int -> int)

  datatype Tile = Tile(
    baseline: int, shown: int, active: bool, pinned: bool, kind: Kind,
    shownSince: int, holdUntil: int, triggerMs: int, idleSince: int)

  const FRESH_TILE := Tile(-1, -1, false, false, None, 0, 0, 0, 0)

  datatype Queued = Queued(row: int, kind: Kind, trigger: int, number: int)

  datatype Change = Change(tile: nat, row: int, activity: bool, kind: Kind, triggerMs: int, replayFromMs: int)

  datatype Policy = Policy(
    tiles: seq<Tile>, queue: seq<Queued>, excluded: set<int>, tracked: set<Kind>, trackAll: bool,
    starts: map<int, seq<int>>, nextNumber: int)

  // ---- lookups ----

  /** The first tile among the first n that shows `row`, or -1. */
  function ShowingAmong(tiles: seq<Tile>, row: int, n: nat): (t: int)
    requires n <= |tiles|
    ensures -1 <= t < n
    ensures t >= 0 ==> tiles[t].shown == row && forall i | 0 <= i < t :: tiles[i].shown != row
    ensures t < 0 ==> forall i | 0 <= i < n :: tiles[i].shown != row
  {
    if n == 0 then -1
    else
      var t := ShowingAmong(tiles, row, n - 1);
      if t >= 0 then t else if tiles[n - 1].shown == row then n - 1 else -1
  }

  function TileShowing(tiles: seq<Tile>, row: int): (t: int)
    ensures -1 <= t < |tiles|
    ensures t >= 0 ==> tiles[t].shown == row && forall i | 0 <= i < t :: tiles[i].shown != row
    ensures t < 0 ==> forall i | 0 <= i < |tiles| :: tiles[i].shown != row
  {
    ShowingAmong(tiles, row, |tiles|)
  }

  /** A tile new activity may take without displacing anything. */
  predicate Free(t: Tile) { !t.pinned && !t.active }

  /** A tile only AI activity may take: held for motion and shown its minimum time. */
  predicate Takeable(c: Config, t: Tile, now: int) {
    && !t.pinned && t.active && t.kind == Motion
    && now - t.shownSince >= c.minShownMs
  }

  function FreeAmong(tiles: seq<Tile>, n: nat): (best: int)
    requires n <= |tiles|
    ensures -1 <= best < n
    ensures best >= 0 ==> Free(tiles[best])
    ensures best >= 0 ==> forall i | 0 <= i < n && Free(tiles[i]) ::
      tiles[best].idleSince < tiles[i].idleSince || (tiles[best].idleSince == tiles[i].idleSince && best <= i)
    ensures best < 0 ==> forall i | 0 <= i < n :: !Free(tiles[i])
  {
    if n == 0 then -1
    else
      var best := FreeAmong(tiles, n - 1);
      if Free(tiles[n - 1]) && (best < 0 || tiles[n - 1].idleSince < tiles[best].idleSince) then n - 1 else best
  }

  function TakeableAmong(c: Config, tiles: seq<Tile>, now: int, n: nat): (best: int)
    requires n <= |tiles|
    ensures -1 <= best < n
    ensures best >= 0 ==> Takeable(c, tiles[best], now)
    ensures best >= 0 ==> forall i | 0 <= i < n && Takeable(c, tiles[i], now) ::
      tiles[best].holdUntil < tiles[i].holdUntil || (tiles[best].holdUntil == tiles[i].holdUntil && best <= i)
    ensures best < 0 ==> forall i | 0 <= i < n :: !Takeable(c, tiles[i], now)
  {
    if n == 0 then -1
    else
      var best := TakeableAmong(c, tiles, now, n - 1);
      if Takeable(c, tiles[n - 1], now) && (best < 0 || tiles[n - 1].holdUntil < tiles[best].holdUntil)
      then n - 1
      else best
  }

  /** Of two tiles an entry may take, at positions ai and bi, the first goes before the second: free before held, among
      the free the one idle longest, among the held the one whose hold ends first, and the first among equals. */
  predicate GoesFirst(a: Tile, ai: nat, b: Tile, bi: nat) {
    if Free(b) then Free(a) && (a.idleSince < b.idleSince || (a.idleSince == b.idleSince && ai <= bi))
    else Free(a) || a.holdUntil < b.holdUntil || (a.holdUntil == b.holdUntil && ai <= bi)
  }

  /** The tile may go to an entry of this kind. */
  predicate MayTake(c: Config, t: Tile, kind: Kind, now: int) {
    Free(t) || (PriorityOf(kind) == 2 && Takeable(c, t, now))
  }

  /** The first free tile in idle order; without one, and for AI activity, the first takeable one in hold order. */
  function PickTile(c: Config, tiles: seq<Tile>, kind: Kind, now: int): (t: int)
    ensures -1 <= t < |tiles|
    ensures t >= 0 ==> MayTake(c, tiles[t], kind, now)
    ensures t >= 0 ==> forall i | 0 <= i < |tiles| && MayTake(c, tiles[i], kind, now) ::
                         GoesFirst(tiles[t], t, tiles[i], i)
    ensures t < 0 ==> forall i | 0 <= i < |tiles| :: !MayTake(c, tiles[i], kind, now)
  {
    var best := FreeAmong(tiles, |tiles|);
    if best >= 0 || PriorityOf(kind) < 2 then best else TakeableAmong(c, tiles, now, |tiles|)
  }

  // ---- the start budget ----

  /** The starts still inside the window that ends at `now`. */
  function Pruned(l: seq<int>, edge: int): (r: seq<int>)
    ensures |r| <= |l|
  {
    if l != [] && l[0] <= edge then Pruned(l[1..], edge) else l
  }

  /** Only a front part goes, all of it at or before the edge, and what is left begins after it. */
  lemma {:induction false} PrunedIsAnEnd(l: seq<int>, edge: int)
    ensures var r := Pruned(l, edge);
            && r == l[|l| - |r|..]
            && (forall i | 0 <= i < |l| - |r| :: l[i] <= edge)
            && (r != [] ==> r[0] > edge)
  {
    if l != [] && l[0] <= edge {
      PrunedIsAnEnd(l[1..], edge);
    }
  }

  function StartsOf(starts: map<int, seq<int>>, host: int): seq<int> {
    if host in starts then starts[host] else []
  }

  function Recent(c: Config, starts: map<int, seq<int>>, host: int, now: int): seq<int> {
    Pruned(StartsOf(starts, host), now - c.startWindowMs)
  }

  predicate BudgetSpent(c: Config, starts: map<int, seq<int>>, host: int, now: int) {
    |Recent(c, starts, host, now)| >= c.maxStartsPerHost
  }

  // ---- the order in which waiting entries are served ----

  predicate Before(a: Queued, b: Queued) {
    PriorityOf(a.kind) > PriorityOf(b.kind) || (PriorityOf(a.kind) == PriorityOf(b.kind) && a.number <= b.number)
  }

  function Insert(e: Queued, s: seq<Queued>): (r: seq<Queued>)
    ensures |r| == |s| + 1
  {
    if s == [] then [e]
    else if Before(e, s[0]) then [e] + s
    else [s[0]] + Insert(e, s[1..])
  }

  /** Most urgent first; the library's stable sort, written as insertion. */
  function Ordered(q: seq<Queued>): (r: seq<Queued>)
    ensures |r| == |q|
  {
    if q == [] then [] else Insert(q[0], Ordered(q[1..]))
  }

  function Rows(q: seq<Queued>): (r: seq<int>)
    ensures |r| == |q|
    ensures forall i | 0 <= i < |q| :: r[i] == q[i].row
  {
    seq(|q|, i requires 0 <= i < |q| => q[i].row)
  }

  function Without(q: seq<Queued>, number: int): (r: seq<Queued>)
    ensures |r| <= |q|
  {
    if q == [] then []
    else if q[0].number == number then Without(q[1..], number)
    else [q[0]] + Without(q[1..], number)
  }

  // ---- the calls ----

  function Rebased(s: Policy, rows: seq<int>, i: nat): Tile
    requires i < |rows|
  {
    var t := if i < |s.tiles| then s.tiles[i] else FRESH_TILE;
    var changed := i >= |s.tiles| || t.baseline != rows[i];
    t.(baseline := rows[i], shown := if changed && !t.active then rows[i] else t.shown)
  }

  function SetBaseline(s: Policy, rows: seq<int>): Policy {
    s.(tiles := seq(|rows|, i requires 0 <= i < |rows| => Rebased(s, rows, i)))
  }

  function SetPinned(s: Policy, tile: int, pinned: bool): Policy {
    if 0 <= tile < |s.tiles| then s.(tiles := s.tiles[tile := s.tiles[tile].(pinned := pinned)]) else s
  }

  function SetExcluded(s: Policy, row: int, excluded: bool): Policy {
    s.(excluded := if excluded then s.excluded + {row} else s.excluded - {row})
  }

  function SetTracked(s: Policy, kinds: set<Kind>): Policy {
    s.(tracked := kinds, trackAll := false)
  }

  function Cleared(t: Tile): Tile {
    t.(shown := t.baseline, active := false, kind := None)
  }

  function Reset(s: Policy): Policy {
    s.(queue := [], starts := map[], tiles := seq(|s.tiles|, i requires 0 <= i < |s.tiles| => Cleared(s.tiles[i])))
  }

  predicate Counts(s: Policy, row: int, kind: Kind) {
    && row !in s.excluded && kind != None
    && (s.trackAll || kind in s.tracked)
  }

  /** A detection on a camera that is already on screen marks or extends its tile. */
  function Noticed(c: Config, t: Tile, kind: Kind, now: int, trigger: int): Tile {
    var m := if !t.active then t.(active := true, shownSince := now, kind := kind, triggerMs := trigger)
             else if PriorityOf(kind) > PriorityOf(t.kind) then t.(kind := kind) else t;
    m.(holdUntil := Max(m.holdUntil, now + c.holdMs))
  }

  function WaitingAmong(q: seq<Queued>, row: int, n: nat): (k: int)
    requires n <= |q|
    ensures -1 <= k < n
    ensures k >= 0 ==> q[k].row == row && forall i | 0 <= i < k :: q[i].row != row
    ensures k < 0 ==> forall i | 0 <= i < n :: q[i].row != row
  {
    if n == 0 then -1
    else
      var k := WaitingAmong(q, row, n - 1);
      if k >= 0 then k else if q[n - 1].row == row then n - 1 else -1
  }

  function Upgraded(e: Queued, kind: Kind): Queued {
    if PriorityOf(kind) > PriorityOf(e.kind) then e.(kind := kind) else e
  }

  function Detect(c: Config, s: Policy, row: int, kind: Kind, now: int, trigger: int): Policy {
    var began := if trigger < 0 then now else trigger;
    if !Counts(s, row, kind) then s
    else
      var t := TileShowing(s.tiles, row);
      if t >= 0 then s.(tiles := s.tiles[t := Noticed(c, s.tiles[t], kind, now, began)])
      else
        var k := WaitingAmong(s.queue, row, |s.queue|);
        if k >= 0 then s.(queue := s.queue[k := Upgraded(s.queue[k], kind)])
        else s.(queue := s.queue + [Queued(row, kind, began, s.nextNumber)], nextNumber := s.nextNumber + 1)
  }

  /** The end of a hold frees the tile, unless it is pinned: then only its mark goes. */
  function Released(t: Tile, now: int): Tile {
    if t.active && now >= t.holdUntil then
      if t.pinned then t.(active := false, kind := None)
      else t.(active := false, kind := None, idleSince := now)
    else t
  }

  function ReleaseAll(tiles: seq<Tile>, now: int): (r: seq<Tile>)
    ensures |r| == |tiles|
    ensures forall i | 0 <= i < |tiles| :: r[i] == Released(tiles[i], now)
  {
    seq(|tiles|, i requires 0 <= i < |tiles| => Released(tiles[i], now))
  }

  /** What one pass over the waiting entries works on. */
  datatype Pass = Pass(tiles: seq<Tile>, queue: seq<Queued>, starts: map<int, seq<int>>, out: seq<Change>)

  /** The camera appeared on screen while its entry waited. */
  function MarkedInPlace(c: Config, t: Tile, e: Queued, now: int): Tile {
    var m := if !t.active then t.(active := true, shownSince := now, triggerMs := e.trigger) else t;
    m.(kind := if PriorityOf(e.kind) > PriorityOf(m.kind) then e.kind else m.kind,
       holdUntil := Max(m.holdUntil, now + c.holdMs))
  }

  function Granted(c: Config, t: Tile, e: Queued, now: int): Tile {
    t.(shown := e.row, active := true, kind := e.kind, shownSince := now,
       holdUntil := now + c.holdMs, triggerMs := e.trigger)
  }

  function ChangeFor(c: Config, tile: nat, e: Queued): Change {
    Change(tile, e.row, true, e.kind, e.trigger, e.trigger - c.replayLeadMs)
  }

  function Serve(c: Config, x: Pass, e: Queued, now: int): (y: Pass)
    ensures |y.tiles| == |x.tiles|
  {
    var existing := TileShowing(x.tiles, e.row);
    if existing >= 0 then
      x.(tiles := x.tiles[existing := MarkedInPlace(c, x.tiles[existing], e, now)], queue := Without(x.queue, e.number))
    else
      var t := PickTile(c, x.tiles, e.kind, now);
      if t < 0 then x
      else
        var host := c.hostOf(e.row);
        var recent := Recent(c, x.starts, host, now);
        if |recent| >= c.maxStartsPerHost then x.(starts := x.starts[host := recent])
        else
          Pass(x.tiles[t := Granted(c, x.tiles[t], e, now)],
               Without(x.queue, e.number),
               x.starts[host := recent + [now]],
               x.out + [ChangeFor(c, t, e)])
  }

  function ServeAll(c: Config, x: Pass, order: seq<Queued>, now: int): (y: Pass)
    ensures |y.tiles| == |x.tiles|
    decreases |order|
  {
    if order == [] then x else ServeAll(c, Serve(c, x, order[0], now), order[1..], now)
  }

  function FirstPass(s: Policy, now: int): Pass {
    Pass(ReleaseAll(s.tiles, now), s.queue, s.starts, [])
  }

  function LastPass(c: Config, s: Policy, now: int): (y: Pass)
    ensures |y.tiles| == |s.tiles|
  {
    ServeAll(c, FirstPass(s, now), Ordered(s.queue), now)
  }

  function Tick(c: Config, s: Policy, now: int): (r: (Policy, seq<Change>))
    ensures |r.0.tiles| == |s.tiles|
  {
    var y := LastPass(c, s, now);
    (s.(tiles := y.tiles, queue := y.queue, starts := y.starts), y.out)
  }
}
