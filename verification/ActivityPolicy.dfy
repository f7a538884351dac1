/**
The tile policy as the program runs it: one object whose fields every call updates in place.
Each method is tied to the value-level call of the same name in TilePolicy.
 */
module ActivityPolicyObject {
  import opened Arithmetic
  import opened TilePolicy

  class ActivityPolicy {
    const c: Config
    var tiles: seq<Tile>
    var queue: seq<Queued>
    var excluded: set<int>
    var tracked: set<Kind>
    var trackAll: bool
    var starts: map<int, seq<int>>
    var nextNumber: int

    ghost function View(): Policy
      reads this
    {
      Policy(tiles, queue, excluded, tracked, trackAll, starts, nextNumber)
    }

    constructor (c: Config)
      ensures this.c == c
      ensures View() == Policy([], [], {}, {}, true, map[], 0)
    {
      this.c := c;
      tiles, queue, excluded, tracked, trackAll, starts, nextNumber := [], [], {}, {}, true, map[], 0;
    }

    method SetBaseline(rows: seq<int>)
      modifies this
      ensures View() == TilePolicy.SetBaseline(old(View()), rows)
    {
      ghost var s := View();
      var had := |tiles|;
      // resize: keep the first |rows| tiles, add fresh ones
      tiles := seq(|rows|, i requires 0 <= i < |rows| reads this => if i < |tiles| then tiles[i] else FRESH_TILE);
      var i := 0;
      while i < |rows|
        invariant 0 <= i <= |rows| == |tiles|
        invariant forall k | 0 <= k < i :: tiles[k] == Rebased(s, rows, k)
        invariant forall k | i <= k < |rows| :: tiles[k] == if k < |s.tiles| then s.tiles[k] else FRESH_TILE
        invariant View() == s.(tiles := tiles)
      {
        var t := tiles[i];
        var changed := i >= had || t.baseline != rows[i];
        t := t.(baseline := rows[i]);
        if changed && !t.active {
          t := t.(shown := rows[i]);
        }
        tiles := tiles[i := t];
        i := i + 1;
      }
      assert tiles == TilePolicy.SetBaseline(s, rows).tiles;
    }

    method SetPinned(tile: int, pinned: bool)
      modifies this
      ensures View() == TilePolicy.SetPinned(old(View()), tile, pinned)
    {
      if tile >= 0 && tile < |tiles| {
        tiles := tiles[tile := tiles[tile].(pinned := pinned)];
      }
    }

    method SetExcluded(row: int, exclude: bool)
      modifies this
      ensures View() == TilePolicy.SetExcluded(old(View()), row, exclude)
    {
      if exclude {
        excluded := excluded + {row};
      } else {
        excluded := excluded - {row};
      }
    }

    method SetTracked(kinds: set<Kind>)
      modifies this
      ensures View() == TilePolicy.SetTracked(old(View()), kinds)
    {
      tracked, trackAll := kinds, false;
    }

    method Reset()
      modifies this
      ensures View() == TilePolicy.Reset(old(View()))
    {
      ghost var s := View();
      queue := [];
      starts := map[];
      var i := 0;
      while i < |tiles|
        invariant 0 <= i <= |tiles| == |s.tiles|
        invariant forall k | 0 <= k < i :: tiles[k] == Cleared(s.tiles[k])
        invariant forall k | i <= k < |tiles| :: tiles[k] == s.tiles[k]
        invariant View() == s.(tiles := tiles, queue := [], starts := map[])
      {
        tiles := tiles[i := tiles[i].(shown := tiles[i].baseline, active := false, kind := None)];
        i := i + 1;
      }
      assert tiles == TilePolicy.Reset(s).tiles;
    }

    /** The waiting cameras in serving order; the queue itself stays as it is. */
    method QueuedRows() returns (rows: seq<int>)
      ensures rows == Rows(Ordered(queue))
    {
      var q := Ordered(queue);
      rows := [];
      var i := 0;
      while i < |q|
        invariant 0 <= i <= |q| && |rows| == i
        invariant forall k | 0 <= k < i :: rows[k] == q[k].row
      {
        rows := rows + [q[i].row];
        i := i + 1;
      }
    }

    method FindShowing(row: int) returns (t: int)
      ensures t == TileShowing(tiles, row)
    {
      var i := 0;
      while i < |tiles|
        invariant 0 <= i <= |tiles|
        invariant forall k | 0 <= k < i :: tiles[k].shown != row
      {
        if tiles[i].shown == row {
          return i;
        }
        i := i + 1;
      }
      return -1;
    }

    method Detect(row: int, kind: Kind, now: int, trigger: int)
      modifies this
      ensures View() == TilePolicy.Detect(c, old(View()), row, kind, now, trigger)
    {
      hide TileShowing, WaitingAmong;
      var began := trigger;
      if trigger < 0 {
        began := now;
      }
      if row in excluded || kind == None || (!trackAll && kind !in tracked) {
        return;
      }
      var t := FindShowing(row);
      if t >= 0 {
        var ts := tiles[t];
        if !ts.active {
          ts := ts.(active := true, shownSince := now, kind := kind, triggerMs := began);
        } else if PriorityOf(kind) > PriorityOf(ts.kind) {
          ts := ts.(kind := kind);
        }
        ts := ts.(holdUntil := Max(ts.holdUntil, now + c.holdMs));
        tiles := tiles[t := ts];
        return;
      }
      var i := 0;
      while i < |queue|
        invariant 0 <= i <= |queue|
        invariant View() == old(View())
        invariant forall k | 0 <= k < i :: queue[k].row != row
      {
        if queue[i].row == row {
          assert i == WaitingAmong(queue, row, |queue|);
          if PriorityOf(kind) > PriorityOf(queue[i].kind) {
            queue := queue[i := queue[i].(kind := kind)];
          }
          return;
        }
        i := i + 1;
      }
      queue := queue + [Queued(row, kind, began, nextNumber)];
      nextNumber := nextNumber + 1;
    }

    method FindFree() returns (best: int)
      ensures best == FreeAmong(tiles, |tiles|)
    {
      best := -1;
      var i := 0;
      while i < |tiles|
        invariant 0 <= i <= |tiles|
        invariant best == FreeAmong(tiles, i)
      {
        var t := tiles[i];
        if !(t.pinned || t.active) && (best < 0 || t.idleSince < tiles[best].idleSince) {
          best := i;
        }
        i := i + 1;
      }
    }

    method FindTakeable(now: int) returns (best: int)
      ensures best == TakeableAmong(c, tiles, now, |tiles|)
    {
      best := -1;
      var i := 0;
      while i < |tiles|
        invariant 0 <= i <= |tiles|
        invariant best == TakeableAmong(c, tiles, now, i)
      {
        var t := tiles[i];
        if !(t.pinned || !t.active || t.kind != Motion || now - t.shownSince < c.minShownMs)
           && (best < 0 || t.holdUntil < tiles[best].holdUntil) {
          best := i;
        }
        i := i + 1;
      }
    }

    /** Searches the free tiles, and where there is none and the activity is AI the tiles it may take from motion. */
    method ChooseTile(kind: Kind, now: int) returns (best: int)
      ensures best == PickTile(c, tiles, kind, now)
    {
      hide FreeAmong, TakeableAmong;
      best := FindFree();
      if best >= 0 || PriorityOf(kind) < 2 {
        return;
      }
      best := FindTakeable(now);
    }

    method StartAllowed(host: int, now: int) returns (ok: bool)
      modifies this`starts
      ensures starts == old(starts)[host := Recent(c, old(starts), host, now)]
      ensures ok == (|Recent(c, old(starts), host, now)| < c.maxStartsPerHost)
    {
      var l := if host in starts then starts[host] else [];
      while l != [] && l[0] <= now - c.startWindowMs
        invariant Pruned(l, now - c.startWindowMs) == Recent(c, old(starts), host, now)
        decreases |l|
      {
        l := l[1..];
      }
      starts := starts[host := l];
      ok := |l| < c.maxStartsPerHost;
    }

    method Forget(number: int)
      modifies this`queue
      ensures queue == Without(old(queue), number)
    {
      var kept := [];
      var i := 0;
      while i < |queue|
        invariant 0 <= i <= |queue| && queue == old(queue)
        invariant kept + Without(queue[i..], number) == Without(queue, number)
      {
        if queue[i].number != number {
          kept := kept + [queue[i]];
        }
        i := i + 1;
      }
      queue := kept;
    }

    method ReleaseTiles(now: int)
      modifies this`tiles
      ensures tiles == ReleaseAll(old(tiles), now)
    {
      var i := 0;
      while i < |tiles|
        invariant 0 <= i <= |tiles| == |old(tiles)|
        invariant forall k | 0 <= k < i :: tiles[k] == Released(old(tiles)[k], now)
        invariant forall k | i <= k < |tiles| :: tiles[k] == old(tiles)[k]
      {
        var t := tiles[i];
        if t.active && !t.pinned && now >= t.holdUntil {
          tiles := tiles[i := t.(active := false, kind := None, idleSince := now)];
        } else if t.active && t.pinned && now >= t.holdUntil {
          tiles := tiles[i := t.(active := false, kind := None)];
        }
        i := i + 1;
      }
    }

    /** The camera of a waiting entry is on screen already: the tile is marked in place. */
    method MarkInPlace(existing: nat, q: Queued, now: int)
      requires existing < |tiles|
      modifies this`tiles
      ensures tiles == old(tiles)[existing := MarkedInPlace(c, old(tiles)[existing], q, now)]
    {
      var ts := tiles[existing];
      if !ts.active {
        ts := ts.(active := true, shownSince := now, triggerMs := q.trigger);
      }
      ts := ts.(kind := if PriorityOf(q.kind) > PriorityOf(ts.kind) then q.kind else ts.kind);
      ts := ts.(holdUntil := Max(ts.holdUntil, now + c.holdMs));
      tiles := tiles[existing := ts];
    }

    /** The tile goes to the entry's camera. */
    method Grant(tile: nat, q: Queued, now: int) returns (ch: Change)
      requires tile < |tiles|
      modifies this`tiles
      ensures tiles == old(tiles)[tile := Granted(c, old(tiles)[tile], q, now)]
      ensures ch == ChangeFor(c, tile, q)
    {
      tiles := tiles[tile := tiles[tile].(shown := q.row, active := true, kind := q.kind, shownSince := now,
                                          holdUntil := now + c.holdMs, triggerMs := q.trigger)];
      ch := Change(tile, q.row, true, q.kind, q.trigger, q.trigger - c.replayLeadMs);
    }

    method RecordStart(host: int, now: int)
      requires host in starts
      modifies this`starts
      ensures starts == old(starts)[host := old(starts)[host] + [now]]
    {
      starts := starts[host := starts[host] + [now]];
    }

    /** One turn of the loop over the waiting entries. */
    method ServeEntry(q: Queued, now: int, out: seq<Change>) returns (out': seq<Change>)
      modifies this`tiles, this`queue, this`starts
      ensures Pass(tiles, queue, starts, out') == Serve(c, Pass(old(tiles), old(queue), old(starts), out), q, now)
    {
      hide TileShowing, PickTile, MarkedInPlace, Granted, ChangeFor, Recent, Without;
      out' := out;
      var existing := FindShowing(q.row);
      if existing >= 0 {
        MarkInPlace(existing, q, now);
        Forget(q.number);
        return;
      }
      var tile := ChooseTile(q.kind, now);
      if tile < 0 {
        return;
      }
      var host := c.hostOf(q.row);
      var ok := StartAllowed(host, now);
      if !ok {
        return;
      }
      RecordStart(host, now);
      assert starts == old(starts)[host := Recent(c, old(starts), host, now) + [now]];
      var ch := Grant(tile, q, now);
      out' := out + [ch];
      Forget(q.number);
    }

    method Tick(now: int) returns (out: seq<Change>)
      modifies this
      ensures (View(), out) == TilePolicy.Tick(c, old(View()), now)
    {
      out := [];
      ReleaseTiles(now);
      var order := Ordered(queue);
      ghost var x := Pass(tiles, queue, starts, []);
      assert x == FirstPass(old(View()), now);
      var i := 0;
      while i < |order|
        invariant 0 <= i <= |order|
        invariant ServeAll(c, Pass(tiles, queue, starts, out), order[i..], now) == ServeAll(c, x, order, now)
        invariant View() == old(View()).(tiles := tiles, queue := queue, starts := starts)
      {
        assert order[i..][0] == order[i] && order[i..][1..] == order[i + 1..];
        out := ServeEntry(order[i], now, out);
        i := i + 1;
      }
    }
  }
}
