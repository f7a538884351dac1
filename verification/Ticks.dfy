/**
What one call of the tile policy guarantees: nothing waiting is lost, nobody overtakes, no tile
is left idle without reason, pinned and held tiles are respected, and the reported changes are
exactly the changes made.
 */
module TickProperties {
  import opened TilePolicy

  // ---- well-formed states ----

  /** Only real kinds wait, and no camera or number twice. */
  predicate QueueOk(q: seq<Queued>) {
    forall i, j | 0 <= i <= j < |q| ::
      q[i].kind != None && (i < j ==> q[i].row != q[j].row && q[i].number != q[j].number)
  }

  /** Exactly the active tiles have a kind. */
  predicate TilesOk(tiles: seq<Tile>) {
    forall i | 0 <= i < |tiles| :: tiles[i].active <==> tiles[i].kind != None
  }

  /** Kept by every call (PolicyOkIsKept in RunProperties). */
  predicate PolicyOk(s: Policy) {
    && QueueOk(s.queue)
    && TilesOk(s.tiles)
    && forall i | 0 <= i < |s.queue| :: s.queue[i].number < s.nextNumber
  }

  // ---- the serving order ----

  predicate Sorted(q: seq<Queued>) {
    forall i, j | 0 <= i < j < |q| :: Before(q[i], q[j])
  }

  predicate Disjoint(e: Queued, q: seq<Queued>) {
    forall i | 0 <= i < |q| :: q[i].row != e.row && q[i].number != e.number
  }

  lemma {:induction false} InsertKeepsEntries(e: Queued, s: seq<Queued>)
    ensures multiset(Insert(e, s)) == multiset(s) + multiset{e}
  {
    if s != [] {
      assert s == [s[0]] + s[1..];
      if !Before(e, s[0]) { InsertKeepsEntries(e, s[1..]); }
    }
  }

  lemma {:induction false} InsertedEntries(e: Queued, s: seq<Queued>, x: Queued)
    ensures x in Insert(e, s) <==> x == e || x in s
  {
    if s != [] {
      assert s == [s[0]] + s[1..];
      if !Before(e, s[0]) { InsertedEntries(e, s[1..], x); }
    }
  }

  lemma {:induction false} InsertKeepsSorted(e: Queued, s: seq<Queued>)
    requires Sorted(s)
    ensures Sorted(Insert(e, s))
  {
    if s != [] && !Before(e, s[0]) {
      InsertKeepsSorted(e, s[1..]);
      var r := Insert(e, s[1..]);
      forall i | 0 <= i < |r| ensures Before(s[0], r[i]) {
        InsertedEntries(e, s[1..], r[i]);
      }
    }
  }

  lemma {:induction false} OrderedIsSorted(q: seq<Queued>)
    ensures multiset(Ordered(q)) == multiset(q)
    ensures Sorted(Ordered(q))
  {
    if q == [] {
    } else {
      OrderedIsSorted(q[1..]);
      InsertKeepsEntries(q[0], Ordered(q[1..]));
      InsertKeepsSorted(q[0], Ordered(q[1..]));
      assert q == [q[0]] + q[1..];
    }
  }

  lemma {:induction false} SameEntries(q: seq<Queued>, e: Queued)
    ensures e in Ordered(q) <==> e in q
  {
    OrderedIsSorted(q);
    assert e in Ordered(q) <==> e in multiset(Ordered(q));
    assert e in q <==> e in multiset(q);
  }

  lemma {:induction false} InsertKeepsDisjoint(x: Queued, e: Queued, s: seq<Queued>)
    requires Disjoint(x, s) && e.row != x.row && e.number != x.number
    ensures Disjoint(x, Insert(e, s))
  {
    if s != [] && !Before(e, s[0]) { InsertKeepsDisjoint(x, e, s[1..]); }
  }

  lemma {:induction false} InsertKeepsQueueOk(e: Queued, s: seq<Queued>)
    requires QueueOk(s) && Disjoint(e, s) && e.kind != None
    ensures QueueOk(Insert(e, s))
  {
    if s != [] && !Before(e, s[0]) {
      InsertKeepsQueueOk(e, s[1..]);
      InsertKeepsDisjoint(s[0], e, s[1..]);
    }
  }

  lemma {:induction false} OrderedKeepsQueueOk(q: seq<Queued>)
    requires QueueOk(q)
    ensures QueueOk(Ordered(q))
  {
    if q != [] {
      OrderedKeepsQueueOk(q[1..]);
      forall i | 0 <= i < |Ordered(q[1..])|
        ensures Ordered(q[1..])[i].row != q[0].row
        ensures Ordered(q[1..])[i].number != q[0].number
        ensures q[0].kind != None
      {
        SameEntries(q[1..], Ordered(q[1..])[i]);
      }
      InsertKeepsQueueOk(q[0], Ordered(q[1..]));
    }
  }

  /** The entries still to be served: sorted and pairwise distinct. */
  predicate Line(order: seq<Queued>) { Sorted(order) && QueueOk(order) }

  lemma OrderedIsALine(q: seq<Queued>)
    requires QueueOk(q)
    ensures Line(Ordered(q))
  {
    OrderedIsSorted(q);
    OrderedKeepsQueueOk(q);
  }

  /** One waiting entry has its turn before another: AI activity before motion, and of two alike the one that was
      queued first. */
  predicate Ahead(a: Queued, b: Queued) {
    if (a.kind == Motion) == (b.kind == Motion) then a.number < b.number else b.kind == Motion
  }

  lemma BeforeIsAhead(a: Queued, b: Queued)
    requires a.kind != None && b.kind != None && a.number != b.number
    ensures Before(a, b) <==> Ahead(a, b)
  {
  }

  /** The serving order is a rearrangement of the queue in which every entry is ahead of all that follow it. */
  lemma {:induction false} OrderedIsTheQueueSorted(q: seq<Queued>)
    ensures multiset(Ordered(q)) == multiset(q)
    ensures QueueOk(q) ==> forall i, j | 0 <= i < j < |q| :: Ahead(Ordered(q)[i], Ordered(q)[j])
  {
    hide Before, Ahead, Ordered;
    OrderedIsSorted(q);
    if QueueOk(q) {
      var r := Ordered(q);
      OrderedKeepsQueueOk(q);
      forall i, j | 0 <= i < j < |q| ensures Ahead(r[i], r[j]) {
        assert r[j].kind != None;
        BeforeIsAhead(r[i], r[j]);
      }
    }
  }

  // ---- removing one entry ----

  lemma {:induction false} WithoutDropsOnlyThatEntry(q: seq<Queued>, number: int, e: Queued)
    ensures e in Without(q, number) <==> e in q && e.number != number
  {
    if q != [] {
      WithoutDropsOnlyThatEntry(q[1..], number, e);
      assert q == [q[0]] + q[1..];
    }
  }

  lemma {:induction false} WithoutKeepsDisjoint(x: Queued, q: seq<Queued>, number: int)
    requires Disjoint(x, q)
    ensures Disjoint(x, Without(q, number))
  {
    if q != [] { WithoutKeepsDisjoint(x, q[1..], number); }
  }

  lemma {:induction false} WithoutKeepsQueueOk(q: seq<Queued>, number: int)
    requires QueueOk(q)
    ensures QueueOk(Without(q, number))
  {
    if q != [] {
      WithoutKeepsQueueOk(q[1..], number);
      WithoutKeepsDisjoint(q[0], q[1..], number);
    }
  }

  lemma {:induction false} WithoutShrinks(q: seq<Queued>, e: Queued)
    requires e in q
    ensures |Without(q, e.number)| < |q|
  {
    if q[0].number != e.number {
      assert q == [q[0]] + q[1..];
      WithoutShrinks(q[1..], e);
    }
  }

  // ---- passes ----

  /** What serving any one entry keeps, a whole pass keeps. */
  lemma {:induction false} ServeAllKeeps(c: Config, inv: Pass -> bool, x: Pass, order: seq<Queued>, now: int)
    requires inv(x) && forall y, e | inv(y) && e in order :: inv(Serve(c, y, e, now))
    ensures inv(ServeAll(c, x, order, now))
    decreases |order|
  {
    hide Serve;
    if order != [] {
      assert order[0] in order && forall e | e in order[1..] :: e in order;
      ServeAllKeeps(c, inv, Serve(c, x, order[0], now), order[1..], now);
    }
  }

  lemma {:induction false} ServeAllSplits(c: Config, x: Pass, a: seq<Queued>, b: seq<Queued>, now: int)
    ensures ServeAll(c, x, a + b, now) == ServeAll(c, ServeAll(c, x, a, now), b, now)
    decreases |a|
  {
    hide Serve;
    if a == [] {
      assert a + b == b;
    } else {
      assert (a + b)[0] == a[0] && (a + b)[1..] == a[1..] + b;
      ServeAllSplits(c, Serve(c, x, a[0], now), a[1..], b, now);
    }
  }

  lemma ServeAllAt(c: Config, x: Pass, order: seq<Queued>, k: nat, now: int)
    requires k < |order|
    ensures ServeAll(c, x, order, now)
         == ServeAll(c, Serve(c, ServeAll(c, x, order[..k], now), order[k], now), order[k + 1..], now)
  {
    hide Serve;
    assert order == order[..k] + order[k..];
    ServeAllSplits(c, x, order[..k], order[k..], now);
    assert order[k..][0] == order[k] && order[k..][1..] == order[k + 1..];
  }

  // ---- tiles that no later entry can take ----

  /** No entry of priority `level` or lower can be given this tile. */
  predicate Secured(c: Config, t: Tile, level: int, now: int) {
    !Free(t) && (level < 2 || !Takeable(c, t, now))
  }

  lemma SecuredForLess(c: Config, t: Tile, e: Queued, later: Queued, now: int)
    requires Secured(c, t, PriorityOf(e.kind), now) && Before(e, later)
    ensures Secured(c, t, PriorityOf(later.kind), now)
  {
  }

  predicate ExtendsWithout(out: seq<Change>, more: seq<Change>, i: nat) {
    out <= more && forall k | |out| <= k < |more| :: more[k].tile != i
  }

  lemma ServeKeepsSecured(c: Config, x: Pass, e: Queued, now: int, i: nat)
    requires i < |x.tiles| && Secured(c, x.tiles[i], PriorityOf(e.kind), now)
    ensures Secured(c, Serve(c, x, e, now).tiles[i], PriorityOf(e.kind), now)
    ensures Serve(c, x, e, now).tiles[i].shown == x.tiles[i].shown
    ensures x.tiles[i].active ==> Serve(c, x, e, now).tiles[i].active
    ensures ExtendsWithout(x.out, Serve(c, x, e, now).out, i)
  {
    hide PickTile, TileShowing, Recent, Without;
  }

  lemma {:induction false} ServeAllKeepsSecured(c: Config, x: Pass, order: seq<Queued>, now: int, i: nat)
    requires Sorted(order) && i < |x.tiles|
    requires order != [] ==> Secured(c, x.tiles[i], PriorityOf(order[0].kind), now)
    ensures ServeAll(c, x, order, now).tiles[i].shown == x.tiles[i].shown
    ensures x.tiles[i].active ==> ServeAll(c, x, order, now).tiles[i].active
    ensures ExtendsWithout(x.out, ServeAll(c, x, order, now).out, i)
    decreases |order|
  {
    hide Serve, Secured;
    if order != [] {
      ServeKeepsSecured(c, x, order[0], now, i);
      if |order| > 1 { SecuredForLess(c, Serve(c, x, order[0], now).tiles[i], order[0], order[1], now); }
      ServeAllKeepsSecured(c, Serve(c, x, order[0], now), order[1..], now, i);
    }
  }

  // ---- nothing waiting is lost ----

  predicate OnScreen(tiles: seq<Tile>, row: int) {
    exists i :: 0 <= i < |tiles| && tiles[i].shown == row && tiles[i].active
  }

  lemma {:induction false} ServeAllKeepsStrangers(c: Config, x: Pass, order: seq<Queued>, now: int, e: Queued)
    requires forall k | 0 <= k < |order| :: order[k].number != e.number
    ensures e in ServeAll(c, x, order, now).queue <==> e in x.queue
    decreases |order|
  {
    if order != [] {
      WithoutDropsOnlyThatEntry(x.queue, order[0].number, e);
      ServeAllKeepsStrangers(c, Serve(c, x, order[0], now), order[1..], now, e);
    }
  }

  /** Serving the entry left it waiting (i is -1), or took it off the queue and secured tile i, which shows its camera;
      a change, if there is one, is that tile's, which could still be taken. */
  predicate Outcome(c: Config, x: Pass, y: Pass, e: Queued, now: int, i: int) {
    && (if i < 0 then y.queue == x.queue && y.out == x.out
        else
          && i < |x.tiles| == |y.tiles|
          && y.queue == Without(x.queue, e.number)
          && y.tiles[i].shown == e.row && y.tiles[i].active
          && Secured(c, y.tiles[i], PriorityOf(e.kind), now))
    && (y.out != x.out ==>
          i >= 0 && y.out == x.out + [ChangeFor(c, i, e)] && !Secured(c, x.tiles[i], PriorityOf(e.kind), now))
  }

  lemma ServedIsSecured(c: Config, x: Pass, e: Queued, now: int)
    requires e.kind != None
    ensures exists i :: Outcome(c, x, Serve(c, x, e, now), e, now, i)
  {
    hide PickTile, TileShowing, Recent;
    var existing := TileShowing(x.tiles, e.row);
    var i := if existing >= 0 then existing else PickTile(c, x.tiles, e.kind, now);
    if existing < 0 && i >= 0 && BudgetSpent(c, x.starts, c.hostOf(e.row), now) { i := -1; }
    assert Outcome(c, x, Serve(c, x, e, now), e, now, i);
  }

  /** After a tick, every entry that was waiting still waits or its camera is on an active tile. */
  lemma {:induction false} NothingWaitingIsLost(c: Config, s: Policy, now: int, e: Queued)
    requires PolicyOk(s) && e in s.queue
    ensures var (r, _) := Tick(c, s, now);
            e in r.queue || OnScreen(r.tiles, e.row)
  {
    hide Serve, Secured, Ordered, TilesOk, PickTile, TileShowing;
    var x0, order := FirstPass(s, now), Ordered(s.queue);
    OrderedIsALine(s.queue);
    SameEntries(s.queue, e);
    var k :| 0 <= k < |order| && order[k] == e;
    ServeAllAt(c, x0, order, k, now);
    var x := ServeAll(c, x0, order[..k], now);
    var y := Serve(c, x, e, now);
    ServeAllKeepsStrangers(c, x0, order[..k], now, e);
    ServeAllKeepsStrangers(c, y, order[k + 1..], now, e);
    ServedIsSecured(c, x, e, now);
    var i :| Outcome(c, x, Serve(c, x, e, now), e, now, i);
    if i >= 0 {
      if k + 1 < |order| { SecuredForLess(c, y.tiles[i], e, order[k + 1], now); }
      ServeAllKeepsSecured(c, y, order[k + 1..], now, i);
      assert LastPass(c, s, now).tiles[i].shown == e.row;
    }
  }

  // ---- facts that only grow during a pass ----

  lemma {:induction false} SecuredUntil(c: Config, x: Pass, order: seq<Queued>, k: nat, now: int, i: nat)
    requires Sorted(order) && k < |order| && i < |x.tiles|
    requires Secured(c, x.tiles[i], PriorityOf(order[0].kind), now)
    ensures Secured(c, ServeAll(c, x, order[..k], now).tiles[i], PriorityOf(order[k].kind), now)
    decreases k
  {
    hide Serve, Secured;
    if k > 0 {
      ServeKeepsSecured(c, x, order[0], now, i);
      SecuredForLess(c, Serve(c, x, order[0], now).tiles[i], order[0], order[1], now);
      assert order[..k][0] == order[0] && order[..k][1..] == order[1..][..k - 1];
      SecuredUntil(c, Serve(c, x, order[0], now), order[1..], k - 1, now, i);
    }
  }

  lemma ServedWasFree(c: Config, x: Pass, e: Queued, now: int, i: nat)
    requires i < |x.tiles| && Free(Serve(c, x, e, now).tiles[i])
    ensures x.tiles[i] == Serve(c, x, e, now).tiles[i]
  {
    hide PickTile, TileShowing, Recent, Without;
  }

  /** A tile free after a pass was free, and the same, throughout it. */
  lemma {:induction false} FreeWasFree(c: Config, x: Pass, order: seq<Queued>, now: int, i: nat)
    requires i < |x.tiles| && Free(ServeAll(c, x, order, now).tiles[i])
    ensures x.tiles[i] == ServeAll(c, x, order, now).tiles[i]
    decreases |order|
  {
    hide Serve;
    if order != [] {
      FreeWasFree(c, Serve(c, x, order[0], now), order[1..], now, i);
      ServedWasFree(c, x, order[0], now, i);
    }
  }

  lemma ServeKeepsBudgetSpent(c: Config, x: Pass, e: Queued, now: int, host: int)
    requires BudgetSpent(c, x.starts, host, now)
    ensures BudgetSpent(c, Serve(c, x, e, now).starts, host, now)
  {
    hide Serve, Recent;
    RecentWhenSpent(c, x, e, now, host);
  }

  lemma RecentWhenSpent(c: Config, x: Pass, e: Queued, now: int, host: int)
    requires BudgetSpent(c, x.starts, host, now)
    ensures Recent(c, Serve(c, x, e, now).starts, host, now) == Recent(c, x.starts, host, now)
  {
    hide Serve, BudgetSpent, StartsOf;
    StartsWhenSpent(c, x, e, now, host);
    PruningTwice(StartsOf(x.starts, host), now - c.startWindowMs);
  }

  /** A spent NVR's list is at most pruned; the lists of the others do not matter to it. */
  lemma StartsWhenSpent(c: Config, x: Pass, e: Queued, now: int, host: int)
    requires BudgetSpent(c, x.starts, host, now)
    ensures var l := StartsOf(Serve(c, x, e, now).starts, host);
            l == StartsOf(x.starts, host) || l == Recent(c, x.starts, host, now)
  {
    hide PickTile, TileShowing, Granted, MarkedInPlace, Without, Recent;
  }

  lemma PruningTwice(l: seq<int>, edge: int)
    ensures Pruned(Pruned(l, edge), edge) == Pruned(l, edge)
  {
  }

  // ---- where a change came from ----

  lemma {:induction false} OutOnlyGrows(c: Config, x: Pass, order: seq<Queued>, now: int)
    ensures x.out <= ServeAll(c, x, order, now).out
    decreases |order|
  {
    hide Serve, PickTile, TileShowing, BudgetSpent;
    if order != [] {
      ServeOnlyAdds(c, x, order[0], now);
      OutOnlyGrows(c, Serve(c, x, order[0], now), order[1..], now);
    }
  }

  /** Serving one entry makes at most one change, for that entry, on the tile picked, within budget. */
  lemma ServeOnlyAdds(c: Config, x: Pass, e: Queued, now: int)
    ensures var y := Serve(c, x, e, now);
            || y.out == x.out
            || (&& TileShowing(x.tiles, e.row) < 0 && PickTile(c, x.tiles, e.kind, now) >= 0
                && !BudgetSpent(c, x.starts, c.hostOf(e.row), now)
                && y.out == x.out + [ChangeFor(c, PickTile(c, x.tiles, e.kind, now), e)])
  {
    hide PickTile, TileShowing, Granted, MarkedInPlace, Without;
  }

  /** Change m of the pass was made while serving entry k. */
  predicate CameFrom(c: Config, x: Pass, order: seq<Queued>, now: int, m: nat, k: nat) {
    k < |order| && m < |ServeAll(c, x, order, now).out|
    && var y, e := ServeAll(c, x, order[..k], now), order[k];
       && |y.out| == m && TileShowing(y.tiles, e.row) < 0
       && PickTile(c, y.tiles, e.kind, now) >= 0
       && !BudgetSpent(c, y.starts, c.hostOf(e.row), now)
       && ServeAll(c, x, order, now).out[m] == ChangeFor(c, PickTile(c, y.tiles, e.kind, now), e)
  }

  lemma {:induction false} ChangeCameFrom(c: Config, x: Pass, order: seq<Queued>, now: int, m: nat)
    requires |x.out| <= m < |ServeAll(c, x, order, now).out|
    ensures exists k: nat :: CameFrom(c, x, order, now, m, k)
    decreases |order|
  {
    hide Serve, PickTile, TileShowing, BudgetSpent;
    assert order != [];
    var y := Serve(c, x, order[0], now);
    ServeOnlyAdds(c, x, order[0], now);
    if m < |y.out| {
      OutOnlyGrows(c, y, order[1..], now);
      assert CameFrom(c, x, order, now, m, 0);
    } else {
      ChangeCameFrom(c, y, order[1..], now, m);
      var j: nat :| CameFrom(c, y, order[1..], now, m, j);
      assert order[..j + 1][0] == order[0] && order[..j + 1][1..] == order[1..][..j];
      assert CameFrom(c, x, order, now, m, j + 1);
    }
  }

  // ---- no overtaking, no idle tile without reason ----

  lemma BehindInLine(order: seq<Queued>, j: nat, b: Queued, k: nat)
    requires Line(order) && j < |order| && k < |order| && b in order
    requires order[k].row == b.row && order[j] != b && Before(order[j], b)
    ensures order[k] == b && j < k
  {
    var l :| 0 <= l < |order| && order[l] == b;
  }

  lemma DifferentEntries(q: seq<Queued>, a: Queued, b: Queued)
    requires QueueOk(q) && a in q && b in q && a != b
    ensures a.kind != None && b.kind != None && a.number != b.number
  {
  }

  /** If an entry keeps waiting while one behind it is given a tile, then they are on different NVRs
      and the start budget of the waiting one's NVR is used up. */
  lemma {:induction false} NoOvertaking(c: Config, s: Policy, now: int, a: Queued, b: Queued, m: nat)
    requires PolicyOk(s) && a in s.queue && b in s.queue && a != b && Ahead(a, b)
    requires a in Tick(c, s, now).0.queue
    requires m < |Tick(c, s, now).1| && Tick(c, s, now).1[m].row == b.row
    ensures c.hostOf(a.row) != c.hostOf(b.row)
    ensures BudgetSpent(c, Tick(c, s, now).0.starts, c.hostOf(a.row), now)
  {
    hide Serve, Ordered, PickTile, TileShowing, BudgetSpent, QueueOk, Sorted, Before, Ahead;
    var x0, order := FirstPass(s, now), Ordered(s.queue);
    OrderedIsALine(s.queue);
    SameEntries(s.queue, a);
    SameEntries(s.queue, b);
    DifferentEntries(s.queue, a, b);
    BeforeIsAhead(a, b);
    var j :| 0 <= j < |order| && order[j] == a;
    ChangeCameFrom(c, x0, order, now, m);
    var k: nat :| CameFrom(c, x0, order, now, m, k);
    BehindInLine(order, j, b, k);
    StillWaitingAt(c, s, now, j);
    NotOvertakenAt(c, x0, order, j, k, now);
    assert order[..|order|] == order;
  }

  lemma NotOvertakenAt(c: Config, x0: Pass, order: seq<Queued>, j: nat, k: nat, now: int)
    requires Line(order) && j < k < |order|
    requires var x := ServeAll(c, x0, order[..j], now);
             PickTile(c, x.tiles, order[j].kind, now) < 0 || BudgetSpent(c, x.starts, c.hostOf(order[j].row), now)
    requires var y := ServeAll(c, x0, order[..k], now);
             PickTile(c, y.tiles, order[k].kind, now) >= 0 && !BudgetSpent(c, y.starts, c.hostOf(order[k].row), now)
    ensures c.hostOf(order[j].row) != c.hostOf(order[k].row)
    ensures BudgetSpent(c, ServeAll(c, x0, order[..|order|], now).starts, c.hostOf(order[j].row), now)
  {
    hide Serve, PickTile, BudgetSpent;
    if PickTile(c, ServeAll(c, x0, order[..j], now).tiles, order[j].kind, now) < 0 {
      BlockedUntil(c, x0, order, j, k, now);
    } else {
      BudgetSpentUntil(c, x0, order, j, k, now, c.hostOf(order[j].row));
      BudgetSpentUntil(c, x0, order, j, |order|, now, c.hostOf(order[j].row));
    }
  }

  /** An entry left waiting found no tile, or no budget, when its turn came. */
  lemma {:induction false} StillWaitingAt(c: Config, s: Policy, now: int, j: nat)
    requires QueueOk(s.queue) && j < |Ordered(s.queue)| && Ordered(s.queue)[j] in LastPass(c, s, now).queue
    ensures var e, x := Ordered(s.queue)[j], ServeAll(c, FirstPass(s, now), Ordered(s.queue)[..j], now);
            TileShowing(x.tiles, e.row) < 0
            && (PickTile(c, x.tiles, e.kind, now) < 0 || BudgetSpent(c, x.starts, c.hostOf(e.row), now))
  {
    hide Ordered, PickTile, TileShowing;
    var x0, order := FirstPass(s, now), Ordered(s.queue);
    OrderedIsALine(s.queue);
    ServeAllAt(c, x0, order, j, now);
    var x := ServeAll(c, x0, order[..j], now);
    ServeAllKeepsStrangers(c, Serve(c, x, order[j], now), order[j + 1..], now, order[j]);
    WithoutDropsOnlyThatEntry(x.queue, order[j].number, order[j]);
  }

  lemma BlockedUntil(c: Config, x0: Pass, order: seq<Queued>, j: nat, k: nat, now: int)
    requires Sorted(order) && j < k < |order|
    requires PickTile(c, ServeAll(c, x0, order[..j], now).tiles, order[j].kind, now) < 0
    ensures PickTile(c, ServeAll(c, x0, order[..k], now).tiles, order[k].kind, now) < 0
  {
    hide PickTile, TileShowing;
    var x := ServeAll(c, x0, order[..j], now);
    assert order[..k] == order[..j] + order[j..][..k - j];
    ServeAllSplits(c, x0, order[..j], order[j..][..k - j], now);
    forall i | 0 <= i < |x.tiles|
      ensures Secured(c, ServeAll(c, x0, order[..k], now).tiles[i], PriorityOf(order[k].kind), now)
    {
      SecuredUntil(c, x, order[j..], k - j, now, i);
    }
  }

  lemma BudgetSpentUntil(c: Config, x0: Pass, order: seq<Queued>, j: nat, k: nat, now: int, host: int)
    requires j <= k <= |order|
    requires BudgetSpent(c, ServeAll(c, x0, order[..j], now).starts, host, now)
    ensures BudgetSpent(c, ServeAll(c, x0, order[..k], now).starts, host, now)
  {
    hide Serve, BudgetSpent;
    assert order[..k] == order[..j] + order[j..k];
    ServeAllSplits(c, x0, order[..j], order[j..k], now);
    forall y: Pass, e | BudgetSpent(c, y.starts, host, now)
      ensures BudgetSpent(c, Serve(c, y, e, now).starts, host, now)
    {
      ServeKeepsBudgetSpent(c, y, e, now, host);
    }
    var inv := (y: Pass) => BudgetSpent(c, y.starts, host, now);
    ServeAllKeeps(c, inv, ServeAll(c, x0, order[..j], now), order[j..k], now);
  }

  lemma ServeKeepsTilesOk(c: Config, x: Pass, e: Queued, now: int)
    requires TilesOk(x.tiles) && e.kind != None
    ensures TilesOk(Serve(c, x, e, now).tiles)
  {
    hide PickTile, TileShowing, Recent, Without;
  }

  lemma PassKeepsTilesOk(c: Config, x: Pass, order: seq<Queued>, now: int)
    requires TilesOk(x.tiles) && QueueOk(order)
    ensures TilesOk(ServeAll(c, x, order, now).tiles)
  {
    hide Serve, TilesOk;
    forall y: Pass, e | TilesOk(y.tiles) && e in order ensures TilesOk(Serve(c, y, e, now).tiles) {
      ServeKeepsTilesOk(c, y, e, now);
    }
    ServeAllKeeps(c, (y: Pass) => TilesOk(y.tiles), x, order, now);
  }

  lemma ServeKeepsSecuredForAll(c: Config, x: Pass, e: Queued, now: int, i: nat, level: int)
    requires i < |x.tiles| && Secured(c, x.tiles[i], level, now) && (x.tiles[i].active ==> x.tiles[i].kind != None)
    ensures Secured(c, Serve(c, x, e, now).tiles[i], level, now)
  {
    hide PickTile, TileShowing, Recent, Without;
  }

  /** A tile an entry of this priority may take after a pass is one it could take throughout. */
  lemma MayTakeThroughout(c: Config, x: Pass, order: seq<Queued>, now: int, i: nat, level: int)
    requires i < |x.tiles| && TilesOk(x.tiles) && QueueOk(order)
    requires !Secured(c, ServeAll(c, x, order, now).tiles[i], level, now)
    ensures !Secured(c, x.tiles[i], level, now)
  {
    hide Serve, Secured;
    if Secured(c, x.tiles[i], level, now) {
      forall y: Pass, e | i < |y.tiles| && TilesOk(y.tiles) && Secured(c, y.tiles[i], level, now) && e in order
        ensures TilesOk(Serve(c, y, e, now).tiles) && Secured(c, Serve(c, y, e, now).tiles[i], level, now)
      {
        ServeKeepsTilesOk(c, y, e, now);
        ServeKeepsSecuredForAll(c, y, e, now, i, level);
      }
      var inv := (y: Pass) => i < |y.tiles| && TilesOk(y.tiles) && Secured(c, y.tiles[i], level, now);
      ServeAllKeeps(c, inv, x, order, now);
    }
  }

  lemma SomeTileIsPicked(c: Config, tiles: seq<Tile>, kind: Kind, now: int, i: nat)
    requires i < |tiles| && !Secured(c, tiles[i], PriorityOf(kind), now)
    ensures PickTile(c, tiles, kind, now) >= 0
  {
  }

  /** With a tile it may take there after a pass, an entry that was passed over found its NVR's budget spent. */
  lemma PassedOverForBudget(c: Config, x: Pass, order: seq<Queued>, j: nat, now: int, i: nat)
    requires Line(order) && TilesOk(x.tiles) && j < |order| && i < |x.tiles|
    requires !Secured(c, ServeAll(c, x, order, now).tiles[i], PriorityOf(order[j].kind), now)
    requires var y, e := ServeAll(c, x, order[..j], now), order[j];
             PickTile(c, y.tiles, e.kind, now) < 0 || BudgetSpent(c, y.starts, c.hostOf(e.row), now)
    ensures BudgetSpent(c, ServeAll(c, x, order, now).starts, c.hostOf(order[j].row), now)
  {
    hide Serve, PickTile, BudgetSpent, Secured, TilesOk;
    var y := ServeAll(c, x, order[..j], now);
    assert order == order[..j] + order[j..] && order[..|order|] == order;
    ServeAllSplits(c, x, order[..j], order[j..], now);
    PassKeepsTilesOk(c, x, order[..j], now);
    MayTakeThroughout(c, y, order[j..], now, i, PriorityOf(order[j].kind));
    SomeTileIsPicked(c, y.tiles, order[j].kind, now, i);
    BudgetSpentUntil(c, x, order, j, |order|, now, c.hostOf(order[j].row));
  }

  /** If after a tick an unpinned tile is idle, or for AI activity is held for motion and was shown its minimum time,
      then an entry still waiting is held back by its NVR's budget. */
  lemma {:induction false} NoTileIdlesWithoutReason(c: Config, s: Policy, now: int, i: nat, e: Queued)
    requires PolicyOk(s) && i < |s.tiles| && e in s.queue && e in Tick(c, s, now).0.queue
    requires var t := Tick(c, s, now).0.tiles[i];
             !t.pinned
             && (!t.active || (e.kind != Motion && t.kind == Motion && now - t.shownSince >= c.minShownMs))
    ensures BudgetSpent(c, Tick(c, s, now).0.starts, c.hostOf(e.row), now)
  {
    hide ServeAll, Ordered, TileShowing, BudgetSpent, PickTile;
    var order := Ordered(s.queue);
    OrderedIsALine(s.queue);
    SameEntries(s.queue, e);
    var j :| 0 <= j < |order| && order[j] == e;
    StillWaitingAt(c, s, now, j);
    PassedOverForBudget(c, FirstPass(s, now), order, j, now, i);
  }

  // ---- which tiles may change, and how ----

  /** The change shows the entry's camera for its kind, replaying from the lead time before it began. */
  predicate ServesEntry(c: Config, ch: Change, e: Queued) {
    ch.row == e.row && ch.kind == e.kind && ch.activity
    && ch.triggerMs == e.trigger
    && ch.replayFromMs == e.trigger - c.replayLeadMs
  }

  /** Each change serves one waiting entry, on a tile that was free, or, for AI activity only, on one held
      for motion and shown its minimum time. */
  lemma {:induction false} ChangesAreEntitled(c: Config, s: Policy, now: int)
    requires PolicyOk(s)
    ensures forall ch | ch in Tick(c, s, now).1 ::
              && ch.tile < |s.tiles|
              && (exists e :: e in s.queue && ServesEntry(c, ch, e))
              && var before := Released(s.tiles[ch.tile], now);
              && (Free(before) || (PriorityOf(ch.kind) == 2 && Takeable(c, before, now)))
  {
    hide Serve, Ordered, TileShowing, BudgetSpent, Takeable, PickTile;
    var x0, order, out := FirstPass(s, now), Ordered(s.queue), Tick(c, s, now).1;
    OrderedIsALine(s.queue);
    forall m: nat | m < |out|
      ensures out[m].tile < |s.tiles|
      ensures exists e :: e in s.queue && ServesEntry(c, out[m], e)
      ensures var before := Released(s.tiles[out[m].tile], now);
              Free(before) || (PriorityOf(out[m].kind) == 2 && Takeable(c, before, now))
    {
      ChangeCameFrom(c, x0, order, now, m);
      var k: nat :| CameFrom(c, x0, order, now, m, k);
      SameEntries(s.queue, order[k]);
      TakenWasTakeable(c, x0, order, k, now, out[m].tile);
      assert ServesEntry(c, out[m], order[k]);
    }
  }

  /** The tile of the change was free, and idle longer than tile i is, or as long and in front of it. */
  predicate IdleLonger(s: Policy, ch: Change, i: nat, left: Tile, now: int) {
    ch.tile < |s.tiles|
    && var before := Released(s.tiles[ch.tile], now);
       && Free(before)
       && (before.idleSince < left.idleSince || (before.idleSince == left.idleSince && ch.tile < i))
  }

  /** A tile that was not free is taken only when no free one is left, and of the free ones none
      that has been idle longer is passed over. */
  lemma {:induction false} LongestIdleTileIsTakenFirst(c: Config, s: Policy, now: int)
    ensures var (r, out) := Tick(c, s, now);
            forall m, i | 0 <= m < |out| && 0 <= i < |s.tiles| && Free(r.tiles[i]) ::
              IdleLonger(s, out[m], i, r.tiles[i], now)
  {
    hide Serve, Ordered, TileShowing, BudgetSpent, PickTile;
    var x0, order := FirstPass(s, now), Ordered(s.queue);
    var (r, out) := Tick(c, s, now);
    forall m: nat, i: nat | m < |out| && i < |s.tiles| && Free(r.tiles[i])
      ensures IdleLonger(s, out[m], i, r.tiles[i], now)
    {
      ChangeCameFrom(c, x0, order, now, m);
      var k: nat :| CameFrom(c, x0, order, now, m, k);
      var y := ServeAll(c, x0, order[..k], now);
      assert order == order[..k] + order[k..];
      ServeAllSplits(c, x0, order[..k], order[k..], now);
      FreeWasFree(c, y, order[k..], now, i);
      FreeWasFree(c, x0, order[..k], now, out[m].tile);
      TakenIsNotFree(c, s, now, m);
    }
  }

  lemma TakenIsNotFree(c: Config, s: Policy, now: int, m: nat)
    requires m < |Tick(c, s, now).1|
    ensures var t := Tick(c, s, now).1[m].tile;
            t < |s.tiles| && !Free(Tick(c, s, now).0.tiles[t])
  {
    hide Serve, Ordered, TileShowing, BudgetSpent, PickTile;
    var x0, order := FirstPass(s, now), Ordered(s.queue);
    ChangeCameFrom(c, x0, order, now, m);
    var k: nat :| CameFrom(c, x0, order, now, m, k);
    var x, e := ServeAll(c, x0, order[..k], now), order[k];
    GrantMakesBusy(c, x, e, now);
    ServeAllAt(c, x0, order, k, now);
    NotFreeStays(c, Serve(c, x, e, now), order[k + 1..], now, PickTile(c, x.tiles, e.kind, now));
  }

  lemma GrantMakesBusy(c: Config, x: Pass, e: Queued, now: int)
    requires TileShowing(x.tiles, e.row) < 0 && PickTile(c, x.tiles, e.kind, now) >= 0
    requires !BudgetSpent(c, x.starts, c.hostOf(e.row), now)
    ensures !Free(Serve(c, x, e, now).tiles[PickTile(c, x.tiles, e.kind, now)])
  {
    hide PickTile, TileShowing, Without;
  }

  // ---- the order in which tiles are taken ----

  lemma TouchedIsSecured(c: Config, x: Pass, e: Queued, now: int, i: nat)
    requires i < |x.tiles| && e.kind != None
    ensures Serve(c, x, e, now).tiles[i] == x.tiles[i]
              || Secured(c, Serve(c, x, e, now).tiles[i], PriorityOf(e.kind), now)
  {
    hide PickTile, TileShowing, Recent, Without;
  }

  /** Up to entry k a tile is as it was when the pass began, or no later entry can have it. */
  lemma {:induction false} SameOrSecured(c: Config, x: Pass, order: seq<Queued>, k: nat, now: int, i: nat)
    requires Line(order) && k < |order| && i < |x.tiles|
    ensures var t := ServeAll(c, x, order[..k], now).tiles[i];
            t == x.tiles[i] || Secured(c, t, PriorityOf(order[k].kind), now)
    decreases k
  {
    hide Serve, Secured;
    if k > 0 {
      var y := Serve(c, x, order[0], now);
      assert order[..k][0] == order[0] && order[..k][1..] == order[1..][..k - 1];
      TouchedIsSecured(c, x, order[0], now, i);
      if y.tiles[i] != x.tiles[i] {
        SecuredForLess(c, y.tiles[i], order[0], order[1], now);
        SecuredUntil(c, y, order[1..], k - 1, now, i);
      } else {
        SameOrSecured(c, y, order[1..], k - 1, now, i);
      }
    }
  }

  /** A tile taken for entry k was as it was when the pass began, right up to then. */
  lemma TakenWasUntouched(c: Config, x: Pass, order: seq<Queued>, j: nat, k: nat, now: int)
    requires Line(order) && j <= k < |order|
    requires PickTile(c, ServeAll(c, x, order[..k], now).tiles, order[k].kind, now) >= 0
    ensures var t := PickTile(c, ServeAll(c, x, order[..k], now).tiles, order[k].kind, now);
            ServeAll(c, x, order[..j], now).tiles[t] == x.tiles[t]
  {
    hide Serve, PickTile, TileShowing, Takeable;
    var t := PickTile(c, ServeAll(c, x, order[..k], now).tiles, order[k].kind, now);
    SameOrSecured(c, x, order, j, now, t);
    var y := ServeAll(c, x, order[..j], now);
    if y.tiles[t] != x.tiles[t] {
      assert order[..k] == order[..j] + order[j..][..k - j];
      ServeAllSplits(c, x, order[..j], order[j..][..k - j], now);
      SecuredUntil(c, y, order[j..], k - j, now, t);
      assert false;
    }
  }

  lemma OutOfMore(c: Config, x: Pass, order: seq<Queued>, j: nat, k: nat, now: int)
    requires j <= k <= |order|
    ensures |ServeAll(c, x, order[..j], now).out| <= |ServeAll(c, x, order[..k], now).out|
  {
    hide Serve;
    assert order[..k] == order[..j] + order[j..k];
    ServeAllSplits(c, x, order[..j], order[j..k], now);
    OutOnlyGrows(c, ServeAll(c, x, order[..j], now), order[j..k], now);
  }

  predicate TakenFirst(s: Policy, a: Change, b: Change, now: int) {
    && a.tile < |s.tiles| && b.tile < |s.tiles|
    && GoesFirst(Released(s.tiles[a.tile], now), a.tile, Released(s.tiles[b.tile], now), b.tile)
  }

  /** Tiles are taken in that order: each change takes a tile that goes before the tile of every later change. */
  lemma {:induction false} TilesAreTakenInOrder(c: Config, s: Policy, now: int)
    requires PolicyOk(s)
    ensures var out := Tick(c, s, now).1;
            forall m, n | 0 <= m < n < |out| :: TakenFirst(s, out[m], out[n], now)
  {
    hide Serve, Ordered, TileShowing, BudgetSpent, PickTile, Takeable, GoesFirst;
    var x0, order, out := FirstPass(s, now), Ordered(s.queue), Tick(c, s, now).1;
    OrderedIsALine(s.queue);
    forall m: nat, n: nat | m < n < |out| ensures TakenFirst(s, out[m], out[n], now) {
      ChangeCameFrom(c, x0, order, now, m);
      var j: nat :| CameFrom(c, x0, order, now, m, j);
      ChangeCameFrom(c, x0, order, now, n);
      var k: nat :| CameFrom(c, x0, order, now, n, k);
      if k < j { OutOfMore(c, x0, order, k, j, now); }
      TakenWasUntouched(c, x0, order, j, j, now);
      TakenWasUntouched(c, x0, order, k, k, now);
      TakenWasUntouched(c, x0, order, j, k, now);
    }
  }

  lemma NotFreeStays(c: Config, x: Pass, order: seq<Queued>, now: int, i: nat)
    requires i < |x.tiles| && !Free(x.tiles[i])
    ensures !Free(ServeAll(c, x, order, now).tiles[i])
  {
    if Free(ServeAll(c, x, order, now).tiles[i]) { FreeWasFree(c, x, order, now, i); }
  }

  lemma TakenWasTakeable(c: Config, x0: Pass, order: seq<Queued>, k: nat, now: int, t: nat)
    requires Sorted(order) && k < |order| && t < |x0.tiles|
    requires !Secured(c, ServeAll(c, x0, order[..k], now).tiles[t], PriorityOf(order[k].kind), now)
    ensures Free(x0.tiles[t]) || (PriorityOf(order[k].kind) == 2 && Takeable(c, x0.tiles[t], now))
  {
    hide PickTile, TileShowing;
    if !Free(x0.tiles[t]) {
      if k > 0 { assert Before(order[0], order[k]); }
      if !Takeable(c, x0.tiles[t], now) || PriorityOf(order[0].kind) < 2 {
        SecuredUntil(c, x0, order, k, now, t);
      } else {
        NotFreeStays(c, x0, order[..k], now, t);
      }
    }
  }

  /** A pinned tile, or one held for AI activity, keeps its camera through a tick. */
  lemma {:induction false} PinnedAndHeldTilesStay(c: Config, s: Policy, now: int, i: nat)
    requires PolicyOk(s) && i < |s.tiles|
    requires s.tiles[i].pinned || (s.tiles[i].active && s.tiles[i].kind != Motion && now < s.tiles[i].holdUntil)
    ensures Tick(c, s, now).0.tiles[i].shown == s.tiles[i].shown
    ensures forall m | 0 <= m < |Tick(c, s, now).1| :: Tick(c, s, now).1[m].tile != i
    ensures s.tiles[i].active && now < s.tiles[i].holdUntil ==> Tick(c, s, now).0.tiles[i].active
  {
    hide Serve, Ordered;
    OrderedIsALine(s.queue);
    ServeAllKeepsSecured(c, FirstPass(s, now), Ordered(s.queue), now, i);
  }

  // ---- the changes reported are the changes made ----

  function Shown(tiles: seq<Tile>): (r: seq<int>)
    ensures |r| == |tiles|
    ensures forall i | 0 <= i < |tiles| :: r[i] == tiles[i].shown
  {
    seq(|tiles|, i requires 0 <= i < |tiles| => tiles[i].shown)
  }

  predicate Fits(n: nat, out: seq<Change>) {
    forall m | 0 <= m < |out| :: out[m].tile < n
  }

  predicate OncePerTile(out: seq<Change>) {
    forall i, j | 0 <= i < j < |out| :: out[i].tile != out[j].tile
  }

  /** A viewer that applies the changes one by one. */
  function Replay(shown: seq<int>, out: seq<Change>): (r: seq<int>)
    requires Fits(|shown|, out)
    ensures |r| == |shown|
  {
    if out == [] then shown
    else
      var last := out[|out| - 1];
      Replay(shown, out[..|out| - 1])[last.tile := last.row]
  }

  predicate Replayed(base: seq<int>, x: Pass) {
    && |x.tiles| == |base| && Fits(|base|, x.out)
    && Shown(x.tiles) == Replay(base, x.out)
  }

  lemma ServeReplays(c: Config, base: seq<int>, x: Pass, e: Queued, now: int)
    requires Replayed(base, x)
    ensures Replayed(base, Serve(c, x, e, now))
  {
    hide PickTile, TileShowing, Recent, Without;
    var y := Serve(c, x, e, now);
    if y.out == x.out {
      assert Shown(y.tiles) == Shown(x.tiles);
    } else {
      var last := y.out[|x.out|];
      assert y.out[..|y.out| - 1] == x.out;
      assert Shown(y.tiles) == Shown(x.tiles)[last.tile := last.row];
    }
  }

  predicate ChangedAreSecured(c: Config, x: Pass, level: int, now: int) {
    forall m | 0 <= m < |x.out| ::
      x.out[m].tile < |x.tiles| && Secured(c, x.tiles[x.out[m].tile], level, now)
  }

  lemma ServeChangesATileOnce(c: Config, x: Pass, e: Queued, now: int)
    requires OncePerTile(x.out) && ChangedAreSecured(c, x, PriorityOf(e.kind), now) && e.kind != None
    ensures var y := Serve(c, x, e, now);
            && OncePerTile(y.out)
            && ChangedAreSecured(c, y, PriorityOf(e.kind), now)
  {
    hide BudgetSpent, PickTile, TileShowing, Serve;
    var y, level := Serve(c, x, e, now), PriorityOf(e.kind);
    ServedIsSecured(c, x, e, now);
    var i :| Outcome(c, x, Serve(c, x, e, now), e, now, i);
    forall m | 0 <= m < |y.out| ensures y.out[m].tile < |y.tiles| && Secured(c, y.tiles[y.out[m].tile], level, now) {
      if m < |x.out| { ServeKeepsSecured(c, x, e, now, x.out[m].tile); }
    }
  }

  lemma {:induction false} ServeAllChangesATileOnce(c: Config, x: Pass, order: seq<Queued>, now: int)
    requires Line(order) && OncePerTile(x.out)
    requires order != [] ==> ChangedAreSecured(c, x, PriorityOf(order[0].kind), now)
    ensures OncePerTile(ServeAll(c, x, order, now).out)
    decreases |order|
  {
    hide Serve, Secured, OncePerTile;
    if order != [] {
      var y := Serve(c, x, order[0], now);
      ServeChangesATileOnce(c, x, order[0], now);
      if |order| > 1 {
        forall m | 0 <= m < |y.out| ensures Secured(c, y.tiles[y.out[m].tile], PriorityOf(order[1].kind), now) {
          SecuredForLess(c, y.tiles[y.out[m].tile], order[0], order[1], now);
        }
      }
      ServeAllChangesATileOnce(c, y, order[1..], now);
    }
  }

  /** Applying the reported changes, at most one per tile, to the old picture gives the new picture. */
  lemma ReplayingTheChangesGivesThePicture(c: Config, s: Policy, now: int)
    requires PolicyOk(s)
    ensures var (r, out) := Tick(c, s, now);
            OncePerTile(out) && Fits(|s.tiles|, out) && Shown(r.tiles) == Replay(Shown(s.tiles), out)
  {
    hide Serve, Ordered;
    OrderedIsALine(s.queue);
    var x0, base := FirstPass(s, now), Shown(s.tiles);
    assert Shown(x0.tiles) == base;
    forall y, e | Replayed(base, y) ensures Replayed(base, Serve(c, y, e, now)) { ServeReplays(c, base, y, e, now); }
    ServeAllKeeps(c, y => Replayed(base, y), x0, Ordered(s.queue), now);
    ServeAllChangesATileOnce(c, x0, Ordered(s.queue), now);
  }

  // ---- a tile no change names ----

  predicate Unnamed(out: seq<Change>, i: nat) {
    forall m | 0 <= m < |out| :: out[m].tile != i
  }

  lemma ServeKeepsUnnamed(c: Config, x: Pass, e: Queued, now: int, i: nat)
    requires i < |x.tiles| && ExtendsWithout(x.out, Serve(c, x, e, now).out, i)
    ensures var y := Serve(c, x, e, now);
            && y.tiles[i].shown == x.tiles[i].shown
            && y.tiles[i].baseline == x.tiles[i].baseline
  {
    hide PickTile, TileShowing, Recent, Without;
    var y := Serve(c, x, e, now);
    if y.out != x.out { assert y.out[|x.out|].tile != i; }
  }

  lemma {:induction false} ServeAllKeepsUnnamed(c: Config, x: Pass, order: seq<Queued>, now: int, i: nat)
    requires i < |x.tiles| && ExtendsWithout(x.out, ServeAll(c, x, order, now).out, i)
    ensures var y := ServeAll(c, x, order, now);
            y.tiles[i].shown == x.tiles[i].shown && y.tiles[i].baseline == x.tiles[i].baseline
    decreases |order|
  {
    hide Serve;
    if order != [] {
      var y := Serve(c, x, order[0], now);
      OutOnlyGrows(c, y, order[1..], now);
      ServeExtends(c, x, order[0], now);
      assert forall m | |x.out| <= m < |y.out| :: y.out[m] == ServeAll(c, x, order, now).out[m];
      ServeKeepsUnnamed(c, x, order[0], now, i);
      ServeAllKeepsUnnamed(c, y, order[1..], now, i);
    }
  }

  lemma ServeExtends(c: Config, x: Pass, e: Queued, now: int)
    ensures x.out <= Serve(c, x, e, now).out
  {
    hide PickTile, TileShowing, Recent, Without;
  }

  /** A tile no change names keeps its camera through a tick, its own release included, and its place in the user's
      arrangement: released or not, it shows the user's camera afterwards exactly if it did before. */
  lemma UnnamedTileKeepsItsCamera(c: Config, s: Policy, now: int, i: nat)
    requires i < |s.tiles| && Unnamed(Tick(c, s, now).1, i)
    ensures var t := Tick(c, s, now).0.tiles[i];
            && t.shown == s.tiles[i].shown
            && t.baseline == s.tiles[i].baseline
            && (t.shown == t.baseline <==> s.tiles[i].shown == s.tiles[i].baseline)
  {
    hide Serve, Ordered;
    assert ExtendsWithout([], Tick(c, s, now).1, i);
    ServeAllKeepsUnnamed(c, FirstPass(s, now), Ordered(s.queue), now, i);
  }

  // ---- a camera is never put on a second tile ----

  predicate NoNewTwins(base: seq<int>, tiles: seq<Tile>) {
    |base| == |tiles| && forall i, j | 0 <= i < j < |tiles| && tiles[i].shown == tiles[j].shown ::
      tiles[i].shown == base[i] && tiles[j].shown == base[j]
  }

  lemma NothingNew(tiles: seq<Tile>)
    ensures NoNewTwins(Shown(tiles), tiles)
  {
  }

  lemma ServeMakesNoTwins(c: Config, base: seq<int>, x: Pass, e: Queued, now: int)
    requires NoNewTwins(base, x.tiles)
    ensures NoNewTwins(base, Serve(c, x, e, now).tiles)
  {
    hide PickTile, TileShowing, Recent, Without;
  }

  /** Two tiles showing one camera after a tick (setBaseline can arrange that) were both showing it before. */
  lemma TickMakesNoTwins(c: Config, s: Policy, now: int)
    ensures NoNewTwins(Shown(s.tiles), Tick(c, s, now).0.tiles)
  {
    hide Serve, Ordered, NoNewTwins;
    var base := Shown(s.tiles);
    NothingNew(FirstPass(s, now).tiles);
    assert Shown(FirstPass(s, now).tiles) == base;
    forall y: Pass, e | NoNewTwins(base, y.tiles) ensures NoNewTwins(base, Serve(c, y, e, now).tiles) {
      ServeMakesNoTwins(c, base, y, e, now);
    }
    ServeAllKeeps(c, (y: Pass) => NoNewTwins(base, y.tiles), FirstPass(s, now), Ordered(s.queue), now);
  }

  // ---- progress ----

  predicate Rested(c: Config, s: Policy, now: int) {
    && (exists i :: 0 <= i < |s.tiles| && !s.tiles[i].pinned)
    && (forall i | 0 <= i < |s.tiles| :: s.tiles[i].holdUntil <= now)
    && (forall h | h in s.starts :: forall k | 0 <= k < |s.starts[h]| :: s.starts[h][k] <= now - c.startWindowMs)
  }

  lemma {:induction false} ServeAllOnlyRemoves(c: Config, x: Pass, order: seq<Queued>, now: int)
    ensures |ServeAll(c, x, order, now).queue| <= |x.queue|
    decreases |order|
  {
    hide PickTile, TileShowing, Recent;
    if order != [] {
      assert |Serve(c, x, order[0], now).queue| <= |x.queue|;
      ServeAllOnlyRemoves(c, Serve(c, x, order[0], now), order[1..], now);
    }
  }

  lemma NothingRecent(l: seq<int>, edge: int)
    requires forall k | 0 <= k < |l| :: l[k] <= edge
    ensures Pruned(l, edge) == []
  {
    if l != [] { NothingRecent(l[1..], edge); }
  }

  lemma ServedAtOnce(c: Config, x: Pass, e: Queued, now: int, i: nat)
    requires i < |x.tiles| && Free(x.tiles[i]) && !BudgetSpent(c, x.starts, c.hostOf(e.row), now)
    ensures Serve(c, x, e, now).queue == Without(x.queue, e.number)
  {
    hide PickTile, TileShowing;
    assert PickTile(c, x.tiles, e.kind, now) >= 0;
  }

  /** Once every hold and every start window has run out, a tick serves at least one waiting entry. */
  lemma RestedTickServesSomeone(c: Config, s: Policy, now: int)
    requires PolicyOk(s) && Rested(c, s, now) && c.maxStartsPerHost >= 1
    requires s.queue != []
    ensures |Tick(c, s, now).0.queue| < |s.queue|
  {
    hide Serve;
    var x0, order := FirstPass(s, now), Ordered(s.queue);
    SameEntries(s.queue, order[0]);
    WithoutShrinks(s.queue, order[0]);
    var i :| 0 <= i < |s.tiles| && !s.tiles[i].pinned;
    var host := c.hostOf(order[0].row);
    assert Recent(c, x0.starts, host, now) == [] by {
      var l := StartsOf(x0.starts, host);
      assert forall k | 0 <= k < |l| :: l[k] <= now - c.startWindowMs;
      NothingRecent(l, now - c.startWindowMs);
    }
    assert Free(x0.tiles[i]);
    ServedAtOnce(c, x0, order[0], now, i);
    ServeAllOnlyRemoves(c, Serve(c, x0, order[0], now), order[1..], now);
  }
}
