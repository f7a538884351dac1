/**
The download queue as a value: which item may start next, what each call and each worker message
does to the list, and what every run keeps.
 */
module DownloadPlan {
  import opened Arithmetic
  import opened Wrappers

  datatype DlState = Queued | Preparing | Downloading | Done | Failed | Cancelled

  predicate Active(s: DlState) { s == Preparing || s == Downloading }
  predicate Final(s: DlState) { s == Done || s == Failed || s == Cancelled }

  const MAX_RANGE_SECS := 6 * 3600
  const MIN_RANGE_SECS := 2

  /** One camera and time range. `cancel` is the flag its worker watches. */
  datatype Item = Item(id: int, host: int, start: int, end: int, state: DlState, cancel: bool)

  // ---- which item may start ----

  /** An item of this NVR is being prepared or downloaded. */
  predicate Busy(items: seq<Item>, host: int) {
    exists i ::
      0 <= i < |items| && items[i].host == host && Active(items[i].state)
  }

  function RunnableFrom(items: seq<Item>, i: nat): (r: int)
    requires i <= |items|
    ensures -1 <= r < |items|
    ensures r >= 0 ==> i <= r && items[r].state == Queued && !Busy(items, items[r].host)
    ensures forall k | i <= k < (if r < 0 then |items| else r) && items[k].state == Queued :: Busy(items, items[k].host)
    decreases |items| - i
  {
    if i == |items| then -1
    else if items[i].state == Queued && !Busy(items, items[i].host) then i
    else RunnableFrom(items, i + 1)
  }

  /** The front-most queued item that no active one of its NVR holds back, or -1. */
  function NextRunnable(items: seq<Item>): (r: int)
    ensures -1 <= r < |items|
    ensures r >= 0 ==> items[r].state == Queued && !Busy(items, items[r].host)
    ensures forall k | 0 <= k < (if r < 0 then |items| else r) && items[k].state == Queued :: Busy(items, items[k].host)
  {
    RunnableFrom(items, 0)
  }

  /** No item waits whose NVR is idle. */
  predicate Quiet(items: seq<Item>) { NextRunnable(items) < 0 }

  function Waiting(items: seq<Item>): nat {
    if items == [] then 0 else (if items[0].state == Queued then 1 else 0) + Waiting(items[1..])
  }

  lemma {:induction false} OneFewerWaiting(items: seq<Item>, i: nat, st: DlState)
    requires i < |items| && items[i].state == Queued && st != Queued
    ensures Waiting(items[i := items[i].(state := st)]) == Waiting(items) - 1
  {
    var r := items[i := items[i].(state := st)];
    if i > 0 {
      OneFewerWaiting(items[1..], i - 1, st);
      assert r[1..] == items[1..][i - 1 := items[i].(state := st)];
    } else {
      assert r[1..] == items[1..];
    }
  }

  function Claimed(items: seq<Item>, i: nat): seq<Item>
    requires i < |items|
  {
    items[i := items[i].(state := Preparing)]
  }

  /** Start everything that may start; the ids started, in order. */
  function Pump(items: seq<Item>): (p: (seq<Item>, seq<int>))
    ensures |p.0| == |items|
    decreases Waiting(items)
  {
    var next := NextRunnable(items);
    if next < 0 then (items, [])
    else
      OneFewerWaiting(items, next, Preparing);
      var (r, started) := Pump(Claimed(items, next));
      (r, [items[next].id] + started)
  }

  function IndexFrom(items: seq<Item>, id: int, i: nat): (r: int)
    requires i <= |items|
    ensures -1 <= r < |items|
    ensures r >= 0 ==> i <= r && items[r].id == id && forall k | i <= k < r :: items[k].id != id
    ensures r < 0 ==> forall k | i <= k < |items| :: items[k].id != id
    decreases |items| - i
  {
    if i == |items| then -1 else if items[i].id == id then i else IndexFrom(items, id, i + 1)
  }

  function IndexOf(items: seq<Item>, id: int): (r: int)
    ensures -1 <= r < |items|
    ensures r >= 0 ==> items[r].id == id && forall k | 0 <= k < r :: items[k].id != id
    ensures r < 0 ==> forall k | 0 <= k < |items| :: items[k].id != id
  {
    IndexFrom(items, id, 0)
  }

  /** A new state for one item; reaching a final state frees its NVR for the next. */
  function Update(items: seq<Item>, id: int, st: DlState): (seq<Item>, seq<int>) {
    var i := IndexOf(items, id);
    if i < 0 then (items, [])
    else
      var r := items[i := items[i].(state := st)];
      if Final(st) && !Final(items[i].state) then Pump(r) else (r, [])
  }

  // ---- the calls ----

  datatype Queue = Queue(items: seq<Item>, nextId: int)

  /** `host` is None when the camera is not usable. The last result is the item's id, or -1. */
  function Enqueue(q: Queue, host: Option<int>, start: int, end: int): (Queue, seq<int>, int) {
    if end - start < MIN_RANGE_SECS || start <= 0 || host.None? then (q, [], -1)
    else
      var it := Item(q.nextId, host.value, start, Min(end, start + MAX_RANGE_SECS), Queued, false);
      var (items, started) := Pump(q.items + [it]);
      (Queue(items, q.nextId + 1), started, q.nextId)
  }

  function Cancel(q: Queue, id: int): (Queue, seq<int>) {
    var i := IndexOf(q.items, id);
    if i < 0 then (q, [])
    else if q.items[i].state == Queued then
      var (items, started) := Update(q.items, id, Cancelled);
      (q.(items := items), started)
    else if Active(q.items[i].state) then (q.(items := q.items[i := q.items[i].(cancel := true)]), [])
    else (q, [])
  }

  function Retry(q: Queue, id: int): (Queue, seq<int>) {
    var i := IndexOf(q.items, id);
    if i < 0 || (q.items[i].state != Failed && q.items[i].state != Cancelled) then (q, [])
    else
      var (items, started) := Pump(q.items[i := q.items[i].(state := Queued, cancel := false)]);
      (q.(items := items), started)
  }

  function Remove(q: Queue, id: int): Queue {
    var i := IndexOf(q.items, id);
    if i < 0 || q.items[i].state == Queued || Active(q.items[i].state) then q
    else q.(items := q.items[..i] + q.items[i + 1..])
  }

  function Unfinished(items: seq<Item>): seq<Item> {
    if items == [] then []
    else (if Final(items[0].state) then [] else [items[0]]) + Unfinished(items[1..])
  }

  function ClearFinished(q: Queue): Queue { q.(items := Unfinished(q.items)) }

  // ---- what pump does ----

  /** Same items in the same places; some queued ones are now being prepared. */
  predicate OnlyClaims(items: seq<Item>, r: seq<Item>) {
    |r| == |items| && forall i | 0 <= i < |items| ::
      r[i] == items[i] || (items[i].state == Queued && r[i] == items[i].(state := Preparing))
  }

  predicate OneAtATime(items: seq<Item>) {
    forall i, j | 0 <= i < j < |items| && Active(items[i].state) && Active(items[j].state) ::
      items[i].host != items[j].host
  }

  predicate DistinctIds(items: seq<Item>) {
    forall i, j | 0 <= i < j < |items| :: items[i].id != items[j].id
  }

  lemma {:induction false} PumpOnlyClaims(items: seq<Item>)
    ensures OnlyClaims(items, Pump(items).0)
    ensures Quiet(Pump(items).0)
    ensures OneAtATime(items) ==> OneAtATime(Pump(items).0)
    decreases Waiting(items)
  {
    hide NextRunnable;
    var next := NextRunnable(items);
    if next >= 0 {
      OneFewerWaiting(items, next, Preparing);
      PumpOnlyClaims(Claimed(items, next));
    }
  }

  /** Pump starts, for each NVR, the first of its queued items in list order, and only if the NVR is idle. */
  lemma {:induction false} PumpStartsTheOldest(items: seq<Item>, i: nat, j: nat)
    requires i < |items| && j < |items|
    requires items[j].state == Queued && Pump(items).0[j].state == Preparing
    ensures !Busy(items, items[j].host)
    ensures i < j && items[i].host == items[j].host ==> items[i].state != Queued
    decreases Waiting(items)
  {
    hide NextRunnable;
    PumpOnlyClaims(items);
    var next := NextRunnable(items);
    if next >= 0 && next != j {
      OneFewerWaiting(items, next, Preparing);
      var r := Claimed(items, next);
      assert Pump(items).0 == Pump(r).0;
      PumpOnlyClaims(r);
      PumpStartsTheOldest(r, i, j);
      if Busy(items, items[j].host) { BusyStays(items, next, items[j].host); }
      if i == next { assert Active(r[next].state) && Busy(r, r[next].host); }
    }
  }

  lemma BusyStays(items: seq<Item>, next: nat, host: int)
    requires next < |items| && items[next].state == Queued && Busy(items, host)
    ensures Busy(Claimed(items, next), host)
  {
    var k :| 0 <= k < |items| && items[k].host == host && Active(items[k].state);
    assert Claimed(items, next)[k] == items[k];
  }

  /** The ids reported as started are exactly those of the items claimed, each once. */
  lemma {:induction false} PumpReportsWhatItStarts(items: seq<Item>, i: nat)
    requires DistinctIds(items) && i < |items|
    ensures multiset(Pump(items).1)[items[i].id] == if Pump(items).0[i] != items[i] then 1 else 0
    decreases Waiting(items)
  {
    hide NextRunnable;
    PumpOnlyClaims(items);
    var next := NextRunnable(items);
    if next >= 0 {
      OneFewerWaiting(items, next, Preparing);
      var r := Claimed(items, next);
      PumpOnlyClaims(r);
      assert DistinctIds(r);
      PumpReportsWhatItStarts(r, i);
      assert multiset(Pump(items).1) == multiset{items[next].id} + multiset(Pump(r).1);
    }
  }

  lemma {:induction false} PumpStartsOnlyItsOwn(items: seq<Item>, id: int)
    requires forall i | 0 <= i < |items| :: items[i].id != id
    ensures multiset(Pump(items).1)[id] == 0
    decreases Waiting(items)
  {
    hide NextRunnable;
    var next := NextRunnable(items);
    if next >= 0 {
      OneFewerWaiting(items, next, Preparing);
      var r := Claimed(items, next);
      PumpStartsOnlyItsOwn(r, id);
      assert multiset(Pump(items).1) == multiset{items[next].id} + multiset(Pump(r).1);
    }
  }

  lemma {:induction false} UnfinishedKeeps(items: seq<Item>, e: Item)
    ensures e in Unfinished(items) <==> e in items && !Final(e.state)
  {
    if items != [] {
      UnfinishedKeeps(items[1..], e);
      assert items == [items[0]] + items[1..];
    }
  }

  lemma {:induction false} UnfinishedStaysApart(items: seq<Item>)
    requires DistinctIds(items)
    ensures DistinctIds(Unfinished(items))
    ensures OneAtATime(items) ==> OneAtATime(Unfinished(items))
  {
    if items != [] {
      UnfinishedStaysApart(items[1..]);
      var u := Unfinished(items[1..]);
      forall k | 0 <= k < |u| ensures u[k].id != items[0].id && exists j :: 1 <= j < |items| && items[j] == u[k] {
        UnfinishedKeeps(items[1..], u[k]);
        var j :| 0 <= j < |items[1..]| && items[1..][j] == u[k];
        assert items[j + 1] == u[k];
      }
    }
  }
}
