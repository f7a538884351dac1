/**
The download queue as the program runs it: handlers that edit the list in place, with update and
pump calling each other. `pool` is the list of jobs handed to the worker pool so far.
 */
module DownloadQueueObject {
  import opened Arithmetic
  import opened Wrappers
  import opened DownloadPlan

  class DownloadQueue {
    var items: seq<Item>
    var nextId: int
    var pool: seq<int>

    ghost function View(): Queue
      reads this
    {
      Queue(items, nextId)
    }

    /** Ids are handed out once. */
    ghost predicate Valid()
      reads this
    {
      DistinctIds(items) && forall i | 0 <= i < |items| :: items[i].id < nextId
    }

    constructor ()
      ensures Valid() && View() == Queue([], 1) && pool == []
    {
      items, nextId, pool := [], 1, [];
    }

    method FindIndex(id: int) returns (i: int)
      ensures i == IndexOf(items, id)
    {
      var k := 0;
      while k < |items|
        invariant 0 <= k <= |items| && IndexFrom(items, id, k) == IndexOf(items, id)
      {
        if items[k].id == id {
          return k;
        }
        k := k + 1;
      }
      return -1;
    }

    method FindRunnable() returns (r: int)
      ensures r == NextRunnable(items)
    {
      var i := 0;
      while i < |items|
        invariant 0 <= i <= |items| && RunnableFrom(items, i) == NextRunnable(items)
      {
        if items[i].state == Queued {
          var busy := false;
          var o := 0;
          while o < |items| && !busy
            invariant 0 <= o <= |items|
            invariant busy ==> Busy(items, items[i].host)
            invariant !busy ==> forall k | 0 <= k < o :: !(items[k].host == items[i].host && Active(items[k].state))
            decreases |items| - o, !busy
          {
            if items[o].host == items[i].host && Active(items[o].state) {
              busy := true;
            } else {
              o := o + 1;
            }
          }
          if !busy {
            return i;
          }
        }
        i := i + 1;
      }
      return -1;
    }

    method Update(id: int, st: DlState)
      requires DistinctIds(items)
      modifies this`items, this`pool
      ensures DistinctIds(items)
      ensures items == DownloadPlan.Update(old(items), id, st).0
      ensures pool == old(pool) + DownloadPlan.Update(old(items), id, st).1
      decreases if Final(st) then 3 else 0
    {
      hide DownloadPlan.Pump;
      var i := FindIndex(id);
      if i < 0 {
        return;
      }
      var wasFinal := items[i].state == Done || items[i].state == Failed || items[i].state == Cancelled;
      items := items[i := items[i].(state := st)];
      var isFinal := st == Done || st == Failed || st == Cancelled;
      if isFinal && !wasFinal {
        Pump();
      }
    }

    /** Claim one item and hand it to the pool; claimed first, so the loop cannot start it twice. */
    method StartAt(next: nat)
      requires DistinctIds(items) && next < |items| && items[next].state == Queued
      modifies this`items, this`pool
      ensures items == Claimed(old(items), next)
      ensures pool == old(pool) + [old(items)[next].id]
      decreases 1
    {
      var id := items[next].id;
      items := items[next := items[next].(state := Preparing)];
      Update(id, Preparing);
      assert items == Claimed(old(items), next);
      pool := pool + [id];
    }

    /** Start every item that may start. */
    method Pump()
      requires DistinctIds(items)
      modifies this`items, this`pool
      ensures DistinctIds(items)
      ensures items == DownloadPlan.Pump(old(items)).0
      ensures pool == old(pool) + DownloadPlan.Pump(old(items)).1
      decreases 2
    {
      hide NextRunnable;
      ghost var whole := DownloadPlan.Pump(items);
      ghost var begun: seq<int> := [];
      assert [] + whole.1 == whole.1;
      var next := FindRunnable();
      while next >= 0
        invariant DistinctIds(items) && next == NextRunnable(items)
        invariant DownloadPlan.Pump(items).0 == whole.0
        invariant begun + DownloadPlan.Pump(items).1 == whole.1
        invariant pool == old(pool) + begun
        decreases Waiting(items)
      {
        ghost var before := items;
        OneFewerWaiting(items, next, Preparing);
        StartAt(next);
        begun := ClaimedFirst(before, next, begun);
        next := FindRunnable();
      }
      assert begun + [] == begun;
    }

    method Enqueue(host: Option<int>, start: int, end: int) returns (id: int)
      requires Valid()
      modifies this
      ensures Valid()
      ensures (View(), id) == (DownloadPlan.Enqueue(old(View()), host, start, end).0,
                DownloadPlan.Enqueue(old(View()), host, start, end).2)
      ensures pool == old(pool) + DownloadPlan.Enqueue(old(View()), host, start, end).1
    {
      hide DownloadPlan.Pump;
      if end - start < MIN_RANGE_SECS || start <= 0 {
        return -1;
      }
      var last := Min(end, start + MAX_RANGE_SECS);
      if host.None? {
        return -1;
      }
      var it := Item(nextId, host.value, start, last, Queued, false);
      nextId := nextId + 1;
      items := items + [it];
      PumpOnlyClaims(items);
      Pump();
      id := items[|items| - 1].id;
    }

    method Cancel(id: int)
      requires Valid()
      modifies this
      ensures Valid()
      ensures View() == DownloadPlan.Cancel(old(View()), id).0
      ensures pool == old(pool) + DownloadPlan.Cancel(old(View()), id).1
    {
      hide DownloadPlan.Pump;
      var i := FindIndex(id);
      if i < 0 {
        return;
      }
      PumpOnlyClaims(items[i := items[i].(state := Cancelled)]);
      if items[i].state == Queued {
        Update(id, Cancelled);
      } else if Active(items[i].state) {
        items := items[i := items[i].(cancel := true)];
        Update(id, items[i].state);
      }
    }

    method Retry(id: int)
      requires Valid()
      modifies this
      ensures Valid()
      ensures View() == DownloadPlan.Retry(old(View()), id).0
      ensures pool == old(pool) + DownloadPlan.Retry(old(View()), id).1
    {
      hide DownloadPlan.Pump;
      var i := FindIndex(id);
      if i < 0 {
        return;
      }
      if items[i].state != Failed && items[i].state != Cancelled {
        return;
      }
      ghost var before := items;
      items := items[i := items[i].(cancel := false)];
      Update(id, Queued);
      assert items == before[i := before[i].(state := Queued, cancel := false)];
      PumpOnlyClaims(items);
      Pump();
    }

    method Remove(id: int)
      requires Valid()
      modifies this`items
      ensures Valid()
      ensures View() == DownloadPlan.Remove(old(View()), id)
    {
      var i := FindIndex(id);
      if i < 0 || items[i].state == Queued || Active(items[i].state) {
        return;
      }
      items := items[..i] + items[i + 1..];
    }

    method ClearFinished()
      requires Valid()
      modifies this`items
      ensures Valid()
      ensures View() == DownloadPlan.ClearFinished(old(View()))
    {
      UnfinishedIsValid(items, nextId);
      DropFinished();
    }

    /** From the end of the list to its start, so that removing one does not move those still to look at. */
    method DropFinished()
      modifies this`items
      ensures items == Unfinished(old(items))
    {
      hide Unfinished;
      ghost var all := items;
      ghost var tail: seq<Item> := [];
      UnfinishedEnd(all);
      var i := |items|;
      while i > 0
        invariant 0 <= i <= |all|
        invariant items == all[..i] + tail && tail == Unfinished(all[i..])
      {
        i := i - 1;
        UnfinishedFrom(all, i);
        var st := items[i].state;
        if st == Done || st == Failed || st == Cancelled {
          items := items[..i] + items[i + 1..];
        } else {
          tail := [all[i]] + tail;
        }
      }
      assert all[0..] == all && all[..0] + tail == tail;
    }
  }

  lemma UnfinishedEnd(all: seq<Item>)
    ensures Unfinished(all[|all|..]) == []
    ensures all == all[..|all|] + []
  {
  }

  lemma UnfinishedIsValid(items: seq<Item>, n: int)
    requires DistinctIds(items) && forall i | 0 <= i < |items| :: items[i].id < n
    ensures DistinctIds(Unfinished(items))
    ensures forall i | 0 <= i < |Unfinished(items)| :: Unfinished(items)[i].id < n
    ensures Unfinished([]) == []
  {
    UnfinishedStaysApart(items);
    forall i | 0 <= i < |Unfinished(items)| ensures Unfinished(items)[i].id < n {
      UnfinishedKeeps(items, Unfinished(items)[i]);
    }
  }

  lemma UnfinishedFrom(all: seq<Item>, i: nat)
    requires i < |all|
    ensures all[..i + 1] == all[..i] + [all[i]]
    ensures Unfinished(all[i..]) == (if Final(all[i].state) then [] else [all[i]]) + Unfinished(all[i + 1..])
  {
    assert all[i..][0] == all[i] && all[i..][1..] == all[i + 1..];
  }

  lemma ClaimedFirst(items: seq<Item>, next: int, begun: seq<int>) returns (more: seq<int>)
    requires next == NextRunnable(items) >= 0
    ensures more == begun + [items[next].id]
    ensures DownloadPlan.Pump(items).0 == DownloadPlan.Pump(Claimed(items, next)).0
    ensures begun + DownloadPlan.Pump(items).1 == more + DownloadPlan.Pump(Claimed(items, next)).1
  {
    hide NextRunnable, Claimed;
    OneFewerWaiting(items, next, Preparing);
    more := begun + [items[next].id];
    var later := DownloadPlan.Pump(Claimed(items, next)).1;
    assert begun + ([items[next].id] + later) == more + later;
  }
}
