/**
The download queue together with its workers and their messages, under every order of user
actions, worker reports and deliveries. A worker reports through messages that the queue's own
thread handles later, so between a worker's end and the delivery of its last message the item
still counts as active.
 */
module DownloadRuns {
  import opened Arithmetic
  import opened Wrappers
  import opened DownloadPlan

  datatype Msg = Msg(id: int, state: DlState)

  /** `running` counts the live workers per item; `mail` holds their messages, oldest first. */
  datatype Sys = Sys(q: Queue, running: multiset<int>, mail: seq<Msg>)

  const START := Sys(Queue([], 1), multiset{}, [])

  datatype Op =
    | OpEnqueue(host: Option<int>, start: int, end: int)
    | OpCancel(id: int) | OpRetry(id: int) | OpRemove(id: int) | OpClearFinished
    | WorkerReports(id: int) | WorkerEnds(id: int, st: DlState)
    | Deliver

  predicate Enabled(s: Sys, op: Op) {
    match op
    case WorkerReports(id) => id in s.running
    case WorkerEnds(id, st) => id in s.running && Final(st)
    case Deliver => s.mail != []
    case _ => true
  }

  function Launch(s: Sys, q: Queue, started: seq<int>): Sys {
    s.(q := q, running := s.running + multiset(started))
  }

  function Next(s: Sys, op: Op): Sys
    requires Enabled(s, op)
  {
    match op
    case OpEnqueue(host, start, end) => var (q, started, _) := Enqueue(s.q, host, start, end); Launch(s, q, started)
    case OpCancel(id) => var (q, started) := Cancel(s.q, id); Launch(s, q, started)
    case OpRetry(id) => var (q, started) := Retry(s.q, id); Launch(s, q, started)
    case OpRemove(id) => s.(q := Remove(s.q, id))
    case OpClearFinished => s.(q := ClearFinished(s.q))
    case WorkerReports(id) => s.(mail := s.mail + [Msg(id, Downloading)])
    case WorkerEnds(id, st) => s.(running := s.running - multiset{id}, mail := s.mail + [Msg(id, st)])
    case Deliver =>
      var (items, started) := Update(s.q.items, s.mail[0].id, s.mail[0].state);
      Launch(s.(mail := s.mail[1..]), s.q.(items := items), started)
  }

  predicate Runs(s: Sys, ops: seq<Op>)
    decreases |ops|
  {
    ops == [] || (Enabled(s, ops[0]) && Runs(Next(s, ops[0]), ops[1..]))
  }

  function After(s: Sys, ops: seq<Op>): Sys
    requires Runs(s, ops)
    decreases |ops|
  {
    if ops == [] then s else After(Next(s, ops[0]), ops[1..])
  }

  // ---- the books ----

  /** Last messages of workers of this item still in the mail. */
  function Ends(mail: seq<Msg>, id: int): nat {
    if mail == [] then 0 else (if mail[0].id == id && Final(mail[0].state) then 1 else 0) + Ends(mail[1..], id)
  }

  /** Workers of this item that are alive or whose last message has not been delivered. */
  function Load(running: multiset<int>, mail: seq<Msg>, id: int): nat {
    running[id] + Ends(mail, id)
  }

  predicate Working(items: seq<Item>, id: int) {
    exists i ::
      0 <= i < |items| && items[i].id == id && Active(items[i].state)
  }

  /** Each active item has exactly one worker, nothing else has any, and no message outlives its worker's last. */
  predicate Books(items: seq<Item>, running: multiset<int>, mail: seq<Msg>) {
    && DistinctIds(items)
    && (forall i | 0 <= i < |items| :: Load(running, mail, items[i].id) == if Active(items[i].state) then 1 else 0)
    && (forall id | id in running :: Working(items, id))
    && (forall k | 0 <= k < |mail| ::
          Working(items, mail[k].id) && (mail[k].state == Downloading || Final(mail[k].state)))
    && (forall j, k | 0 <= j < k < |mail| && mail[j].id == mail[k].id :: !Final(mail[j].state))
  }

  predicate IdsBelow(items: seq<Item>, n: int) {
    forall i | 0 <= i < |items| :: items[i].id < n
  }

  predicate Inv(s: Sys) {
    && Books(s.q.items, s.running, s.mail)
    && IdsBelow(s.q.items, s.q.nextId)
    && OneAtATime(s.q.items)
    && Quiet(s.q.items)
  }

  lemma {:induction false} EndsSplits(a: seq<Msg>, b: seq<Msg>, id: int)
    ensures Ends(a + b, id) == Ends(a, id) + Ends(b, id)
  {
    if a == [] {
      assert a + b == b;
    } else {
      assert (a + b)[0] == a[0] && (a + b)[1..] == a[1..] + b;
      EndsSplits(a[1..], b, id);
    }
  }

  lemma {:induction false} NoMailNoEnd(mail: seq<Msg>, id: int)
    requires forall k | 0 <= k < |mail| :: mail[k].id != id
    ensures Ends(mail, id) == 0
  {
    if mail != [] { NoMailNoEnd(mail[1..], id); }
  }

  /** An item without a place in the list has no worker and no mail. */
  lemma StrangersHaveNoLoad(items: seq<Item>, running: multiset<int>, mail: seq<Msg>, id: int)
    requires Books(items, running, mail) && forall i | 0 <= i < |items| :: items[i].id != id
    ensures Load(running, mail, id) == 0
  {
    assert !Working(items, id);
    NoMailNoEnd(mail, id);
  }

  lemma PumpKeepsBooks(items: seq<Item>, running: multiset<int>, mail: seq<Msg>)
    requires Books(items, running, mail)
    ensures Books(Pump(items).0, running + multiset(Pump(items).1), mail)
  {
    hide Load, Pump, Working;
    var (r, started) := Pump(items);
    PumpOnlyClaims(items);
    forall i | 0 <= i < |r|
      ensures Load(running + multiset(started), mail, r[i].id) == if Active(r[i].state) then 1 else 0
    {
      PumpReportsWhatItStarts(items, i);
      LoadAdds(running, multiset(started), mail, r[i].id);
    }
    forall id | Working(items, id) ensures Working(r, id) { ClaimsKeepWorking(items, r, id); }
    forall id | id in multiset(started) ensures Working(r, id) { StartedIsWorking(items, id); }
  }

  lemma LoadAdds(running: multiset<int>, more: multiset<int>, mail: seq<Msg>, id: int)
    ensures Load(running + more, mail, id) == Load(running, mail, id) + more[id]
  {
  }

  lemma ClaimsKeepWorking(items: seq<Item>, r: seq<Item>, id: int)
    requires OnlyClaims(items, r) && Working(items, id)
    ensures Working(r, id)
  {
    var i :| 0 <= i < |items| && items[i].id == id && Active(items[i].state);
    assert r[i] == items[i];
  }

  lemma StartedIsWorking(items: seq<Item>, id: int)
    requires DistinctIds(items) && id in multiset(Pump(items).1)
    ensures Working(Pump(items).0, id)
  {
    hide Pump;
    PumpOnlyClaims(items);
    if i :| 0 <= i < |items| && items[i].id == id {
      PumpReportsWhatItStarts(items, i);
      assert Pump(items).0[i].id == id;
    } else {
      PumpStartsOnlyItsOwn(items, id);
    }
  }

  /** After a handler that pumped. */
  lemma PumpedIsOk(s: Sys, items: seq<Item>, mail: seq<Msg>, nextId: int)
    requires Books(items, s.running, mail) && IdsBelow(items, nextId) && OneAtATime(items)
    ensures Inv(Sys(Queue(Pump(items).0, nextId), s.running + multiset(Pump(items).1), mail))
  {
    hide Books, Pump, Quiet, OneAtATime;
    PumpKeepsBooks(items, s.running, mail);
    PumpOnlyClaims(items);
  }

  // ---- each call keeps the books ----

  lemma NewItemKeepsBooks(s: Sys, it: Item)
    requires Inv(s) && it.id == s.q.nextId && it.state == Queued
    ensures Books(s.q.items + [it], s.running, s.mail)
    ensures OneAtATime(s.q.items + [it])
  {
    hide Load, Quiet;
    var items, r := s.q.items, s.q.items + [it];
    StrangersHaveNoLoad(items, s.running, s.mail, it.id);
    forall id | Working(items, id) ensures Working(r, id) {
      var i :| 0 <= i < |items| && items[i].id == id && Active(items[i].state);
      assert r[i] == items[i];
    }
  }

  /** Changing one inactive item into another inactive state. */
  lemma IdleChangeKeepsBooks(s: Sys, i: nat, it: Item)
    requires Inv(s) && i < |s.q.items| && !Active(s.q.items[i].state) && !Active(it.state)
    requires it.id == s.q.items[i].id
    ensures var r := s.q.items[i := it];
            Books(r, s.running, s.mail) && OneAtATime(r) && IdsBelow(r, s.q.nextId)
  {
    hide Load, Quiet;
    var items, r := s.q.items, s.q.items[i := it];
    forall id | Working(items, id) ensures Working(r, id) {
      var k :| 0 <= k < |items| && items[k].id == id && Active(items[k].state);
      assert r[k] == items[k];
    }
  }

  lemma NothingStarted(m: multiset<int>)
    ensures m + multiset([]) == m
  {
  }

  lemma EnqueueKeepsInv(s: Sys, host: Option<int>, start: int, end: int)
    requires Inv(s)
    ensures Inv(Next(s, OpEnqueue(host, start, end)))
  {
    hide Inv, Pump;
    NothingStarted(s.running);
    if end - start >= MIN_RANGE_SECS && start > 0 && host.Some? {
      var it := Item(s.q.nextId, host.value, start, Min(end, start + MAX_RANGE_SECS), Queued, false);
      NewItemKeepsBooks(s, it);
      OneIdMore(s, it);
      PumpedIsOk(s, s.q.items + [it], s.mail, s.q.nextId + 1);
    }
  }

  /** Where every queued item but i has a busy NVR, pump starts item i if its NVR is idle, and nothing else. */
  lemma PumpStartsAtMost(r: seq<Item>, i: nat)
    requires i < |r| && r[i].state == Queued
    requires forall k | 0 <= k < |r| && k != i && r[k].state == Queued :: Busy(r, r[k].host)
    ensures Pump(r) == if Busy(r, r[i].host) then (r, []) else (Claimed(r, i), [r[i].id])
  {
    if Busy(r, r[i].host) {
    } else {
      var c := Claimed(r, i);
      forall k | 0 <= k < |c| && c[k].state == Queued ensures Busy(c, c[k].host) { BusyStays(r, i, r[k].host); }
      assert NextRunnable(r) == i && Pump(c) == (c, []);
      assert [r[i].id] + [] == [r[i].id];
    }
  }

  /** Items that stay where they are keep their NVRs busy. */
  lemma StillBusy(items: seq<Item>, r: seq<Item>, host: int)
    requires Busy(items, host)
    requires forall k | 0 <= k < |items| && Active(items[k].state) :: k < |r| && r[k] == items[k]
    ensures Busy(r, host)
  {
    var b :| 0 <= b < |items| && items[b].host == host && Active(items[b].state);
    assert r[b] == items[b];
  }

  predicate UnderWay(it: Item) { it.state == Preparing || it.state == Downloading }

  /** Nothing of this NVR is being prepared or downloaded. */
  predicate Free(items: seq<Item>, host: int) {
    forall k | 0 <= k < |items| && items[k].host == host :: !UnderWay(items[k])
  }

  lemma FreeMeansNotBusy(items: seq<Item>, host: int)
    ensures Free(items, host) <==> !Busy(items, host)
  {
  }

  /** A usable request joins the list under a new id, cut to six hours, and starts at once exactly if its NVR is idle;
      nothing else changes. */
  lemma EnqueueStartsAtOnceIfIdle(s: Sys, host: Option<int>, start: int, end: int)
    requires Inv(s)
    ensures var (q, started, id) := Enqueue(s.q, host, start, end);
            if host.Some? && start > 0 && end - start >= 2 then
              var idle := Free(s.q.items, host.value);
              var last := if end - start > 21600 then start + 21600 else end;
              && id == s.q.nextId && q.nextId == id + 1
              && q.items == s.q.items + [Item(id, host.value, start, last, if idle then Preparing else Queued, false)]
              && started == if idle then [id] else []
            else id == -1 && q == s.q && started == []
  {
    hide Pump, Free, Books, OneAtATime;
    if host.Some? && start > 0 && end - start >= 2 {
      FreeMeansNotBusy(s.q.items, host.value);
      var items, it := s.q.items, Item(s.q.nextId, host.value, start, Min(end, start + MAX_RANGE_SECS), Queued, false);
      var r := items + [it];
      forall k | 0 <= k < |items| && items[k].state == Queued
        ensures Busy(r, r[k].host)
      {
        StillBusy(items, r, r[k].host);
      }
      if Busy(items, it.host) { StillBusy(items, r, it.host); }
      PumpStartsAtMost(r, |items|);
    }
  }

  /** Retrying a failed or cancelled item clears its cancel flag and starts it at once exactly if its NVR is idle;
      nothing else changes, and for any other item nothing at all does. */
  lemma RetryStartsAtOnceIfIdle(s: Sys, id: int)
    requires Inv(s)
    ensures var items, i := s.q.items, IndexOf(s.q.items, id);
            Retry(s.q, id) ==
              if i >= 0 && (items[i].state == Failed || items[i].state == Cancelled) then
                var idle := Free(items, items[i].host);
                (s.q.(items := items[i := items[i].(state := if idle then Preparing else Queued, cancel := false)]),
                 if idle then [id] else [])
              else (s.q, [])
  {
    hide Pump, IndexOf, Free, Books, DistinctIds, OneAtATime;
    var items, i := s.q.items, IndexOf(s.q.items, id);
    if i >= 0 { FreeMeansNotBusy(items, items[i].host); }
    if i >= 0 && (items[i].state == Failed || items[i].state == Cancelled) {
      var r := items[i := items[i].(state := Queued, cancel := false)];
      forall k | 0 <= k < |items| && k != i && r[k].state == Queued
        ensures Busy(r, r[k].host)
      {
        StillBusy(items, r, r[k].host);
      }
      if Busy(items, items[i].host) { StillBusy(items, r, items[i].host); }
      if Busy(r, items[i].host) { StillBusy(r, items, items[i].host); }
      PumpStartsAtMost(r, i);
      assert Claimed(r, i) == items[i := items[i].(state := Preparing, cancel := false)];
    }
  }

  /** Cancelling ends a queued item on the spot and only asks the worker of an active one; nothing else changes, and
      nothing is started. */
  lemma CancelTouchesOnlyThatItem(s: Sys, id: int)
    requires Inv(s)
    ensures var items, i := s.q.items, IndexOf(s.q.items, id);
            Cancel(s.q, id) ==
              if i < 0 || Final(items[i].state) then (s.q, [])
              else if items[i].state == Queued then (s.q.(items := items[i := items[i].(state := Cancelled)]), [])
              else (s.q.(items := items[i := items[i].(cancel := true)]), [])
  {
    hide IndexOf;
    var items, i := s.q.items, IndexOf(s.q.items, id);
    if i >= 0 && items[i].state == Queued {
      var r := items[i := items[i].(state := Cancelled)];
      forall k | 0 <= k < |r| && r[k].state == Queued ensures Busy(r, r[k].host) { StillBusy(items, r, r[k].host); }
      assert Pump(r) == (r, []);
    }
  }

  /** Pump starts item i if its NVR is idle, every queued item in front of it waits for a busy NVR, and every one
      behind it for a busy one or for the same, and then nothing else. */
  lemma PumpStartsJust(r: seq<Item>, i: nat)
    requires i < |r| && r[i].state == Queued && !Busy(r, r[i].host)
    requires forall k | 0 <= k < |r| && k != i && r[k].state == Queued ::
               Busy(r, r[k].host) || (k > i && r[k].host == r[i].host)
    ensures Pump(r) == (Claimed(r, i), [r[i].id])
  {
    var c := Claimed(r, i);
    assert Active(c[i].state) && Busy(c, c[i].host);
    forall k | 0 <= k < |c| && c[k].state == Queued ensures Busy(c, c[k].host) {
      if Busy(r, r[k].host) { BusyStays(r, i, r[k].host); }
    }
    assert NextRunnable(r) == i && Pump(c) == (c, []);
    assert [r[i].id] + [] == [r[i].id];
  }

  /** No item of this NVR waits in front of position k, where one does; k is -1 if none waits at all. */
  predicate FirstOfHost(items: seq<Item>, host: int, k: int) {
    && -1 <= k < |items|
    && (k >= 0 ==> items[k].host == host && items[k].state == Queued)
    && forall j | 0 <= j < (if k < 0 then |items| else k) && items[j].state == Queued :: items[j].host != host
  }

  function FirstWaiting(items: seq<Item>, host: int, i: nat): (k: int)
    requires i <= |items|
    ensures -1 <= k < |items|
    ensures k >= 0 ==> i <= k && items[k].host == host && items[k].state == Queued
    ensures forall j | i <= j < (if k < 0 then |items| else k) && items[j].state == Queued :: items[j].host != host
    decreases |items| - i
  {
    if i == |items| then -1
    else if items[i].host == host && items[i].state == Queued then i else FirstWaiting(items, host, i + 1)
  }

  /** The item whose worker ended, at i, gives its NVR to the first item that waits for it, at k. */
  lemma NvrIsHandedOn(s: Sys, i: nat, st: DlState, k: int)
    requires Inv(s) && i < |s.q.items| && Active(s.q.items[i].state) && Final(st)
    requires FirstOfHost(s.q.items, s.q.items[i].host, k)
    ensures var r := s.q.items[i := s.q.items[i].(state := st)];
            Pump(r) == if k < 0 then (r, []) else (r[k := r[k].(state := Preparing)], [r[k].id])
  {
    hide Books, Pump;
    var items, host := s.q.items, s.q.items[i].host;
    var r := items[i := items[i].(state := st)];
    assert !Busy(r, host);
    forall j | 0 <= j < |r| && r[j].state == Queued && r[j].host != host ensures Busy(r, r[j].host) {
      BusyElsewhere(items, r, i, r[j].host);
    }
    if k < 0 { NothingToPump(r); } else { PumpStartsJust(r, k); }
  }

  lemma BusyElsewhere(items: seq<Item>, r: seq<Item>, i: nat, host: int)
    requires i < |items| == |r| && (forall k | 0 <= k < |items| && k != i :: r[k] == items[k])
    requires Busy(items, host) && host != items[i].host
    ensures Busy(r, host)
  {
    var b :| 0 <= b < |items| && items[b].host == host && Active(items[b].state);
    assert r[b] == items[b];
  }

  lemma NothingToPump(r: seq<Item>)
    requires forall j | 0 <= j < |r| && r[j].state == Queued :: Busy(r, r[j].host)
    ensures Pump(r) == (r, [])
  {
  }

  /** A worker's message takes effect when it is delivered: its item gets exactly the state reported, and if that ends
      it, the first item that waits for its NVR, if there is one, is started at once; nothing else changes. */
  lemma DeliveryTakesEffect(s: Sys) returns (i: nat, k: int)
    requires Inv(s) && s.mail != []
    ensures var m, n := s.mail[0], Next(s, Deliver);
            var items := s.q.items;
            && i < |items| && items[i].id == m.id && FirstOfHost(items, items[i].host, k)
            && n.mail == s.mail[1..] && n.q.nextId == s.q.nextId
            && var r := items[i := items[i].(state := m.state)];
            if m.state == Downloading || k < 0 then n.q.items == r && n.running == s.running
            else n.q.items == r[k := r[k].(state := Preparing)] && n.running == s.running + multiset{items[k].id}
  {
    hide Pump, IndexOf, Load, Books;
    var items, m := s.q.items, s.mail[0];
    HeadIsForAnActiveItem(s);
    ActiveOne(s, m.id);
    NothingStarted(s.running);
    i := IndexOf(items, m.id);
    k := FirstWaiting(items, items[i].host, 0);
    if m.state != Downloading { NvrIsHandedOn(s, i, m.state, k); }
  }

  /** Only an item that is done, failed or cancelled can be removed; all others stay where they were. */
  lemma RemoveTakesOnlyThatItem(q: Queue, id: int)
    ensures var items, i := q.items, IndexOf(q.items, id);
            Remove(q, id) ==
              if i >= 0 && (items[i].state == Done || items[i].state == Failed || items[i].state == Cancelled)
              then q.(items := items[..i] + items[i + 1..]) else q
  {
    hide IndexOf;
  }

  lemma {:induction false} UnfinishedSplits(a: seq<Item>, b: seq<Item>)
    ensures Unfinished(a + b) == Unfinished(a) + Unfinished(b)
  {
    if a == [] {
      assert a + b == b;
    } else {
      assert (a + b)[0] == a[0] && (a + b)[1..] == a[1..] + b;
      UnfinishedSplits(a[1..], b);
    }
  }

  lemma UnfinishedOne(it: Item)
    ensures Unfinished([it]) == if it.state == Queued || UnderWay(it) then [it] else []
  {
    assert [it][1..] == [];
  }

  /** Clearing keeps what is queued or under way, in its order: it works item by item. */
  lemma ClearKeepsTheRest(a: seq<Item>, it: Item, b: seq<Item>)
    ensures Unfinished(a + [it] + b)
         == Unfinished(a) + (if it.state == Queued || UnderWay(it) then [it] else []) + Unfinished(b)
  {
    hide Unfinished;
    UnfinishedSplits(a + [it], b);
    UnfinishedSplits(a, [it]);
    UnfinishedOne(it);
  }

  lemma OneIdMore(s: Sys, it: Item)
    requires Inv(s) && it.id == s.q.nextId
    ensures IdsBelow(s.q.items + [it], s.q.nextId + 1)
  {
  }

  /** The same items with the same ids, and active exactly where they were. */
  predicate SameActivity(items: seq<Item>, r: seq<Item>) {
    |r| == |items| && forall i | 0 <= i < |items| ::
      r[i].id == items[i].id && r[i].host == items[i].host && (Active(r[i].state) <==> Active(items[i].state))
      && (r[i].state == Queued ==> items[i].state == Queued)
  }

  lemma SameActivityKeepsBooks(items: seq<Item>, r: seq<Item>, running: multiset<int>, mail: seq<Msg>)
    requires Books(items, running, mail) && SameActivity(items, r)
    ensures Books(r, running, mail)
  {
    hide Load;
    forall id | Working(items, id) ensures Working(r, id) {
      var k :| 0 <= k < |items| && items[k].id == id && Active(items[k].state);
      assert r[k].id == id && Active(r[k].state);
    }
  }

  lemma SameActivityKeepsQuiet(items: seq<Item>, r: seq<Item>)
    requires SameActivity(items, r) && Quiet(items) && OneAtATime(items)
    ensures Quiet(r) && OneAtATime(r)
  {
    forall k | 0 <= k < |r| && r[k].state == Queued ensures Busy(r, r[k].host) {
      assert Busy(items, items[k].host);
      var b :| 0 <= b < |items| && items[b].host == items[k].host && Active(items[b].state);
      assert r[b].host == r[k].host && Active(r[b].state);
    }
  }

  lemma SameActivityKeepsInv(s: Sys, r: seq<Item>)
    requires Inv(s) && SameActivity(s.q.items, r)
    ensures Inv(s.(q := s.q.(items := r)))
  {
    hide Books, Quiet, OneAtATime;
    SameActivityKeepsBooks(s.q.items, r, s.running, s.mail);
    SameActivityKeepsQuiet(s.q.items, r);
  }

  lemma CancelKeepsInv(s: Sys, id: int)
    requires Inv(s)
    ensures Inv(Next(s, OpCancel(id)))
  {
    hide Inv, Pump, IndexOf;
    NothingStarted(s.running);
    var i := IndexOf(s.q.items, id);
    if i >= 0 {
      if s.q.items[i].state == Queued {
        var it := s.q.items[i].(state := Cancelled);
        IdleChangeKeepsBooks(s, i, it);
        PumpedIsOk(s, s.q.items[i := it], s.mail, s.q.nextId);
      } else {
        SameActivityKeepsInv(s, s.q.items[i := s.q.items[i].(cancel := true)]);
      }
    }
  }

  lemma RetryKeepsInv(s: Sys, id: int)
    requires Inv(s)
    ensures Inv(Next(s, OpRetry(id)))
  {
    hide Inv, Pump, IndexOf;
    NothingStarted(s.running);
    var i := IndexOf(s.q.items, id);
    if i >= 0 && (s.q.items[i].state == Failed || s.q.items[i].state == Cancelled) {
      var it := s.q.items[i].(state := Queued, cancel := false);
      IdleChangeKeepsBooks(s, i, it);
      PumpedIsOk(s, s.q.items[i := it], s.mail, s.q.nextId);
    }
  }

  /** r is items without some that are finished. */
  predicate DropsFinished(items: seq<Item>, r: seq<Item>) {
    && (forall i | 0 <= i < |r| :: r[i] in items)
    && (forall i | 0 <= i < |items| && !Final(items[i].state) :: items[i] in r)
    && DistinctIds(r)
  }

  lemma DropsFinishedKeepsBooks(s: Sys, r: seq<Item>)
    requires Inv(s) && DropsFinished(s.q.items, r)
    ensures Books(r, s.running, s.mail) && IdsBelow(r, s.q.nextId)
  {
    hide Load, Quiet;
    var items := s.q.items;
    forall id | Working(items, id) ensures Working(r, id) {
      var i :| 0 <= i < |items| && items[i].id == id && Active(items[i].state);
      assert items[i] in r;
    }
    forall i | 0 <= i < |r| ensures exists k :: 0 <= k < |items| && items[k] == r[i] {
      assert r[i] in items;
    }
  }

  lemma DropsFinishedKeepsQuiet(items: seq<Item>, r: seq<Item>)
    requires DropsFinished(items, r) && Quiet(items)
    ensures Quiet(r)
  {
    forall k | 0 <= k < |r| && r[k].state == Queued ensures Busy(r, r[k].host) {
      assert r[k] in items;
      var m :| 0 <= m < |items| && items[m] == r[k];
      assert Busy(items, items[m].host);
      var b :| 0 <= b < |items| && items[b].host == items[m].host && Active(items[b].state);
      assert items[b] in r;
    }
  }

  lemma DropsFinishedKeepsInv(s: Sys, r: seq<Item>)
    requires Inv(s) && DropsFinished(s.q.items, r) && OneAtATime(r)
    ensures Inv(s.(q := s.q.(items := r)))
  {
    hide Books, Quiet, OneAtATime, DropsFinished;
    DropsFinishedKeepsBooks(s, r);
    DropsFinishedKeepsQuiet(s.q.items, r);
  }

  lemma RemoveKeepsInv(s: Sys, id: int)
    requires Inv(s)
    ensures Inv(Next(s, OpRemove(id)))
  {
    hide Inv, IndexOf;
    var i := IndexOf(s.q.items, id);
    if i >= 0 && Final(s.q.items[i].state) {
      DroppingOne(s, i);
      DropsFinishedKeepsInv(s, s.q.items[..i] + s.q.items[i + 1..]);
    }
  }

  lemma DroppingOne(s: Sys, i: nat)
    requires Inv(s) && i < |s.q.items| && Final(s.q.items[i].state)
    ensures var r := s.q.items[..i] + s.q.items[i + 1..];
            DropsFinished(s.q.items, r) && OneAtATime(r)
  {
    hide Books, Quiet;
    var items := s.q.items;
    var r := items[..i] + items[i + 1..];
    BooksDistinct(s);
    assert forall k | 0 <= k < |r| :: r[k] == items[if k < i then k else k + 1];
    forall k | 0 <= k < |items| && !Final(items[k].state) ensures items[k] in r {
      assert r[if k < i then k else k - 1] == items[k];
    }
  }

  lemma BooksDistinct(s: Sys)
    requires Inv(s)
    ensures DistinctIds(s.q.items)
  {
  }

  lemma UnfinishedDropsFinished(s: Sys)
    requires Inv(s)
    ensures DropsFinished(s.q.items, Unfinished(s.q.items)) && OneAtATime(Unfinished(s.q.items))
  {
    hide Books, Quiet, Unfinished, DistinctIds, OneAtATime;
    BooksDistinct(s);
    UnfinishedStaysApart(s.q.items);
    var r := Unfinished(s.q.items);
    forall i | 0 <= i < |r| ensures r[i] in s.q.items { UnfinishedKeeps(s.q.items, r[i]); }
    forall i | 0 <= i < |s.q.items| && !Final(s.q.items[i].state) ensures s.q.items[i] in r {
      UnfinishedKeeps(s.q.items, s.q.items[i]);
    }
  }

  lemma ActiveOne(s: Sys, id: int)
    requires Inv(s) && Working(s.q.items, id)
    ensures var i := IndexOf(s.q.items, id);
            i >= 0 && Active(s.q.items[i].state) && Load(s.running, s.mail, id) == 1
  {
    hide Load, Quiet, OneAtATime, IdsBelow;
  }

  lemma WorkerPostKeepsInv(s: Sys, id: int, st: DlState, running: multiset<int>)
    requires Inv(s) && id in s.running && (st == Downloading || Final(st))
    requires running == if Final(st) then s.running - multiset{id} else s.running
    ensures Inv(s.(running := running, mail := s.mail + [Msg(id, st)]))
  {
    hide Quiet, OneAtATime, IdsBelow, Working;
    var mail := s.mail + [Msg(id, st)];
    ActiveOne(s, id);
    var i := IndexOf(s.q.items, id);
    forall k | 0 <= k < |s.mail| && s.mail[k].id == id ensures !Final(s.mail[k].state) { NoEndInMail(s.mail, id, k); }
    forall k | 0 <= k < |s.q.items|
      ensures Load(running, mail, s.q.items[k].id) == if Active(s.q.items[k].state) then 1 else 0
    {
      EndsSplits(s.mail, [Msg(id, st)], s.q.items[k].id);
      assert Ends([Msg(id, st)], s.q.items[k].id) == if s.q.items[k].id == id && Final(st) then 1 else 0;
    }
  }

  lemma {:induction false} NoEndInMail(mail: seq<Msg>, id: int, k: nat)
    requires k < |mail| && mail[k].id == id && Ends(mail, id) == 0
    ensures !Final(mail[k].state)
  {
    if k > 0 { NoEndInMail(mail[1..], id, k - 1); }
  }

  lemma DeliverKeepsInv(s: Sys)
    requires Inv(s) && s.mail != []
    ensures Inv(Next(s, Deliver))
  {
    hide Inv, Pump, IndexOf, Load;
    var m := s.mail[0];
    HeadIsForAnActiveItem(s);
    ActiveOne(s, m.id);
    var i := IndexOf(s.q.items, m.id);
    NothingStarted(s.running);
    var r := s.q.items[i := s.q.items[i].(state := m.state)];
    if m.state == Downloading {
      ReportKeepsInv(s, i);
    } else {
      EndKeepsBooks(s, i);
      PumpedIsOk(s, r, s.mail[1..], s.q.nextId);
    }
  }

  lemma HeadIsForAnActiveItem(s: Sys)
    requires Inv(s) && s.mail != []
    ensures Working(s.q.items, s.mail[0].id)
    ensures (s.mail[0].state == Downloading || Final(s.mail[0].state))
  {
    hide Quiet, OneAtATime, IdsBelow, Working, Load;
  }

  lemma ReportKeepsInv(s: Sys, i: nat)
    requires Inv(s) && s.mail != [] && s.mail[0].state == Downloading
    requires i < |s.q.items| && Active(s.q.items[i].state)
    ensures Inv(s.(q := s.q.(items := s.q.items[i := s.q.items[i].(state := Downloading)]), mail := s.mail[1..]))
  {
    hide Books, Quiet, OneAtATime, IdsBelow;
    PoppedReport(s.q.items, s.running, s.mail);
    SameActivityKeepsInv(s.(mail := s.mail[1..]), s.q.items[i := s.q.items[i].(state := Downloading)]);
  }

  lemma PoppedReport(items: seq<Item>, running: multiset<int>, mail: seq<Msg>)
    requires Books(items, running, mail) && mail != [] && mail[0].state == Downloading
    ensures Books(items, running, mail[1..])
  {
    hide Working;
    assert forall id :: Ends(mail, id) == Ends(mail[1..], id);
    assert forall k | 0 <= k < |mail| - 1 :: mail[1..][k] == mail[k + 1];
  }

  /** With its worker's last message delivered, the item has no worker left. */
  lemma EndKeepsBooks(s: Sys, i: nat)
    requires Inv(s) && s.mail != [] && Final(s.mail[0].state)
    requires i < |s.q.items| && s.q.items[i].id == s.mail[0].id && Active(s.q.items[i].state)
    ensures var r := s.q.items[i := s.q.items[i].(state := s.mail[0].state)];
            Books(r, s.running, s.mail[1..]) && OneAtATime(r) && IdsBelow(r, s.q.nextId)
  {
    hide Quiet, Working, Ends;
    var items, id, rest := s.q.items, s.mail[0].id, s.mail[1..];
    var r := items[i := items[i].(state := s.mail[0].state)];
    assert forall k | 0 <= k < |rest| :: rest[k] == s.mail[k + 1] && rest[k].id != id;
    NoMailNoEnd(rest, id);
    forall other
      ensures Ends(s.mail, other) == Ends(rest, other) + if other == id then 1 else 0
    {
      PoppedEnd(s.mail, other);
    }
    OthersKeepWorking(items, r, i);
  }

  lemma PoppedEnd(mail: seq<Msg>, id: int)
    requires mail != [] && Final(mail[0].state)
    ensures Ends(mail, id) == Ends(mail[1..], id) + if id == mail[0].id then 1 else 0
  {
  }

  lemma OthersKeepWorking(items: seq<Item>, r: seq<Item>, i: nat)
    requires i < |items| == |r| && forall k | 0 <= k < |items| && k != i :: r[k] == items[k]
    ensures forall id | id != items[i].id && Working(items, id) :: Working(r, id)
  {
    forall id | id != items[i].id && Working(items, id) ensures Working(r, id) {
      var k :| 0 <= k < |items| && items[k].id == id && Active(items[k].state);
      assert r[k] == items[k];
    }
  }

  lemma NextKeepsInv(s: Sys, op: Op)
    requires Inv(s) && Enabled(s, op)
    ensures Inv(Next(s, op))
  {
    hide Inv;
    match op
    case OpEnqueue(host, start, end) => EnqueueKeepsInv(s, host, start, end);
    case OpCancel(id) => CancelKeepsInv(s, id);
    case OpRetry(id) => RetryKeepsInv(s, id);
    case OpRemove(id) => RemoveKeepsInv(s, id);
    case OpClearFinished =>
      UnfinishedDropsFinished(s);
      DropsFinishedKeepsInv(s, Unfinished(s.q.items));
    case WorkerReports(id) => WorkerPostKeepsInv(s, id, Downloading, s.running);
    case WorkerEnds(id, st) => WorkerPostKeepsInv(s, id, st, s.running - multiset{id});
    case Deliver => DeliverKeepsInv(s);
  }

  lemma {:induction false} InvHoldsThroughout(s: Sys, ops: seq<Op>)
    requires Inv(s) && Runs(s, ops)
    ensures Inv(After(s, ops))
    decreases |ops|
  {
    hide Inv, Enabled, Next;
    if ops != [] {
      NextKeepsInv(s, ops[0]);
      InvHoldsThroughout(Next(s, ops[0]), ops[1..]);
    }
  }

  /** After any run: at most one active item per NVR; each active item has exactly one worker alive or with its
      last message in the mail, every other item none; nothing runs for items off the list; and no item waits for
      an idle NVR. */
  lemma EveryRunKeepsOneWorkerPerActiveItem(ops: seq<Op>)
    requires Runs(START, ops)
    ensures var s := After(START, ops);
            var items := s.q.items;
            && (forall i, j | 0 <= i < j < |items| && UnderWay(items[i]) && UnderWay(items[j]) ::
                  items[i].host != items[j].host)
            && (forall i | 0 <= i < |items| ::
                  Load(s.running, s.mail, items[i].id) == if UnderWay(items[i]) then 1 else 0)
            && (forall id | id in s.running :: exists i :: 0 <= i < |items| && items[i].id == id && UnderWay(items[i]))
            && (forall i | 0 <= i < |items| && items[i].state == Queued ::
                  exists j :: 0 <= j < |items| && items[j].host == items[i].host && UnderWay(items[j]))
  {
    hide After, Runs, Load;
    assert Inv(START);
    InvHoldsThroughout(START, ops);
    var items := After(START, ops).q.items;
    forall i | 0 <= i < |items| && items[i].state == Queued
      ensures exists j :: 0 <= j < |items| && items[j].host == items[i].host && UnderWay(items[j])
    {
      assert Busy(items, items[i].host);
      var j :| 0 <= j < |items| && items[j].host == items[i].host && Active(items[j].state);
      assert UnderWay(items[j]);
    }
  }


  /** After any run no message is stale: each one waiting is about an item in the list that is still active, and a
      final one is the last for its item. */
  lemma EveryMessageIsForAnActiveItem(ops: seq<Op>)
    requires Runs(START, ops)
    ensures var s := After(START, ops);
            && (forall k | 0 <= k < |s.mail| ::
                  && (exists i :: 0 <= i < |s.q.items| && s.q.items[i].id == s.mail[k].id && UnderWay(s.q.items[i]))
                  && s.mail[k].state != Queued && s.mail[k].state != Preparing)
            && (forall j, k | 0 <= j < k < |s.mail| && s.mail[j].id == s.mail[k].id :: s.mail[j].state == Downloading)
  {
    hide After, Runs, Load;
    assert Inv(START);
    InvHoldsThroughout(START, ops);
  }
}
