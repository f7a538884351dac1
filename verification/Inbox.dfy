/**
The event inbox as a value: the newest events, the rows the current filter shows, and the table
they are stored in. The view is defined by recomputation from scratch; EventManager.dfy maintains
it incrementally and is proved to agree.
 */
module EventInbox {

  const MAX_EVENTS: nat := 100

  datatype Rec = Rec(
    id: int, hostId: int, channel: int, timestamp: int, kind: string, camera: string, thumbnail: string)

  /** An empty filter lets everything through. */
  datatype Filter = Filter(kind: string, camera: string)

  predicate Matches(f: Filter, r: Rec) {
    && (f.kind == "" || r.kind == f.kind)
    && (f.camera == "" || r.camera == f.camera)
  }

  /** The positions of the matching records, computed from scratch. */
  function Indices(f: Filter, all: seq<Rec>): seq<nat> {
    if all == [] then []
    else Indices(f, all[..|all| - 1]) + if Matches(f, all[|all| - 1]) then [|all| - 1] else []
  }

  predicate Ascending(v: seq<nat>) { forall i, j | 0 <= i < j < |v| :: v[i] < v[j] }

  lemma {:induction false} IndexIffMatch(f: Filter, all: seq<Rec>, i: nat)
    ensures i in Indices(f, all) <==> i < |all| && Matches(f, all[i])
  {
    if all != [] {
      var n := |all| - 1;
      IndexIffMatch(f, all[..n], i);
      if i < n { assert all[..n][i] == all[i]; }
    }
  }

  lemma {:induction false} IndicesAscend(f: Filter, all: seq<Rec>)
    ensures Ascending(Indices(f, all))
  {
    if all != [] {
      var n := |all| - 1;
      var v := Indices(f, all[..n]);
      IndicesAscend(f, all[..n]);
      forall i | 0 <= i < |v| ensures v[i] < n {
        assert v[i] in v;
        IndexIffMatch(f, all[..n], v[i]);
      }
    }
  }

  /** They are ascending, and exactly the positions of the records of the type and of the camera asked for, if any. */
  lemma {:induction false} IndicesAreTheMatches(f: Filter, all: seq<Rec>)
    ensures forall i, j | 0 <= i < j < |Indices(f, all)| :: Indices(f, all)[i] < Indices(f, all)[j]
    ensures forall i: nat :: i in Indices(f, all) <==>
              i < |all| && (f.kind == "" || f.kind == all[i].kind) && (f.camera == "" || f.camera == all[i].camera)
  {
    hide Indices;
    IndicesAscend(f, all);
    forall i: nat ensures i in Indices(f, all) <==>
        i < |all| && (f.kind == "" || f.kind == all[i].kind) && (f.camera == "" || f.camera == all[i].camera)
    {
      IndexIffMatch(f, all, i);
    }
  }

  function Shifted(v: seq<nat>): (r: seq<nat>)
    ensures |r| == |v|
    ensures forall i | 0 <= i < |v| :: r[i] == v[i] + 1
  {
    seq(|v|, i requires 0 <= i < |v| => v[i] + 1)
  }

  lemma IndicesOfOneMore(f: Filter, all: seq<Rec>, r: Rec)
    ensures Indices(f, all + [r]) == Indices(f, all) + if Matches(f, r) then [|all|] else []
  {
    assert (all + [r])[..|all|] == all;
  }

  /** A record in front moves every position up by one. */
  lemma {:induction false} IndicesOfPrepended(f: Filter, r: Rec, all: seq<Rec>)
    ensures Indices(f, [r] + all) == (if Matches(f, r) then [0] else []) + Shifted(Indices(f, all))
    decreases |all|
  {
    hide Indices, Matches, Shifted;
    if all == [] {
      NoRecords(f, r);
    } else {
      var n := |all| - 1;
      IndicesOfPrepended(f, r, all[..n]);
      assert all == all[..n] + [all[n]] && [r] + all == ([r] + all[..n]) + [all[n]];
      IndicesOfOneMore(f, all[..n], all[n]);
      IndicesOfOneMore(f, [r] + all[..n], all[n]);
    }
  }

  lemma NoRecords(f: Filter, r: Rec)
    ensures Indices(f, []) == [] && Shifted([]) == [] && Indices(f, [r] + []) == if Matches(f, r) then [0] else []
  {
    assert [r] + [] == [r] && [r][..0] == [];
  }

  /** The positions below n. */
  function Below(v: seq<nat>, n: nat): seq<nat> {
    if v != [] && v[|v| - 1] >= n then Below(v[..|v| - 1], n) else v
  }

  /** Cutting the list keeps exactly the positions that are still there. */
  lemma {:induction false} IndicesOfCut(f: Filter, all: seq<Rec>, n: nat)
    requires n <= |all|
    ensures Indices(f, all[..n]) == Below(Indices(f, all), n)
    decreases |all|
  {
    if n < |all| {
      var k := |all| - 1;
      IndicesOfCut(f, all[..k], n);
      assert all[..k][..n] == all[..n];
      var v := Indices(f, all[..k]);
      if Matches(f, all[k]) { assert (v + [k])[..|v|] == v; } else { assert v + [] == v; }
    } else {
      assert all[..n] == all;
      IndicesAreTheMatches(f, all);
      var v := Indices(f, all);
      if v != [] { assert v[|v| - 1] in v; }
    }
  }

  datatype Inbox = Inbox(all: seq<Rec>, filter: Filter, unread: nat)

  function Cut(all: seq<Rec>): seq<Rec> {
    if |all| > MAX_EVENTS then all[..MAX_EVENTS] else all
  }

  function Recorded(s: Inbox, r: Rec): Inbox {
    s.(all := Cut([r] + s.all), unread := s.unread + 1)
  }

  /** A new event goes in front of the newest 99, and one more is unread; the filter stays. */
  lemma RecordedGoesInFront(s: Inbox, r: Rec)
    ensures var n := Recorded(s, r);
            && n.all != [] && n.all[0] == r && n.filter == s.filter && n.unread == s.unread + 1
            && n.all[1..] == if |s.all| > 99 then s.all[..99] else s.all
  {
  }

  function WithThumbnail(all: seq<Rec>, id: int, path: string): seq<Rec> {
    if all == [] then []
    else if all[0].id == id then [all[0].(thumbnail := path)] + all[1..]
    else [all[0]] + WithThumbnail(all[1..], id, path)
  }

  // ---- the table ----

  predicate NewerThan(a: Rec, b: Rec) {
    a.timestamp > b.timestamp || (a.timestamp == b.timestamp && a.id > b.id)
  }

  /** The events table, in the order it is read back: newest timestamp first, then highest id. */
  datatype Table = Table(rows: seq<Rec>)

  predicate TableOk(t: Table) {
    forall i, j | 0 <= i < j < |t.rows| :: NewerThan(t.rows[i], t.rows[j])
  }

  function Inserted(rows: seq<Rec>, r: Rec): seq<Rec> {
    if rows == [] || NewerThan(r, rows[0]) then [r] + rows else [rows[0]] + Inserted(rows[1..], r)
  }

  function Recent(t: Table, limit: nat): seq<Rec> {
    if |t.rows| > limit then t.rows[..limit] else t.rows
  }

  function Trimmed(t: Table, keep: nat): Table { Table(Recent(t, keep)) }

  function AllWithThumbnail(rows: seq<Rec>, id: int, path: string): (r: seq<Rec>)
    ensures |r| == |rows|
    ensures forall i | 0 <= i < |rows| :: r[i] == if rows[i].id == id then rows[i].(thumbnail := path) else rows[i]
  {
    seq(|rows|, i requires 0 <= i < |rows| => if rows[i].id == id then rows[i].(thumbnail := path) else rows[i])
  }

  predicate InSync(s: Inbox, t: Table) { s.all == Recent(t, MAX_EVENTS) }

  /** The table's side of recording an event: insert, and trim when the inbox trims. */
  function Stored(s: Inbox, t: Table, r: Rec): Table {
    var added := Table(Inserted(t.rows, r));
    if |s.all| + 1 > MAX_EVENTS then Trimmed(added, MAX_EVENTS) else added
  }

  /** A new row's id is above every id in the table. */
  predicate FreshId(t: Table, r: Rec) {
    forall i | 0 <= i < |t.rows| :: t.rows[i].id < r.id
  }

  lemma {:induction false} InsertedAddsOne(rows: seq<Rec>, r: Rec)
    ensures multiset(Inserted(rows, r)) == multiset(rows) + multiset{r}
  {
    if rows != [] {
      assert rows == [rows[0]] + rows[1..];
      if !NewerThan(r, rows[0]) { InsertedAddsOne(rows[1..], r); }
    }
  }

  lemma {:induction false} InsertedHas(rows: seq<Rec>, r: Rec, x: Rec)
    ensures x in Inserted(rows, r) <==> x == r || x in rows
  {
    if rows != [] {
      assert rows == [rows[0]] + rows[1..];
      if !NewerThan(r, rows[0]) { InsertedHas(rows[1..], r, x); }
    }
  }

  lemma {:induction false} InsertedKeepsOrder(rows: seq<Rec>, r: Rec)
    requires TableOk(Table(rows)) && forall i | 0 <= i < |rows| :: rows[i].id != r.id
    ensures TableOk(Table(Inserted(rows, r)))
  {
    hide NewerThan;
    if rows != [] && !NewerThan(r, rows[0]) {
      InsertedKeepsOrder(rows[1..], r);
      var rest := Inserted(rows[1..], r);
      forall k | 0 <= k < |rest| ensures NewerThan(rows[0], rest[k]) {
        InsertedHas(rows[1..], r, rest[k]);
        OneIsNewer(rows[0], r);
      }
    } else if rows != [] {
      forall k | 0 <= k < |rows| ensures NewerThan(r, rows[k]) { NewerThanAll(r, rows[0], rows[k]); }
    }
  }

  lemma OneIsNewer(a: Rec, b: Rec)
    requires a.id != b.id
    ensures NewerThan(a, b) || NewerThan(b, a)
  {
  }

  lemma NewerThanAll(a: Rec, b: Rec, c: Rec)
    requires NewerThan(a, b) && (b == c || NewerThan(b, c))
    ensures NewerThan(a, c)
  {
  }

  /** Newest timestamp first, and of equal ones the higher id first. */
  predicate NewestFirst(rows: seq<Rec>) {
    forall i, j | 0 <= i < j < |rows| ::
      if rows[i].timestamp == rows[j].timestamp then rows[i].id > rows[j].id
      else rows[i].timestamp > rows[j].timestamp
  }

  /** The table stays in that order and gains exactly the new row. */
  lemma InsertedStaysSorted(rows: seq<Rec>, r: Rec)
    requires NewestFirst(rows) && forall i | 0 <= i < |rows| :: rows[i].id != r.id
    ensures NewestFirst(Inserted(rows, r))
    ensures multiset(Inserted(rows, r)) == multiset(rows) + multiset{r}
  {
    InsertedKeepsOrder(rows, r);
    InsertedAddsOne(rows, r);
  }

  /** While fewer than 100 events are listed no row goes; from then on only the newest 100 rows stay. */
  lemma StoredKeepsTheNewest(s: Inbox, t: Table, r: Rec)
    ensures var all := Inserted(t.rows, r);
            Stored(s, t, r).rows == if |s.all| < 100 || |all| <= 100 then all else all[..100]
  {
  }

  /** Inbox and table agree after a successful write if and only if the clock did not go back past the newest event. */
  lemma InSyncExactlyUnlessTheClockWentBack(s: Inbox, t: Table, r: Rec)
    requires InSync(s, t) && FreshId(t, r)
    ensures InSync(Recorded(s, r), Stored(s, t, r)) <==> s.all == [] || r.timestamp >= s.all[0].timestamp
  {
    if s.all == [] || r.timestamp >= s.all[0].timestamp {
      assert Inserted(t.rows, r) == [r] + t.rows;
    } else {
      assert Inserted(t.rows, r)[0] == t.rows[0] && t.rows[0].id != r.id;
    }
  }

  // ---- runs in which writes succeed ----

  datatype Op = OpRecord(r: Rec) | OpThumbnail(id: int, path: string) | OpFilter(f: Filter) | OpMarkAllRead | OpClear

  function ApplyInbox(s: Inbox, t: Table, op: Op): Inbox {
    match op
    case OpRecord(r) => Recorded(s, r)
    case OpThumbnail(id, path) => s.(all := WithThumbnail(s.all, id, path))
    case OpFilter(f) => if f == s.filter then s else s.(filter := f, all := Recent(t, MAX_EVENTS))
    case OpMarkAllRead => s.(unread := 0)
    case OpClear => s.(all := [], unread := 0)
  }

  function ApplyTable(s: Inbox, t: Table, op: Op): Table {
    match op
    case OpRecord(r) => Stored(s, t, r)
    case OpThumbnail(id, path) => Table(AllWithThumbnail(t.rows, id, path))
    case OpFilter(_) => t
    case OpMarkAllRead => t
    case OpClear => Table([])
  }

  /** Another filter lists the newest 100 rows anew; the same one, or marking read, touches no row. */
  lemma FilterListsAnew(s: Inbox, t: Table, f: Filter)
    ensures var n := ApplyInbox(s, t, OpFilter(f));
            && n.filter == f && n.unread == s.unread
            && n.all == if f == s.filter then s.all else if |t.rows| > 100 then t.rows[..100] else t.rows
    ensures ApplyTable(s, t, OpFilter(f)) == t && ApplyTable(s, t, OpMarkAllRead) == t
    ensures ApplyInbox(s, t, OpMarkAllRead) == s.(unread := 0)
  {
  }

  predicate Fresh(t: Table, op: Op) { op.OpRecord? ==> FreshId(t, op.r) }

  /** The event is not stamped before the newest one in the inbox. */
  predicate Timely(s: Inbox, op: Op) {
    op.OpRecord? ==> s.all == [] || op.r.timestamp >= s.all[0].timestamp
  }

  /** Every new row of the run has an id above those in the table. */
  predicate FreshRun(s: Inbox, t: Table, ops: seq<Op>)
    decreases |ops|
  {
    ops == [] || (Fresh(t, ops[0]) && FreshRun(ApplyInbox(s, t, ops[0]), ApplyTable(s, t, ops[0]), ops[1..]))
  }

  /** The clock does not go back past the newest event. */
  predicate TimelyRun(s: Inbox, t: Table, ops: seq<Op>)
    decreases |ops|
  {
    ops == [] || (Timely(s, ops[0]) && TimelyRun(ApplyInbox(s, t, ops[0]), ApplyTable(s, t, ops[0]), ops[1..]))
  }

  /** Inbox and table agree in every state of the run. */
  predicate InSyncThroughout(s: Inbox, t: Table, ops: seq<Op>)
    decreases |ops|
  {
    InSync(s, t)
    && (ops == [] || InSyncThroughout(ApplyInbox(s, t, ops[0]), ApplyTable(s, t, ops[0]), ops[1..]))
  }

  predicate DistinctIds(rows: seq<Rec>) {
    forall i, j | 0 <= i < j < |rows| :: rows[i].id != rows[j].id
  }

  lemma {:induction false} ThumbnailsAgree(all: seq<Rec>, id: int, path: string)
    requires DistinctIds(all)
    ensures WithThumbnail(all, id, path) == AllWithThumbnail(all, id, path)
  {
    if all != [] {
      ThumbnailsAgree(all[1..], id, path);
      var r := AllWithThumbnail(all, id, path);
      assert r == [r[0]] + r[1..];
      assert r[1..] == AllWithThumbnail(all[1..], id, path);
      if all[0].id == id { assert r[1..] == all[1..]; }
    }
  }

  lemma IdsStayDistinct(s: Inbox, t: Table, op: Op)
    requires DistinctIds(t.rows) && Fresh(t, op)
    ensures DistinctIds(ApplyTable(s, t, op).rows)
  {
    match op
    case OpRecord(r) => InsertedStaysDistinct(t.rows, r);
    case _ =>
  }

  lemma {:induction false} InsertedStaysDistinct(rows: seq<Rec>, r: Rec)
    requires DistinctIds(rows) && forall i | 0 <= i < |rows| :: rows[i].id != r.id
    ensures DistinctIds(Inserted(rows, r))
  {
    hide NewerThan;
    if rows != [] && !NewerThan(r, rows[0]) {
      InsertedStaysDistinct(rows[1..], r);
      var rest := Inserted(rows[1..], r);
      forall k | 0 <= k < |rest| ensures rest[k].id != rows[0].id { InsertedHas(rows[1..], r, rest[k]); }
    }
  }

  /** One call keeps inbox and table in agreement exactly if it does not record an event before the newest one. */
  lemma SyncIsKeptExactlyIfTimely(s: Inbox, t: Table, op: Op)
    requires InSync(s, t) && DistinctIds(t.rows) && Fresh(t, op)
    ensures InSync(ApplyInbox(s, t, op), ApplyTable(s, t, op)) <==> Timely(s, op)
  {
    hide Inserted, NewerThan, Stored, Recorded;
    match op
    case OpRecord(r) => InSyncExactlyUnlessTheClockWentBack(s, t, r);
    case OpThumbnail(id, path) =>
      ThumbnailsAgree(s.all, id, path);
      assert Recent(Table(AllWithThumbnail(t.rows, id, path)), MAX_EVENTS) == AllWithThumbnail(s.all, id, path);
    case _ =>
  }

  /** Over any run of events, thumbnails, filter changes and clears the inbox is the table's newest 100 events in every
      state if and only if no event is stamped before the newest one. */
  lemma {:induction false} InboxIsTheNewestExactlyIfTimely(s: Inbox, t: Table, ops: seq<Op>)
    requires InSync(s, t) && DistinctIds(t.rows) && FreshRun(s, t, ops)
    ensures InSyncThroughout(s, t, ops) <==> TimelyRun(s, t, ops)
    decreases |ops|
  {
    hide InSync, Timely, Fresh, DistinctIds, ApplyInbox, ApplyTable;
    if ops != [] {
      SyncIsKeptExactlyIfTimely(s, t, ops[0]);
      if Timely(s, ops[0]) {
        IdsStayDistinct(s, t, ops[0]);
        InboxIsTheNewestExactlyIfTimely(ApplyInbox(s, t, ops[0]), ApplyTable(s, t, ops[0]), ops[1..]);
      }
    }
  }

  // ---- what is unread ----

  function InboxAfter(s: Inbox, t: Table, ops: seq<Op>): Inbox
    decreases |ops|
  {
    if ops == [] then s else InboxAfter(ApplyInbox(s, t, ops[0]), ApplyTable(s, t, ops[0]), ops[1..])
  }

  /** How many events the calls record. */
  function Events(ops: seq<Op>): nat {
    if ops == [] then 0 else (if ops[0].OpRecord? then 1 else 0) + Events(ops[1..])
  }

  lemma {:induction false} UnreadAddsUp(s: Inbox, t: Table, ops: seq<Op>)
    requires forall i | 0 <= i < |ops| :: !ops[i].OpMarkAllRead? && !ops[i].OpClear?
    ensures InboxAfter(s, t, ops).unread == s.unread + Events(ops)
    decreases |ops|
  {
    hide ApplyTable, Inserted;
    if ops != [] {
      assert forall i | 0 <= i < |ops| - 1 :: ops[1..][i] == ops[i + 1];
      UnreadAddsUp(ApplyInbox(s, t, ops[0]), ApplyTable(s, t, ops[0]), ops[1..]);
    }
  }

  /** After any run the unread count is the number of events recorded since the inbox was last marked read or
      cleared. */
  lemma {:induction false} UnreadCountsSinceLastRead(s: Inbox, t: Table, before: seq<Op>, read: Op, since: seq<Op>)
    requires read.OpMarkAllRead? || read.OpClear?
    requires forall i | 0 <= i < |since| :: !since[i].OpMarkAllRead? && !since[i].OpClear?
    ensures InboxAfter(s, t, before + [read] + since).unread == Events(since)
    decreases |before|
  {
    hide Inserted;
    var ops := before + [read] + since;
    if before == [] {
      assert ops[0] == read && ops[1..] == since;
      UnreadAddsUp(ApplyInbox(s, t, read), ApplyTable(s, t, read), since);
    } else {
      assert ops[0] == before[0] && ops[1..] == before[1..] + [read] + since;
      UnreadCountsSinceLastRead(ApplyInbox(s, t, ops[0]), ApplyTable(s, t, ops[0]), before[1..], read, since);
    }
  }

  /** The input: an event stamped 10 and then, after the clock was set back, one stamped 5. */
  lemma ClockThatWentBack(a: Rec, b: Rec)
    requires a.id == 1 && a.timestamp == 10 && b.id == 2 && b.timestamp == 5
    ensures var s, t := Inbox([], Filter("", ""), 0), Table([]);
            var s1, t1 := ApplyInbox(s, t, OpRecord(a)), ApplyTable(s, t, OpRecord(a));
            && FreshRun(s, t, [OpRecord(a), OpRecord(b)])
            && ApplyInbox(s1, t1, OpRecord(b)).all == [b, a]
            && ApplyTable(s1, t1, OpRecord(b)).rows == [a, b]
  {
    assert [a] + [] == [a] && [b] + [a] == [b, a] && [a] + [b] == [a, b];
    assert [OpRecord(a), OpRecord(b)][1..] == [OpRecord(b)] && [OpRecord(b)][1..] == [];
    assert Inserted([a], b) == [a] + Inserted([], b);
  }
}
