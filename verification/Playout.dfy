/**
The presentation clock for live video as a value: when each queued frame is due, what push, poll
and clear do, and what holds over whole runs, ending with the reason the clock exists: arrival
jitter inside a stated band, and only that, leaves the schedule alone.
 */
module PlayoutClock {
  import opened Wrappers

  datatype Config = Config(
    delayUs: int, maxDepthUs: int, lateToleranceUs: int, jumpUs: int, maxFrames: nat, maxBytes: int)

  datatype Entry<F> = Entry(frame: F, pts: int, bytes: nat)

  datatype Stats = Stats(presented: int, droppedLate: int, droppedOverflow: int, reanchors: int)

  datatype Playout<F> = Playout(
    cfg: Config, q: seq<Entry<F>>, bytes: int, anchored: bool, ptsAnchor: int, wallAnchor: int, lastPts: int,
    stats: Stats)

  function Fresh<F>(cfg: Config): Playout<F> {
    Playout(cfg, [], 0, false, 0, 0, 0, Stats(0, 0, 0, 0))
  }

  function DueAt<F>(s: Playout<F>, pts: int): int {
    s.wallAnchor + (pts - s.ptsAnchor)
  }

  // ---- push ----

  function Anchored<F>(s: Playout<F>, pts: int, now: int): Playout<F> {
    s.(ptsAnchor := pts, wallAnchor := now + s.cfg.delayUs, anchored := true)
  }

  /** A restart throws the queue away together with its schedule. */
  function StartedOver<F>(s: Playout<F>, pts: int, now: int): Playout<F> {
    Anchored(s.(q := [], bytes := 0, stats := s.stats.(reanchors := s.stats.reanchors + 1)), pts, now)
  }

  predicate Jumped<F>(s: Playout<F>, pts: int) {
    pts < s.lastPts || pts - s.lastPts > s.cfg.jumpUs
  }

  /** The cushion is gone: the frame's slot is long past. */
  predicate TooLate<F>(s: Playout<F>, pts: int, now: int) {
    DueAt(s, pts) < now - s.cfg.lateToleranceUs
  }

  /** The source runs ahead of real time. */
  predicate TooDeep<F>(s: Playout<F>, pts: int, now: int) {
    DueAt(s, pts) - now > s.cfg.maxDepthUs
  }

  predicate Restarts<F>(s: Playout<F>, pts: int, now: int) {
    s.anchored && (Jumped(s, pts) || TooLate(s, pts, now))
  }

  function Scheduled<F>(s: Playout<F>, pts: int, now: int): Playout<F> {
    if !s.anchored then Anchored(s, pts, now)
    else if Restarts(s, pts, now) then StartedOver(s, pts, now)
    else if TooDeep(s, pts, now) then s.(wallAnchor := s.wallAnchor - (DueAt(s, pts) - now - s.cfg.delayUs))
    else s
  }

  predicate OverCap<F>(s: Playout<F>) {
    |s.q| > s.cfg.maxFrames || (s.cfg.maxBytes > 0 && s.bytes > s.cfg.maxBytes && |s.q| > 1)
  }

  function WithoutOldest<F>(s: Playout<F>): Playout<F>
    requires s.q != []
  {
    s.(bytes := s.bytes - s.q[0].bytes, q := s.q[1..],
       stats := s.stats.(droppedOverflow := s.stats.droppedOverflow + 1))
  }

  function Trimmed<F>(s: Playout<F>): Playout<F>
    decreases |s.q|
  {
    if OverCap(s) then Trimmed(WithoutOldest(s)) else s
  }

  function Queued<F>(s: Playout<F>, e: Entry<F>): Playout<F> {
    s.(lastPts := e.pts, q := s.q + [e], bytes := s.bytes + e.bytes)
  }

  function Push<F>(s: Playout<F>, e: Entry<F>, now: int): Playout<F> {
    Trimmed(Queued(Scheduled(s, e.pts, now), e))
  }

  // ---- poll ----

  /** How many frames at the front of the queue are due. */
  function DueCount<F>(s: Playout<F>, q: seq<Entry<F>>, now: int): (k: nat)
    ensures k <= |q|
    ensures forall i | 0 <= i < k :: DueAt(s, q[i].pts) <= now
    ensures k < |q| ==> DueAt(s, q[k].pts) > now
  {
    if q != [] && DueAt(s, q[0].pts) <= now then 1 + DueCount(s, q[1..], now) else 0
  }

  function Sum<F>(q: seq<Entry<F>>): nat {
    if q == [] then 0 else q[0].bytes + Sum(q[1..])
  }

  /** The frame at the front is taken, replacing any taken before it, which is then late. */
  function First<F>(s: Playout<F>, taken: Option<F>): (Playout<F>, Option<F>)
    requires s.q != []
  {
    (s.(q := s.q[1..], bytes := s.bytes - s.q[0].bytes,
        stats := s.stats.(droppedLate := s.stats.droppedLate + if taken.Some? then 1 else 0)),
     Some(s.q[0].frame))
  }

  function TakeDue<F>(s: Playout<F>, taken: Option<F>, now: int): (Playout<F>, Option<F>)
    decreases |s.q|
  {
    if s.q != [] && DueAt(s, s.q[0].pts) <= now then TakeDue(First(s, taken).0, First(s, taken).1, now) else (s, taken)
  }

  function Poll<F>(s: Playout<F>, now: int): (Playout<F>, Option<F>) {
    var (r, taken) := TakeDue(s, None, now);
    (if taken.Some? then r.(stats := r.stats.(presented := r.stats.presented + 1)) else r, taken)
  }

  function Cleared<F>(s: Playout<F>): Playout<F> {
    s.(q := [], bytes := 0, anchored := false)
  }

  // ---- runs ----

  datatype Op<F> = OpPush(e: Entry<F>, now: int) | OpPoll(now: int) | OpConfig(cfg: Config) | OpClear

  function Apply<F>(s: Playout<F>, op: Op<F>): Playout<F> {
    match op
    case OpPush(e, now) => Push(s, e, now)
    case OpPoll(now) => Poll(s, now).0
    case OpConfig(cfg) => s.(cfg := cfg)
    case OpClear => Cleared(s)
  }

  function Run<F>(s: Playout<F>, ops: seq<Op<F>>): Playout<F>
    decreases |ops|
  {
    if ops == [] then s else Run(Apply(s, ops[0]), ops[1..])
  }

  // ---- what every call keeps ----

  predicate Ok<F>(s: Playout<F>) {
    && s.bytes == Sum(s.q)
    && forall i, j | 0 <= i <= j < |s.q| :: s.anchored && s.q[i].pts <= s.q[j].pts <= s.lastPts
  }

  lemma {:induction false} SumSplits<F>(a: seq<Entry<F>>, b: seq<Entry<F>>)
    ensures Sum(a + b) == Sum(a) + Sum(b)
  {
    if a == [] {
      assert a + b == b;
    } else {
      assert (a + b)[0] == a[0] && (a + b)[1..] == a[1..] + b;
      SumSplits(a[1..], b);
    }
  }

  lemma SumOfFront<F>(q: seq<Entry<F>>, k: nat)
    requires 1 <= k <= |q|
    ensures Sum(q[..k]) == q[0].bytes + Sum(q[1..][..k - 1])
  {
    assert q[..k][0] == q[0] && q[..k][1..] == q[1..][..k - 1];
  }

  lemma NothingToSum<F>(q: seq<Entry<F>>)
    requires q == []
    ensures Sum(q) == 0
  {
  }

  /** r is s without its k oldest frames, within the caps. */
  ghost predicate DropsOldest<F>(s: Playout<F>, r: Playout<F>, k: nat) {
    && k <= |s.q| && Ok(r) && !OverCap(r)
    && r == s.(q := s.q[k..], bytes := Sum(s.q[k..]),
               stats := s.stats.(droppedOverflow := s.stats.droppedOverflow + k))
  }

  /** The caps only ever drop frames from the front. */
  lemma {:induction false} TrimmedDropsTheOldest<F>(s: Playout<F>)
    requires Ok(s)
    ensures exists k: nat :: DropsOldest(s, Trimmed(s), k)
    decreases |s.q|
  {
    if OverCap(s) {
      hide Ok, Sum;
      var t := WithoutOldest(s);
      TrimmedDropsTheOldest(t);
      var j: nat :| DropsOldest(t, Trimmed(t), j);
      assert s.q[1..][j..] == s.q[j + 1..];
      assert DropsOldest(s, Trimmed(s), j + 1);
    } else {
      assert s.q[0..] == s.q;
      assert DropsOldest(s, Trimmed(s), 0);
    }
  }

  /** What is left when the first k frames, all that are due, have been taken. */
  function Past<F>(s: Playout<F>, taken: Option<F>, k: nat): (Playout<F>, Option<F>)
    requires k <= |s.q|
  {
    if k == 0 then (s, taken)
    else
      (s.(q := s.q[k..], bytes := s.bytes - Sum(s.q[..k]),
          stats := s.stats.(droppedLate := s.stats.droppedLate + if taken.Some? then k else k - 1)),
       Some(s.q[k - 1].frame))
  }

  lemma PastOneMore<F>(s: Playout<F>, taken: Option<F>, k: nat)
    requires 1 <= k <= |s.q|
    ensures Past(s, taken, k) == Past(First(s, taken).0, First(s, taken).1, k - 1)
  {
    hide Sum;
    SumOfFront(s.q, k);
    assert s.q[1..][k - 1..] == s.q[k..];
    if k == 1 { NothingToSum(s.q[1..][..0]); }
  }

  lemma {:induction false} TakeDueTakesAllThatAreDue<F>(s: Playout<F>, taken: Option<F>, now: int)
    ensures TakeDue(s, taken, now) == Past(s, taken, DueCount(s, s.q, now))
    decreases |s.q|
  {
    var k := DueCount(s, s.q, now);
    if k > 0 {
      TakeDueTakesAllThatAreDue(First(s, taken).0, First(s, taken).1, now);
      SameDueCount(s, First(s, taken).0, s.q[1..], now);
      PastOneMore(s, taken, k);
    }
  }

  /** Poll takes exactly the due frames: shows the last of them, counts the others as late. */
  lemma PollTakesAllThatAreDue<F>(s: Playout<F>, now: int)
    ensures var k := DueCount(s, s.q, now);
            Poll(s, now) == if k == 0 then (s, None) else
              (s.(q := s.q[k..], bytes := s.bytes - Sum(s.q[..k]),
                  stats := s.stats.(presented := s.stats.presented + 1, droppedLate := s.stats.droppedLate + (k - 1))),
               Some(s.q[k - 1].frame))
  {
    hide TakeDue, DueCount, Sum;
    TakeDueTakesAllThatAreDue(s, None, now);
  }

  lemma {:induction false} SameDueCount<F>(s: Playout<F>, t: Playout<F>, q: seq<Entry<F>>, now: int)
    requires s.wallAnchor == t.wallAnchor && s.ptsAnchor == t.ptsAnchor
    ensures DueCount(s, q, now) == DueCount(t, q, now)
  {
    if q != [] { SameDueCount(s, t, q[1..], now); }
  }

  lemma ScheduledAlone<F>(s: Playout<F>, pts: int, now: int)
    requires Ok(s)
    ensures var r := Scheduled(s, pts, now);
            Ok(r) && r.anchored && (r.q == [] || pts >= r.lastPts)
  {
  }

  lemma QueuedKeepsOk<F>(s: Playout<F>, e: Entry<F>)
    requires Ok(s) && s.anchored && (s.q == [] || e.pts >= s.lastPts)
    ensures Ok(Queued(s, e))
  {
    SumSplits(s.q, [e]);
    assert Sum([e]) == e.bytes;
  }

  /** A push is the scheduled and queued frame, less the oldest that no cap allows. */
  lemma PushDropsTheOldest<F>(s: Playout<F>, e: Entry<F>, now: int)
    requires Ok(s)
    ensures exists k: nat :: DropsOldest(Queued(Scheduled(s, e.pts, now), e), Push(s, e, now), k)
  {
    hide Ok, Queued, Scheduled, Trimmed, Sum;
    ScheduledAlone(s, e.pts, now);
    QueuedKeepsOk(Scheduled(s, e.pts, now), e);
    var t := Queued(Scheduled(s, e.pts, now), e);
    TrimmedDropsTheOldest(t);
    var k: nat :| DropsOldest(t, Trimmed(t), k);
    assert DropsOldest(t, Push(s, e, now), k);
  }

  /** A schedule is thrown away: after a jump, a step back or a stall beyond the tolerance. */
  predicate ThrownAway<F>(s: Playout<F>, pts: int, slot: int, now: int) {
    s.anchored && (pts < s.lastPts || pts - s.lastPts > s.cfg.jumpUs || slot < now - s.cfg.lateToleranceUs)
  }

  lemma ScheduledIsDue<F>(s: Playout<F>, pts: int, now: int)
    ensures var r := Scheduled(s, pts, now);
            var slot := s.wallAnchor + (pts - s.ptsAnchor);
            var over := ThrownAway(s, pts, slot, now);
            && r.wallAnchor + (pts - r.ptsAnchor)
               == (if !s.anchored || over || slot - now > s.cfg.maxDepthUs then now + s.cfg.delayUs else slot)
            && (s.anchored && !over ==> r.ptsAnchor == s.ptsAnchor)
            && r == s.(q := if over then [] else s.q, bytes := if over then 0 else s.bytes, anchored := true,
                       ptsAnchor := r.ptsAnchor, wallAnchor := r.wallAnchor,
                       stats := s.stats.(reanchors := s.stats.reanchors + if over then 1 else 0))
  {
  }

  /** When a pushed frame is due: one delay after it arrives if it begins a schedule, after one was thrown away too, or
      if it would be due further ahead than the queue may run; at its old slot otherwise. The frames queued before it go
      exactly if a schedule is thrown away, which is counted; otherwise they are moved by as much as this frame. */
  lemma PushedFrameIsDue<F>(s: Playout<F>, e: Entry<F>, now: int) returns (k: nat)
    requires Ok(s)
    ensures var r := Push(s, e, now);
            var slot := s.wallAnchor + (e.pts - s.ptsAnchor);
            var over := ThrownAway(s, e.pts, slot, now);
            && r.wallAnchor + (e.pts - r.ptsAnchor)
               == (if !s.anchored || over || slot - now > s.cfg.maxDepthUs then now + s.cfg.delayUs else slot)
            && r.anchored && r.lastPts == e.pts && r.cfg == s.cfg
            && (s.anchored && !over ==> r.ptsAnchor == s.ptsAnchor)
            && r.stats.reanchors == s.stats.reanchors + (if over then 1 else 0)
            && LeftAfterPush(s, r, e, over, k)
  {
    hide Trimmed, Ok, Sum, Scheduled, ThrownAway, Exceeds;
    ScheduledIsDue(s, e.pts, now);
    ScheduledAlone(s, e.pts, now);
    QueuedKeepsOk(Scheduled(s, e.pts, now), e);
    k := TrimmedIsAnEnd(Queued(Scheduled(s, e.pts, now), e));
  }

  /** More frames, or more bytes in more than one frame, than the caps allow. */
  predicate Exceeds<F>(q: seq<Entry<F>>, cfg: Config) {
    |q| > cfg.maxFrames || (cfg.maxBytes > 0 && Sum(q) > cfg.maxBytes && |q| > 1)
  }

  /** The queue after a push: what was queued, unless it was thrown away, and the new frame, less the k oldest; one
      fewer dropped would have been too few. */
  predicate LeftAfterPush<F(==)>(s: Playout<F>, r: Playout<F>, e: Entry<F>, over: bool, k: int) {
    var all := (if over then [] else s.q) + [e];
    && 0 <= k <= |all| && r.q == all[k..]
    && (k > 0 ==> Exceeds(all[k - 1..], s.cfg))
    && (r.stats.presented, r.stats.droppedLate) == (s.stats.presented, s.stats.droppedLate)
    && r.stats.droppedOverflow == s.stats.droppedOverflow + k
  }

  lemma {:induction false} TrimmedIsAnEnd<F>(s: Playout<F>) returns (k: nat)
    requires Ok(s)
    ensures k <= |s.q| && Trimmed(s).q == s.q[k..] && (k > 0 ==> Exceeds(s.q[k - 1..], s.cfg))
    ensures Trimmed(s) == s.(q := s.q[k..], bytes := Trimmed(s).bytes,
                             stats := s.stats.(droppedOverflow := s.stats.droppedOverflow + k))
    decreases |s.q|
  {
    if OverCap(s) {
      var t := WithoutOldest(s);
      var j := TrimmedIsAnEnd(t);
      assert s.q[1..][j..] == s.q[j + 1..] && s.q[0..] == s.q;
      if j > 0 { assert s.q[1..][j - 1..] == s.q[j..]; }
      k := j + 1;
    } else {
      k := 0;
    }
  }

  /** After clear nothing is queued or shown, and the next frame begins a schedule that does not count as a restart. */
  lemma ClearForgetsTheSchedule<F>(s: Playout<F>, e: Entry<F>, now: int)
    ensures var d := Cleared(s);
            && d.q == [] && d.bytes == 0 && (d.cfg, d.stats) == (s.cfg, s.stats)
            && Poll(d, now) == (d, None)
            && var r := Push(d, e, now);
            r.wallAnchor + (e.pts - r.ptsAnchor) == now + s.cfg.delayUs && r.stats.reanchors == s.stats.reanchors
  {
    var k := PushedFrameIsDue(Cleared(s), e, now);
  }

  lemma PollKeepsOk<F>(s: Playout<F>, now: int)
    requires Ok(s)
    ensures Ok(Poll(s, now).0)
  {
    hide Poll, DueCount, DueAt, Sum;
    PollTakesAllThatAreDue(s, now);
    var k := DueCount(s, s.q, now);
    assert s.q == s.q[..k] + s.q[k..];
    SumSplits(s.q[..k], s.q[k..]);
  }

  lemma OkIsKept<F>(s: Playout<F>, op: Op<F>)
    requires Ok(s)
    ensures Ok(Apply(s, op))
  {
    hide Push, Poll, Scheduled, Queued;
    match op
    case OpPush(e, now) => PushDropsTheOldest(s, e, now);
    case OpPoll(now) => PollKeepsOk(s, now);
    case _ =>
  }

  /** After any calls: the byte count is exact and timestamps wait in order. */
  lemma {:induction false} RunKeepsOk<F>(s: Playout<F>, ops: seq<Op<F>>)
    requires Ok(s)
    ensures Ok(Run(s, ops))
    decreases |ops|
  {
    hide Apply, Ok;
    if ops != [] {
      OkIsKept(s, ops[0]);
      RunKeepsOk(Apply(s, ops[0]), ops[1..]);
    }
  }

  /** Of the due frames a poll shows the last and counts the others as late; those that stay queued are not due. */
  lemma PollShowsTheNewestDueFrame<F>(s: Playout<F>, now: int)
    requires Ok(s)
    ensures var (r, shown) := Poll(s, now);
            && (shown.None? <==> forall i | 0 <= i < |s.q| :: DueAt(s, s.q[i].pts) > now)
            && (shown.None? ==> r == s)
            && (shown.Some? ==> exists k :: 0 <= k < |s.q| && DueAt(s, s.q[k].pts) <= now && shown.value == s.q[k].frame
                                            && r.q == s.q[k + 1..]
                                            && r.stats.droppedLate == s.stats.droppedLate + k)
            && forall i | 0 <= i < |r.q| :: DueAt(r, r.q[i].pts) > now
  {
    hide Poll, DueCount;
    PollTakesAllThatAreDue(s, now);
    var k := DueCount(s, s.q, now);
    if k > 0 {
      assert DueAt(s, s.q[k - 1].pts) <= now;
      assert s.q[(k - 1) + 1..] == s.q[k..];
    }
  }

  // ---- the caps ----

  /** What is queued is within the caps of cfg; a single frame is within any byte cap. */
  predicate Fits<F>(s: Playout<F>, cfg: Config) {
    && |s.q| <= cfg.maxFrames
    && (cfg.maxBytes > 0 ==> s.bytes <= cfg.maxBytes || |s.q| <= 1)
  }

  /** Both caps hold after every push, whatever was queued before. */
  lemma PushKeepsTheCaps<F>(s: Playout<F>, e: Entry<F>, now: int)
    requires Ok(s)
    ensures Push(s, e, now).cfg == s.cfg
    ensures Fits(Push(s, e, now), s.cfg)
  {
    hide Push, Ok, Sum;
    PushDropsTheOldest(s, e, now);
  }

  /** They hold in every state of a run. */
  predicate FitsThroughout<F>(s: Playout<F>, ops: seq<Op<F>>)
    decreases |ops|
  {
    Fits(s, s.cfg) && (ops == [] || FitsThroughout(Apply(s, ops[0]), ops[1..]))
  }

  /** No new configuration has a cap below what is queued when it comes. */
  predicate NeverConfiguredBelow<F>(s: Playout<F>, ops: seq<Op<F>>)
    decreases |ops|
  {
    ops == []
    || ((ops[0].OpConfig? ==> Fits(s, ops[0].cfg)) && NeverConfiguredBelow(Apply(s, ops[0]), ops[1..]))
  }

  lemma BytesAreExact<F>(s: Playout<F>)
    requires Ok(s)
    ensures s.bytes == Sum(s.q)
  {
  }

  lemma PollStillFits<F>(s: Playout<F>, now: int)
    requires Ok(s) && Fits(s, s.cfg)
    ensures Fits(Poll(s, now).0, s.cfg) && Poll(s, now).0.cfg == s.cfg
  {
    hide Poll, DueCount, DueAt, Sum, Ok;
    PollTakesAllThatAreDue(s, now);
    BytesAreExact(s);
    var k := DueCount(s, s.q, now);
    assert s.q == s.q[..k] + s.q[k..];
    SumSplits(s.q[..k], s.q[k..]);
  }

  lemma CallStillFits<F>(s: Playout<F>, op: Op<F>)
    requires Ok(s) && Fits(s, s.cfg)
    ensures Fits(Apply(s, op), Apply(s, op).cfg) <==> (op.OpConfig? ==> Fits(s, op.cfg))
  {
    hide Poll, Push, Ok;
    match op
    case OpPush(e, now) => PushKeepsTheCaps(s, e, now);
    case OpPoll(now) => PollStillFits(s, now);
    case _ =>
  }

  /** The caps hold in every state of a run exactly if they hold at its start and no configuration comes with a cap
      below what is queued. */
  lemma {:induction false} CapsHoldThroughoutExactly<F>(s: Playout<F>, ops: seq<Op<F>>)
    requires Ok(s)
    ensures FitsThroughout(s, ops) <==> Fits(s, s.cfg) && NeverConfiguredBelow(s, ops)
    decreases |ops|
  {
    hide Apply, Ok, Fits;
    if ops != [] && Fits(s, s.cfg) {
      CallStillFits(s, ops[0]);
      OkIsKept(s, ops[0]);
      CapsHoldThroughoutExactly(Apply(s, ops[0]), ops[1..]);
    }
  }

  /** The input: two frames queued, then a cap of one. */
  lemma ConfigCanLeaveTooMany(s: Playout<int>, cfg: Config)
    requires |s.q| == 2 && cfg.maxFrames == 1
    ensures !Fits(Run(s, [OpConfig(cfg)]), cfg)
  {
    var ops := [OpConfig(cfg)];
    assert ops[1..] == [];
    assert Run(s, ops) == Run(Apply(s, ops[0]), []);
  }

  // ---- a queued frame is never put off ----

  /** Whatever is called, a frame that stays queued is due no later than before. */
  lemma QueuedFramesAreNeverPutOff<F>(s: Playout<F>, op: Op<F>, e: Entry<F>)
    requires Ok(s) && s.cfg.delayUs <= s.cfg.maxDepthUs && e in Apply(s, op).q
    ensures (op.OpPush? && e == op.e) || (e in s.q && DueAt(Apply(s, op), e.pts) <= DueAt(s, e.pts))
  {
    hide Poll, DueCount, Sum, Push, Ok, Queued, Scheduled, OverCap;
    match op
    case OpPush(e', now) =>
      var t := Queued(Scheduled(s, e'.pts, now), e');
      PushDropsTheOldest(s, e', now);
      var k: nat :| DropsOldest(t, Push(s, e', now), k);
      assert e in t.q;
      ScheduledPutsNothingOff(s, e', now, e);
    case OpPoll(now) => PollTakesAllThatAreDue(s, now);
    case _ =>
  }

  lemma ScheduledPutsNothingOff<F>(s: Playout<F>, e: Entry<F>, now: int, kept: Entry<F>)
    requires Ok(s) && s.cfg.delayUs <= s.cfg.maxDepthUs
    ensures var t := Queued(Scheduled(s, e.pts, now), e);
            kept in t.q ==> kept == e || (kept in s.q && DueAt(t, kept.pts) <= DueAt(s, kept.pts))
  {
    assert kept in Queued(Scheduled(s, e.pts, now), e).q ==> kept == e || kept in Scheduled(s, e.pts, now).q;
  }

  /** The delay any configuration in force may impose. */
  predicate Within(cfg: Config, bound: int) {
    cfg.delayUs <= cfg.maxDepthUs <= bound
  }

  predicate Prompt(s: Playout<int>, bound: int) {
    && Within(s.cfg, bound)
    && forall i | 0 <= i < |s.q| :: DueAt(s, s.q[i].pts) <= s.q[i].frame + bound
  }

  predicate StampedWithArrival(op: Op<int>, bound: int) {
    && (op.OpPush? ==> op.e.frame == op.now)
    && (op.OpConfig? ==> Within(op.cfg, bound))
  }

  lemma ScheduledIsPrompt(s: Playout<int>, e: Entry<int>, now: int, bound: int)
    requires Ok(s) && Prompt(s, bound) && e.frame == now
    ensures Prompt(Queued(Scheduled(s, e.pts, now), e), bound)
  {
  }

  lemma PromptIsKept(s: Playout<int>, op: Op<int>, bound: int)
    requires Ok(s) && Prompt(s, bound) && StampedWithArrival(op, bound)
    ensures Prompt(Apply(s, op), bound)
  {
    hide Poll, DueCount, Sum, Push, Ok, Queued, Scheduled, OverCap;
    match op
    case OpPush(e, now) =>
      var t := Queued(Scheduled(s, e.pts, now), e);
      ScheduledIsPrompt(s, e, now, bound);
      PushDropsTheOldest(s, e, now);
      var k: nat :| DropsOldest(t, Push(s, e, now), k);
    case OpPoll(now) => PollTakesAllThatAreDue(s, now);
    case _ =>
  }

  /** With frames that carry their arrival time: however pushes, polls, settings and clears interleave, no frame
      is due later than its arrival plus the largest depth ever allowed. */
  lemma {:induction false} EveryFrameIsDueSoon(s: Playout<int>, ops: seq<Op<int>>, bound: int)
    requires Ok(s) && Prompt(s, bound) && forall i | 0 <= i < |ops| :: StampedWithArrival(ops[i], bound)
    ensures Prompt(Run(s, ops), bound)
    decreases |ops|
  {
    hide Apply, Ok, Prompt;
    if ops != [] {
      PromptIsKept(s, ops[0], bound);
      OkIsKept(s, ops[0]);
      assert forall i | 0 <= i < |ops| - 1 :: ops[1..][i] == ops[i + 1];
      EveryFrameIsDueSoon(Apply(s, ops[0]), ops[1..], bound);
    }
  }

  // ---- every frame is accounted for ----

  /** Frames thrown away with their schedule: by a restart or by clear. */
  function Flushed<F>(s: Playout<F>, op: Op<F>): nat {
    if op.OpClear? || (op.OpPush? && Restarts(s, op.e.pts, op.now)) then |s.q| else 0
  }

  function FlushedBy<F>(s: Playout<F>, ops: seq<Op<F>>): nat
    decreases |ops|
  {
    if ops == [] then 0 else Flushed(s, ops[0]) + FlushedBy(Apply(s, ops[0]), ops[1..])
  }

  function Pushes<F>(ops: seq<Op<F>>): nat {
    if ops == [] then 0 else (if ops[0].OpPush? then 1 else 0) + Pushes(ops[1..])
  }

  function Accounted<F>(s: Playout<F>): int {
    s.stats.presented + s.stats.droppedLate + s.stats.droppedOverflow + |s.q|
  }

  lemma CallAccountsForFrames<F>(s: Playout<F>, op: Op<F>)
    requires Ok(s)
    ensures Accounted(Apply(s, op)) + Flushed(s, op) == Accounted(s) + if op.OpPush? then 1 else 0
  {
    hide Poll, DueCount, Sum, Push, Ok;
    match op
    case OpPush(e, now) => PushDropsTheOldest(s, e, now);
    case OpPoll(now) => PollTakesAllThatAreDue(s, now);
    case _ =>
  }

  /** Pushed = presented + skipped as late + dropped by a cap + flushed with an old schedule + still queued. */
  lemma {:induction false} EveryFrameIsAccountedFor<F>(s: Playout<F>, ops: seq<Op<F>>)
    requires Ok(s)
    ensures Accounted(Run(s, ops)) + FlushedBy(s, ops) == Accounted(s) + Pushes(ops)
    decreases |ops|
  {
    hide Apply, Ok;
    if ops != [] {
      CallAccountsForFrames(s, ops[0]);
      OkIsKept(s, ops[0]);
      EveryFrameIsAccountedFor(Apply(s, ops[0]), ops[1..]);
    }
  }

  // ---- jitter is absorbed ----

  /** Pushes and polls only, each timestamp at most jumpUs after the one before. */
  predicate SteadySource<F>(cfg: Config, last: int, ops: seq<Op<F>>)
    decreases |ops|
  {
    ops == []
    || match ops[0]
       case OpPush(e, _) => 0 <= e.pts - last <= cfg.jumpUs && SteadySource(cfg, e.pts, ops[1..])
       case OpPoll(_) => SteadySource(cfg, last, ops[1..])
       case _ => false
  }

  /** How much later than the first frame, beyond its timestamp, this frame arrived. */
  function Lateness(firstPts: int, firstArrival: int, pts: int, now: int): int {
    (now - firstArrival) - (pts - firstPts)
  }

  predicate InBand<F>(cfg: Config, firstPts: int, firstArrival: int, op: Op<F>) {
    op.OpPush? ==>
      var late := Lateness(firstPts, firstArrival, op.e.pts, op.now);
      cfg.delayUs - cfg.maxDepthUs <= late <= cfg.delayUs + cfg.lateToleranceUs
  }

  datatype Schedule = Schedule(cfg: Config, ptsAnchor: int, wallAnchor: int, reanchors: int)

  function ScheduleOf<F>(s: Playout<F>): Schedule {
    Schedule(s.cfg, s.ptsAnchor, s.wallAnchor, s.stats.reanchors)
  }

  predicate SameSchedule<F>(s: Playout<F>, r: Playout<F>) {
    r.anchored && ScheduleOf(r) == ScheduleOf(s)
  }

  /** No call along the way touches the schedule of s. */
  predicate ScheduleKept<F>(s: Playout<F>, t: Playout<F>, ops: seq<Op<F>>)
    decreases |ops|
  {
    ops == [] || (SameSchedule(s, Apply(t, ops[0])) && ScheduleKept(s, Apply(t, ops[0]), ops[1..]))
  }

  lemma CallKeepsSchedule<F>(s: Playout<F>, t: Playout<F>, op: Op<F>, firstPts: int, firstArrival: int)
    requires Ok(t) && SameSchedule(s, t) && t.anchored && s.cfg.delayUs <= s.cfg.maxDepthUs
    requires s.ptsAnchor == firstPts && s.wallAnchor == firstArrival + s.cfg.delayUs
    requires op.OpPoll? || (op.OpPush? && 0 <= op.e.pts - t.lastPts <= s.cfg.jumpUs)
    ensures SameSchedule(s, Apply(t, op)) <==> InBand(s.cfg, firstPts, firstArrival, op)
    ensures Apply(t, op).lastPts == if op.OpPush? then op.e.pts else t.lastPts
  {
    hide Push, Poll, DueCount, Sum, Ok;
    match op
    case OpPush(e, now) => PushDropsTheOldest(t, e, now);
    case OpPoll(now) => PollTakesAllThatAreDue(t, now);
  }

  lemma {:induction false} ScheduleKeptExactlyInBand<F>(s: Playout<F>, t: Playout<F>, ops: seq<Op<F>>,
      firstPts: int, firstArrival: int)
    requires Ok(t) && SameSchedule(s, t) && t.anchored && s.cfg.delayUs <= s.cfg.maxDepthUs
    requires s.ptsAnchor == firstPts && s.wallAnchor == firstArrival + s.cfg.delayUs
    requires SteadySource(s.cfg, t.lastPts, ops)
    ensures ScheduleKept(s, t, ops) <==> forall i | 0 <= i < |ops| :: InBand(s.cfg, firstPts, firstArrival, ops[i])
    decreases |ops|
  {
    hide Apply, Ok, InBand;
    if ops != [] {
      CallKeepsSchedule(s, t, ops[0], firstPts, firstArrival);
      if InBand(s.cfg, firstPts, firstArrival, ops[0]) {
        OkIsKept(t, ops[0]);
        ScheduleKeptExactlyInBand(s, Apply(t, ops[0]), ops[1..], firstPts, firstArrival);
        assert forall i | 0 <= i < |ops| - 1 :: ops[1..][i] == ops[i + 1];
        assert forall i | 1 <= i < |ops| :: ops[i] == ops[1..][i - 1];
      }
    }
  }

  /** After the first frame, polls and steady pushes leave the schedule untouched throughout if and only if every
      frame's lateness stays between delay - maxDepth and delay + lateTolerance. */
  lemma {:induction false} JitterIsAbsorbedExactlyInBand<F>(cfg: Config, first: Entry<F>, arrival: int, ops: seq<Op<F>>)
    requires cfg.delayUs <= cfg.maxDepthUs && SteadySource(cfg, first.pts, ops)
    ensures var s := Push(Fresh(cfg), first, arrival);
            ScheduleKept(s, s, ops) <==> forall i | 0 <= i < |ops| :: InBand(cfg, first.pts, arrival, ops[i])
  {
    hide Push;
    var s := Push(Fresh(cfg), first, arrival);
    PushDropsTheOldest(Fresh(cfg), first, arrival);
    ScheduleKeptExactlyInBand(s, s, ops, first.pts, arrival);
  }

  lemma {:induction false} KeptToTheEnd<F>(s: Playout<F>, t: Playout<F>, ops: seq<Op<F>>)
    requires SameSchedule(s, t) && ScheduleKept(s, t, ops)
    ensures SameSchedule(s, Run(t, ops))
    decreases |ops|
  {
    hide Apply;
    if ops != [] { KeptToTheEnd(s, Apply(t, ops[0]), ops[1..]); }
  }

  /** So in band there is never a re-anchor, and every timestamp is due at the first arrival plus the delay plus
      its distance from the first timestamp, whatever the arrival times were. */
  lemma {:induction false} CadenceSurvivesJitter<F>(cfg: Config, first: Entry<F>, arrival: int, ops: seq<Op<F>>,
      pts: int)
    requires cfg.delayUs <= cfg.maxDepthUs && SteadySource(cfg, first.pts, ops)
    requires forall i | 0 <= i < |ops| :: InBand(cfg, first.pts, arrival, ops[i])
    ensures var r := Run(Push(Fresh(cfg), first, arrival), ops);
            r.stats.reanchors == 0 && DueAt(r, pts) == arrival + cfg.delayUs + (pts - first.pts)
  {
    hide Push, InBand;
    var s := Push(Fresh(cfg), first, arrival);
    PushDropsTheOldest(Fresh(cfg), first, arrival);
    JitterIsAbsorbedExactlyInBand(cfg, first, arrival, ops);
    KeptToTheEnd(s, s, ops);
  }

  // ---- jitter does not show ----

  /** What the polls of a run put on the screen, in order. */
  function Screen<F>(s: Playout<F>, ops: seq<Op<F>>): seq<Option<F>>
    decreases |ops|
  {
    if ops == [] then []
    else (if ops[0].OpPoll? then [Poll(s, ops[0].now).1] else []) + Screen(Apply(s, ops[0]), ops[1..])
  }

  function Frames<F>(ops: seq<Op<F>>): seq<Entry<F>> {
    if ops == [] then [] else (if ops[0].OpPush? then [ops[0].e] else []) + Frames(ops[1..])
  }

  function PollTimes<F>(ops: seq<Op<F>>): seq<int> {
    if ops == [] then [] else (if ops[0].OpPoll? then [ops[0].now] else []) + PollTimes(ops[1..])
  }

  /** What polls at these times would show with all the frames at hand from the start: the newest one due of those not
      shown or skipped before. Of s only the schedule matters. */
  function OnTime<F>(s: Playout<F>, q: seq<Entry<F>>, polls: seq<int>): seq<Option<F>>
    decreases |polls|
  {
    if polls == [] then []
    else
      var k := DueCount(s, q, polls[0]);
      [if k == 0 then None else Some(q[k - 1].frame)] + OnTime(s, q[k..], polls[1..])
  }

  /** In band, and there when it is due. */
  predicate InTime<F>(cfg: Config, firstPts: int, firstArrival: int, op: Op<F>) {
    && InBand(cfg, firstPts, firstArrival, op)
    && (op.OpPush? ==> Lateness(firstPts, firstArrival, op.e.pts, op.now) <= cfg.delayUs)
  }

  /** The clock does not go back from a poll to a push, and of the two at one time the push comes first. */
  predicate PushesFirst<F>(ops: seq<Op<F>>) {
    forall i, j | 0 <= i < j < |ops| && ops[i].OpPoll? && ops[j].OpPush? ::
      ops[i].now < ops[j].now
  }

  /** No cap is reached. */
  predicate NothingDropped<F>(s: Playout<F>, ops: seq<Op<F>>)
    decreases |ops|
  {
    ops == []
    || (Apply(s, ops[0]).stats.droppedOverflow == s.stats.droppedOverflow
        && NothingDropped(Apply(s, ops[0]), ops[1..]))
  }

  lemma PushOnlyQueues<F>(s: Playout<F>, e: Entry<F>, now: int)
    requires Ok(s) && s.anchored
    requires var r := Push(s, e, now).stats;
             r.reanchors == s.stats.reanchors && r.droppedOverflow == s.stats.droppedOverflow
    ensures Push(s, e, now).q == s.q + [e]
  {
    hide Push, Ok, Sum;
    PushDropsTheOldest(s, e, now);
  }

  /** Frames behind one that is not due change nothing. */
  lemma {:induction false} DueCountOfMore<F>(s: Playout<F>, q: seq<Entry<F>>, more: seq<Entry<F>>, now: int)
    requires more != [] ==> DueAt(s, more[0].pts) > now
    ensures DueCount(s, q + more, now) == DueCount(s, q, now)
  {
    if q == [] {
      assert q + more == more;
    } else {
      assert (q + more)[0] == q[0] && (q + more)[1..] == q[1..] + more;
      DueCountOfMore(s, q[1..], more, now);
    }
  }

  /** Of the frames pushed after a poll none was due by then. */
  lemma {:induction false} LaterFramesAreDueLater<F>(s: Playout<F>, ops: seq<Op<F>>, firstPts: int,
      firstArrival: int, now: int)
    requires s.ptsAnchor == firstPts && s.wallAnchor == firstArrival + s.cfg.delayUs
    requires forall j | 0 <= j < |ops| && ops[j].OpPush? :: now < ops[j].now
    requires forall j | 0 <= j < |ops| :: InTime(s.cfg, firstPts, firstArrival, ops[j])
    ensures Frames(ops) != [] ==> DueAt(s, Frames(ops)[0].pts) > now
  {
    if ops != [] && !ops[0].OpPush? {
      assert forall j | 0 <= j < |ops| - 1 :: ops[1..][j] == ops[j + 1];
      LaterFramesAreDueLater(s, ops[1..], firstPts, firstArrival, now);
      assert [] + Frames(ops[1..]) == Frames(ops[1..]);
    }
  }

  lemma PollTakes<F>(t: Playout<F>, now: int)
    ensures var (r, shown) := Poll(t, now);
            var k := DueCount(t, t.q, now);
            r.q == t.q[k..] && shown == if k == 0 then None else Some(t.q[k - 1].frame)
  {
    hide Poll, DueCount, DueAt, Sum;
    PollTakesAllThatAreDue(t, now);
    assert t.q[0..] == t.q;
  }

  lemma SameCountWithMore<F>(s: Playout<F>, t: Playout<F>, q: seq<Entry<F>>, more: seq<Entry<F>>, now: int)
    requires SameSchedule(s, t) && (more != [] ==> DueAt(s, more[0].pts) > now)
    ensures DueCount(s, q + more, now) == DueCount(t, q, now)
  {
    hide DueCount, DueAt;
    DueCountOfMore(s, q, more, now);
    SameDueCount(s, t, q, now);
  }

  lemma PollIsOnTime<F>(s: Playout<F>, t: Playout<F>, later: seq<Entry<F>>, polls: seq<int>)
    requires SameSchedule(s, t) && polls != [] && (later != [] ==> DueAt(s, later[0].pts) > polls[0])
    ensures var (r, shown) := Poll(t, polls[0]);
            OnTime(s, t.q + later, polls) == [shown] + OnTime(s, r.q + later, polls[1..])
  {
    hide *;
    SameCountWithMore(s, t, t.q, later, polls[0]);
    PollTakes(t, polls[0]);
    LaterBehind(t.q, later, DueCount(t, t.q, polls[0]));
    OnTimeUnfolds(s, t.q + later, polls);
  }

  lemma OnTimeUnfolds<F>(s: Playout<F>, q: seq<Entry<F>>, polls: seq<int>)
    requires polls != []
    ensures var k := DueCount(s, q, polls[0]);
            OnTime(s, q, polls)
              == [if k == 0 then None else Some(q[k - 1].frame)] + OnTime(s, q[k..], polls[1..])
  {
    hide DueCount;
  }

  lemma LaterBehind<F>(q: seq<Entry<F>>, later: seq<Entry<F>>, k: nat)
    requires k <= |q|
    ensures (q + later)[k..] == q[k..] + later && q[0..] == q
    ensures (k > 0 ==> (q + later)[k - 1] == q[k - 1])
  {
  }

  predicate Smooth<F>(s: Playout<F>, t: Playout<F>, ops: seq<Op<F>>, firstPts: int, firstArrival: int) {
    && SteadySource(s.cfg, t.lastPts, ops) && PushesFirst(ops)
    && NothingDropped(t, ops)
    && forall i | 0 <= i < |ops| :: InTime(s.cfg, firstPts, firstArrival, ops[i])
  }

  lemma ScreenAfterPush<F>(s: Playout<F>, t: Playout<F>, ops: seq<Op<F>>)
    requires ops != [] && ops[0].OpPush?
    requires var r := Apply(t, ops[0]);
             r.q == t.q + [ops[0].e] && Screen(r, ops[1..]) == OnTime(s, r.q + Frames(ops[1..]), PollTimes(ops[1..]))
    ensures Screen(t, ops) == OnTime(s, t.q + Frames(ops), PollTimes(ops))
  {
    hide Apply, OnTime;
    var r, rest := Apply(t, ops[0]), ops[1..];
    assert r.q + Frames(rest) == t.q + ([ops[0].e] + Frames(rest));
    assert [] + Screen(r, rest) == Screen(r, rest) && [] + PollTimes(rest) == PollTimes(rest);
  }

  lemma ScreenAfterPoll<F>(s: Playout<F>, t: Playout<F>, ops: seq<Op<F>>)
    requires ops != [] && ops[0].OpPoll? && SameSchedule(s, t)
    requires Frames(ops[1..]) != [] ==> DueAt(s, Frames(ops[1..])[0].pts) > ops[0].now
    requires var r := Poll(t, ops[0].now).0;
             Screen(r, ops[1..]) == OnTime(s, r.q + Frames(ops[1..]), PollTimes(ops[1..]))
    ensures Screen(t, ops) == OnTime(s, t.q + Frames(ops), PollTimes(ops))
  {
    hide Poll, OnTime, DueAt, SameSchedule;
    var rest := ops[1..];
    assert PollTimes(ops)[0] == ops[0].now && PollTimes(ops)[1..] == PollTimes(rest);
    assert [] + Frames(rest) == Frames(rest);
    PollIsOnTime(s, t, Frames(rest), PollTimes(ops));
  }

  lemma {:induction false} ScreenIsOnTime<F>(
      s: Playout<F>, t: Playout<F>, ops: seq<Op<F>>, firstPts: int, firstArrival: int)
    requires Ok(t) && SameSchedule(s, t) && s.cfg.delayUs <= s.cfg.maxDepthUs
    requires s.ptsAnchor == firstPts && s.wallAnchor == firstArrival + s.cfg.delayUs
    requires Smooth(s, t, ops, firstPts, firstArrival)
    ensures Screen(t, ops) == OnTime(s, t.q + Frames(ops), PollTimes(ops))
    decreases |ops|
  {
    hide Push, Poll, Ok, InBand, DueAt, OnTime, Screen, Frames, PollTimes;
    if ops == [] {
      NothingOnScreen(s, t);
    } else {
      assert InTime(s.cfg, firstPts, firstArrival, ops[0]);
      assert forall i | 0 <= i < |ops| - 1 :: ops[1..][i] == ops[i + 1];
      OkIsKept(t, ops[0]);
      CallKeepsSchedule(s, t, ops[0], firstPts, firstArrival);
      ScreenIsOnTime(s, Apply(t, ops[0]), ops[1..], firstPts, firstArrival);
      if ops[0].OpPush? {
        PushOnlyQueues(t, ops[0].e, ops[0].now);
        ScreenAfterPush(s, t, ops);
      } else {
        LaterFramesAreDueLater(s, ops[1..], firstPts, firstArrival, ops[0].now);
        ScreenAfterPoll(s, t, ops);
      }
    }
  }

  lemma NothingOnScreen<F>(s: Playout<F>, t: Playout<F>)
    ensures Screen(t, []) == OnTime(s, t.q + Frames<F>([]), PollTimes<F>([]))
  {
  }

  /** If every frame arrives in band and by the time it is due, and no cap is reached, each poll shows what it
      would with all frames at hand from the start: the picture depends on timestamps, poll times and the first
      arrival alone. */
  lemma {:induction false} PictureFollowsTheTimestamps<F>(cfg: Config, first: Entry<F>, arrival: int, ops: seq<Op<F>>)
    requires cfg.delayUs <= cfg.maxDepthUs && cfg.maxFrames >= 1
    requires var s := Push(Fresh(cfg), first, arrival); Smooth(s, s, ops, first.pts, arrival)
    ensures Screen(Push(Fresh(cfg), first, arrival), ops)
         == OnTime(Anchored(Fresh(cfg), first.pts, arrival), [first] + Frames(ops), PollTimes(ops))
  {
    hide Smooth, Screen, OnTime, Frames, PollTimes;
    var s, a := Push(Fresh(cfg), first, arrival), Anchored(Fresh(cfg), first.pts, arrival);
    FirstPush(cfg, first, arrival);
    ScreenIsOnTime(s, s, ops, first.pts, arrival);
    SameOnTime(s, a, [first] + Frames(ops), PollTimes(ops));
  }

  lemma PushWithinCaps<F>(s: Playout<F>, e: Entry<F>, now: int)
    requires !OverCap(Queued(Scheduled(s, e.pts, now), e))
    ensures Push(s, e, now) == Queued(Scheduled(s, e.pts, now), e)
  {
  }

  lemma FirstPush<F>(cfg: Config, first: Entry<F>, arrival: int)
    requires cfg.maxFrames >= 1
    ensures var s := Push(Fresh(cfg), first, arrival);
            && s == Queued(Anchored(Fresh(cfg), first.pts, arrival), first)
            && s.q == [first] && Ok(s)
  {
    hide Push;
    PushWithinCaps(Fresh(cfg), first, arrival);
    assert [] + [first] == [first] && [first][1..] == [];
    assert Sum([first]) == first.bytes + Sum([first][1..]);
  }

  lemma {:induction false} SameOnTime<F>(s: Playout<F>, t: Playout<F>, q: seq<Entry<F>>, polls: seq<int>)
    requires s.wallAnchor == t.wallAnchor && s.ptsAnchor == t.ptsAnchor
    ensures OnTime(s, q, polls) == OnTime(t, q, polls)
    decreases |polls|
  {
    if polls != [] {
      hide OnTime, DueCount;
      SameDueCount(s, t, q, polls[0]);
      SameOnTime(s, t, q[DueCount(s, q, polls[0])..], polls[1..]);
      OnTimeUnfolds(s, q, polls);
      OnTimeUnfolds(t, q, polls);
    }
  }

  /** So two such runs with the same frames and the same poll times show the same pictures, however differently the
      network delivered them. */
  lemma JitterDoesNotShow<F>(cfg: Config, first: Entry<F>, arrival: int, a: seq<Op<F>>, b: seq<Op<F>>)
    requires cfg.delayUs <= cfg.maxDepthUs && cfg.maxFrames >= 1
    requires var s := Push(Fresh(cfg), first, arrival);
             Smooth(s, s, a, first.pts, arrival) && Smooth(s, s, b, first.pts, arrival)
    requires Frames(a) == Frames(b) && PollTimes(a) == PollTimes(b)
    ensures var s := Push(Fresh(cfg), first, arrival);
            Screen(s, a) == Screen(s, b)
  {
    hide Smooth, Screen, OnTime, Frames, PollTimes, Push;
    PictureFollowsTheTimestamps(cfg, first, arrival, a);
    PictureFollowsTheTimestamps(cfg, first, arrival, b);
  }

  /** The input for a frame later than the delay: due at 110 it arrives at 105, or at 120, which is in band and leaves
      the schedule alone; the poll at 110 shows it, or still the frame before. */
  lemma LaterThanTheDelayShows<F>(first: Entry<F>, e: Entry<F>)
    requires first.pts == 0 && e.pts == 10
    ensures var s := Push(Fresh(Config(100, 250, 50, 1000, 10, 0)), first, 0);
            && Poll(Push(s, e, 105), 110).1 == Some(e.frame)
            && Poll(s, 110).1 == Some(first.frame)
            && ScheduleOf(Push(Poll(s, 110).0, e, 120)) == ScheduleOf(s)
  {
    hide Push, Poll, ScheduleOf;
    var s := Push(Fresh(Config(100, 250, 50, 1000, 10, 0)), first, 0);
    FirstPush(Config(100, 250, 50, 1000, 10, 0), first, 0);
    ThereInTime(s, first, e);
    ThereTooLate(s, first, e);
  }

  /** The schedule of that input, with the first frame queued. */
  ghost predicate OneQueued<F>(s: Playout<F>, first: Entry<F>) {
    && s.cfg == Config(100, 250, 50, 1000, 10, 0)
    && s.q == [first]
    && first.pts == 0
    && s.anchored && s.ptsAnchor == 0 && s.wallAnchor == 100
    && s.lastPts == 0
  }

  lemma ThereInTime<F>(s: Playout<F>, first: Entry<F>, e: Entry<F>)
    requires OneQueued(s, first) && e.pts == 10
    ensures Poll(Push(s, e, 105), 110).1 == Some(e.frame)
  {
    hide Poll, Push, DueCount;
    assert s.q + [e] == [first, e];
    PushWithinCaps(s, e, 105);
    PollTakes(Push(s, e, 105), 110);
  }

  lemma ThereTooLate<F>(s: Playout<F>, first: Entry<F>, e: Entry<F>)
    requires OneQueued(s, first) && e.pts == 10
    ensures Poll(s, 110).1 == Some(first.frame)
    ensures ScheduleOf(Push(Poll(s, 110).0, e, 120)) == ScheduleOf(s)
  {
    hide Poll, Push, Sum, DueCount;
    PollTakesAllThatAreDue(s, 110);
    PushWithinCaps(Poll(s, 110).0, e, 120);
  }

}
