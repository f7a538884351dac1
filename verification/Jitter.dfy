/**
The audio jitter buffer as a plain queue of bytes: what a write keeps, what a read plays, and the
exact ledger of every byte over whole sessions. The class in AudioJitterBuffer.dfy implements it
with an offset buffer that it compacts now and then.
 */
module JitterQueue {
  import opened Arithmetic
  import opened Bytes

  datatype Config = Config(prebufferBytes: nat, maxBytes: nat, frameBytes: nat, maxPrebufferBytes: nat)

  /** Drops are cut to whole frames, so a frame has at least one byte. */
  predicate ConfigOk(c: Config) { c.frameBytes > 0 }

  datatype Queue = Queue(
    cfg: Config, prebuffer: nat, q: bytes, playing: bool, started: bool,
    underruns: nat, droppedBytes: nat, silenceBytes: nat)

  function Fresh(c: Config): Queue {
    Queue(c, c.prebufferBytes, [], false, false, 0, 0, 0)
  }

  // ---- write ----

  /** Two thirds of the ceiling: what an overflow keeps. */
  function Keep(c: Config): nat { c.maxBytes * 2 / 3 }

  function DropFor(c: Config, avail: nat): (drop: nat)
    requires ConfigOk(c)
    ensures drop <= avail && drop % c.frameBytes == 0
  {
    if avail <= c.maxBytes then 0
    else
      var over := avail - Keep(c);
      Whole(over, c.frameBytes);
      over - over % c.frameBytes
  }

  lemma Whole(n: nat, frame: nat)
    requires frame > 0
    ensures 0 <= n % frame < frame && n % frame <= n
    ensures (n - n % frame) % frame == 0
  {
    DivisionIsUnique(n - n % frame, frame, n / frame, 0);
  }

  lemma AddWhole(a: nat, b: nat, frame: nat)
    requires frame > 0 && a % frame == 0 && b % frame == 0
    ensures (a + b) % frame == 0
  {
    var i, j := a / frame, b / frame;
    assert (i + j) * frame == i * frame + j * frame;
    DivisionIsUnique(a + b, frame, i + j, 0);
  }

  lemma SubWhole(a: nat, b: nat, frame: nat)
    requires frame > 0 && a % frame == 0 && b % frame == 0 && b <= a
    ensures (a - b) % frame == 0
  {
    var i, j := a / frame, b / frame;
    assert (j - i) * frame == j * frame - i * frame;
    assert (i - j) * frame == i * frame - j * frame;
    DivisionIsUnique(a - b, frame, i - j, 0);
  }

  function Write(s: Queue, data: bytes): Queue
    requires ConfigOk(s.cfg)
  {
    if data == [] then s
    else
      var all := s.q + data;
      var drop := DropFor(s.cfg, |all|);
      s.(q := all[drop..], droppedBytes := s.droppedBytes + drop)
  }

  // ---- read ----

  /** Playback (re)starts once the head start is queued. */
  predicate Starts(s: Queue) { !s.playing && |s.q| >= s.prebuffer && s.q != [] }

  predicate Plays(s: Queue) { s.playing || Starts(s) }

  function Audible(s: Queue, len: nat): nat {
    if Plays(s) then Min(len, |s.q|) else 0
  }

  function Silence(n: nat): (z: bytes)
    ensures |z| == n
  {
    seq(n, _ => 0)
  }

  /** The head start after running dry. */
  function Raised(s: Queue): nat {
    Min(Max(s.prebuffer, s.cfg.maxPrebufferBytes), s.prebuffer + s.cfg.prebufferBytes / 2)
  }

  function Read(s: Queue, len: nat): (r: (Queue, bytes))
    ensures |r.1| == len
  {
    var n := Audible(s, len);
    var dry := Plays(s) && n < len;
    var started := s.started || Starts(s);
    (s.(q := s.q[n..], playing := Plays(s) && !dry, started := started,
        underruns := s.underruns + if dry then 1 else 0,
        prebuffer := if dry then Raised(s) else s.prebuffer,
        silenceBytes := s.silenceBytes + if started then len - n else 0),
     s.q[..n] + Silence(len - n))
  }

  function Configure(s: Queue, c: Config): Queue {
    s.(cfg := c, prebuffer := c.prebufferBytes)
  }

  function Reset(s: Queue): Queue {
    s.(q := [], playing := false, started := false, underruns := 0, droppedBytes := 0, silenceBytes := 0)
  }

  // ---- the ledger of a session ----

  datatype Op = OpWrite(data: bytes) | OpRead(len: nat) | OpConfigure(c: Config) | OpReset

  /** The buffer with what happened since the last reset: all bytes written, how many were played, and how many
      the sound card asked for since playback began. */
  datatype Session = Session(s: Queue, written: bytes, played: nat, asked: nat)

  function Apply(x: Session, op: Op): Session
    requires ConfigOk(x.s.cfg)
  {
    match op
    case OpWrite(data) => x.(s := Write(x.s, data), written := x.written + data)
    case OpRead(len) =>
      var r := Read(x.s, len).0;
      x.(s := r, played := x.played + Audible(x.s, len), asked := x.asked + if r.started then len else 0)
    case OpConfigure(c) => x.(s := Configure(x.s, c))
    case OpReset => Session(Reset(x.s), [], 0, 0)
  }

  predicate OpsOk(ops: seq<Op>) {
    forall i | 0 <= i < |ops| && ops[i].OpConfigure? :: ConfigOk(ops[i].c)
  }

  function Run(x: Session, ops: seq<Op>): Session
    requires ConfigOk(x.s.cfg) && OpsOk(ops)
    decreases |ops|
  {
    if ops == [] then x
    else
      assert forall i | 0 <= i < |ops| - 1 :: ops[1..][i] == ops[i + 1];
      Run(Apply(x, ops[0]), ops[1..])
  }

  predicate Ledger(x: Session) {
    && (|x.written|, x.asked) == (x.played + x.s.droppedBytes + |x.s.q|, x.played + x.s.silenceBytes)
    && x.s.q == x.written[x.played + x.s.droppedBytes..]
    && (!x.s.started ==> !x.s.playing && x.played == 0)
  }

  lemma LedgerIsKept(x: Session, op: Op)
    requires ConfigOk(x.s.cfg) && Ledger(x)
    ensures Ledger(Apply(x, op))
  {
    hide DropFor, Write;
    if op.OpWrite? { WriteKeepsLedger(x, op.data); }
  }

  lemma WriteKeepsLedger(x: Session, data: bytes)
    requires ConfigOk(x.s.cfg) && Ledger(x)
    ensures Ledger(Apply(x, OpWrite(data)))
  {
    hide DropFor;
    var from := x.played + x.s.droppedBytes;
    assert (x.written + data)[from..] == x.s.q + data;
    if data == [] {
      assert x.written + data == x.written;
    } else {
      var drop := DropFor(x.s.cfg, |x.s.q + data|);
      assert (x.s.q + data)[drop..] == (x.written + data)[from + drop..];
    }
  }

  /** Over any session: bytes written = bytes played + bytes dropped + bytes queued, the queue is exactly the tail
      of what was written, and the sound card was given all it asked for, as audio or as counted silence. */
  lemma {:induction false} EveryByteIsAccountedFor(x: Session, ops: seq<Op>)
    requires ConfigOk(x.s.cfg) && OpsOk(ops) && Ledger(x)
    ensures Ledger(Run(x, ops))
    decreases |ops|
  {
    if ops != [] {
      LedgerIsKept(x, ops[0]);
      assert forall i | 0 <= i < |ops| - 1 :: ops[1..][i] == ops[i + 1];
      EveryByteIsAccountedFor(Apply(x, ops[0]), ops[1..]);
    }
  }

  /** The bytes a read plays, by what is queued, the head start and whether playback is under way. */
  predicate SoundFor(s: Queue, len: nat, plays: bool, n: nat) {
    && (plays <==> s.playing || (s.q != [] && |s.q| >= s.prebuffer))
    && n == if !plays then 0 else if len < |s.q| then len else |s.q|
  }

  lemma ReadByTheQueue(s: Queue, len: nat) returns (plays: bool, n: nat)
    ensures SoundFor(s, len, plays, n) && n <= |s.q| && n <= len
    ensures var (r, out) := Read(s, len);
            && out == s.q[..n] + Silence(len - n) && r.q == s.q[n..]
            && (r.playing <==> plays && n == len) && (r.started <==> s.started || (plays && !s.playing))
            && r.underruns == s.underruns + (if plays && n < len then 1 else 0)
            && r.silenceBytes == s.silenceBytes + (if r.started then len - n else 0)
            && (n == len ==> r.prebuffer == s.prebuffer)
            && r.cfg == s.cfg && r.droppedBytes == s.droppedBytes
  {
    plays, n := Plays(s), Audible(s, len);
  }

  /** A read brings sound exactly if something is queued and playback is under way or the head start is queued: then as
      many of the next bytes as are there, and silence for the rest. It goes on playing exactly if it had all that was
      asked for; if it ran dry, that is counted, and silence is counted from the first sound on. */
  lemma ReadPlaysTheNextBytes(x: Session, len: nat) returns (plays: bool, n: nat)
    requires ConfigOk(x.s.cfg) && Ledger(x)
    ensures plays <==> x.s.playing || (x.s.q != [] && |x.s.q| >= x.s.prebuffer)
    ensures n == if !plays then 0 else if len < |x.s.q| then len else |x.s.q|
    ensures var (r, out) := Read(x.s, len);
            var from := x.played + x.s.droppedBytes;
            && from + n <= |x.written| && |out| == len && n <= len
            && out[..n] == x.written[from..from + n] && (forall i | n <= i < len :: out[i] == 0)
            && r.q == x.written[from + n..]
            && (r.playing <==> plays && n == len) && (r.started <==> x.s.started || plays)
            && r.underruns == x.s.underruns + (if plays && n < len then 1 else 0)
            && r.silenceBytes == x.s.silenceBytes + (if x.s.started || plays then len - n else 0)
            && (n == len ==> r.prebuffer == x.s.prebuffer)
            && r.cfg == x.s.cfg && r.droppedBytes == x.s.droppedBytes
  {
    hide Read;
    plays, n := ReadByTheQueue(x.s, len);
    var from := x.played + x.s.droppedBytes;
    assert x.s.q[..n] == x.written[from..from + n];
    assert x.s.q[n..] == x.written[from + n..];
  }

  /** All bytes of the writes among the calls. */
  function Sent(ops: seq<Op>): bytes {
    if ops == [] then [] else Sent(ops[..|ops| - 1]) + if ops[|ops| - 1].OpWrite? then ops[|ops| - 1].data else []
  }

  predicate WritesAndReads(ops: seq<Op>) {
    forall i | 0 <= i < |ops| :: ops[i].OpWrite? || ops[i].OpRead?
  }

  lemma {:induction false} RunOfOneMore(x: Session, ops: seq<Op>, op: Op)
    requires ConfigOk(x.s.cfg) && OpsOk(ops) && OpsOk([op])
    ensures OpsOk(ops + [op]) && ConfigOk(Run(x, ops).s.cfg)
    ensures Run(x, ops + [op]) == Apply(Run(x, ops), op)
    decreases |ops|
  {
    hide Apply;
    assert forall i | 0 <= i < |ops| + 1 :: (ops + [op])[i] == if i < |ops| then ops[i] else [op][0];
    if ops == [] {
      assert ops + [op] == [op] && [op][1..] == [];
    } else {
      assert (ops + [op])[0] == ops[0] && (ops + [op])[1..] == ops[1..] + [op];
      assert forall i | 0 <= i < |ops| - 1 :: ops[1..][i] == ops[i + 1];
      ConfigStaysOk(x, ops[0]);
      RunOfOneMore(Apply(x, ops[0]), ops[1..], op);
    }
  }

  lemma ConfigStaysOk(x: Session, op: Op)
    requires ConfigOk(x.s.cfg) && (op.OpConfigure? ==> ConfigOk(op.c))
    ensures ConfigOk(Apply(x, op).s.cfg)
  {
  }

  /** Nothing played, dropped or lost yet: the new buffer waits for its head start with all that was written. */
  predicate WaitsForTheHeadStart(c: Config, s: Queue, written: bytes) {
    s.cfg == c && s.prebuffer == c.prebufferBytes && s.q == written && !s.playing && !s.started
  }

  /** Until the head start is written, a new buffer keeps all of it and every read is silent; the first read after the
      write that completes it plays from the very first byte. */
  lemma {:induction false} SoundBeginsWithTheHeadStart(c: Config, ops: seq<Op>, data: bytes, len: nat)
    requires ConfigOk(c) && OpsOk(ops) && WritesAndReads(ops)
    requires |Sent(ops)| < c.prebufferBytes <= |Sent(ops) + data| <= c.maxBytes
    ensures var s := Run(NewSession(c), ops).s;
            && WaitsForTheHeadStart(c, s, Sent(ops)) && ConfigOk(s.cfg)
            && (forall i | 0 <= i < len :: Read(s, len).1[i] == 0)
            && var n := if len < |Sent(ops) + data| then len else |Sent(ops) + data|;
            Read(Write(s, data), len).1[..n] == (Sent(ops) + data)[..n]
  {
    var s := Run(NewSession(c), ops).s;
    WaitingGoesOn(c, ops);
  }

  lemma {:induction false} WaitingGoesOn(c: Config, ops: seq<Op>)
    requires ConfigOk(c) && OpsOk(ops) && WritesAndReads(ops)
    requires |Sent(ops)| < c.prebufferBytes && |Sent(ops)| <= c.maxBytes
    ensures WaitsForTheHeadStart(c, Run(NewSession(c), ops).s, Sent(ops))
    decreases |ops|
  {
    if ops != [] {
      var front, op := ops[..|ops| - 1], ops[|ops| - 1];
      assert ops == front + [op];
      WaitingGoesOn(c, front);
      RunOfOneMore(NewSession(c), front, op);
    }
  }

  // ---- the ceiling ----

  /** Whether what an overflow keeps, plus a ragged frame, still fits. */
  predicate RoomForAFrame(c: Config) { c.maxBytes * 2 / 3 + c.frameBytes - 1 <= c.maxBytes }

  /** A write drops nothing as long as all fits; otherwise whole frames off the front, so many that two thirds of the
      ceiling and less than a frame more are left. */
  lemma WriteDropsToTwoThirds(s: Queue, data: bytes)
    requires ConfigOk(s.cfg) && data != []
    ensures var r, all := Write(s, data), s.q + data;
            var gone := |all| - |r.q|;
            && gone >= 0 && r.q == all[gone..] && r == s.(q := r.q, droppedBytes := s.droppedBytes + gone)
            && if |all| <= s.cfg.maxBytes then gone == 0
               else gone % s.cfg.frameBytes == 0
                    && s.cfg.maxBytes * 2 / 3 <= |r.q| < s.cfg.maxBytes * 2 / 3 + s.cfg.frameBytes
  {
  }

  lemma ConfigurationSetsTheSizes(s: Queue, c: Config)
    ensures var r := Configure(s, c);
            (r.cfg, r.prebuffer) == (c, c.prebufferBytes) && r.(cfg := s.cfg, prebuffer := s.prebuffer) == s
  {
  }

  /** A configuration does not interrupt playback: what is queued plays on. Where nothing plays, the new head start is
      what the next sound waits for. */
  lemma ConfigurationDoesNotInterrupt(s: Queue, c: Config, len: nat)
    ensures s.playing ==> Read(Configure(s, c), len).1 == Read(s, len).1
    ensures !s.playing && |s.q| < c.prebufferBytes ==> Read(Configure(s, c), len).1 == Silence(len)
    ensures !s.playing && s.q != [] && |s.q| >= c.prebufferBytes && len > 0 ==>
              Read(Configure(s, c), len).1[0] == s.q[0]
  {
  }

  /** A reset buffer is as new, but for the configuration and the head start it has learned. */
  lemma ResetIsAsNew(s: Queue)
    ensures Reset(s) == Fresh(s.cfg).(prebuffer := s.prebuffer)
  {
  }

  lemma ThreeFramesSuffice(c: Config)
    requires ConfigOk(c) && c.maxBytes >= 3 * c.frameBytes
    ensures RoomForAFrame(c)
  {
  }

  predicate WithinCeiling(s: Queue) { |s.q| <= s.cfg.maxBytes }

  /** With room for a frame above what is kept, a write of anything at all leaves the queue within the ceiling,
      whatever was queued before. */
  lemma CeilingHolds(s: Queue, data: bytes)
    requires ConfigOk(s.cfg) && RoomForAFrame(s.cfg)
    ensures data != [] || WithinCeiling(s) ==> WithinCeiling(Write(s, data))
  {
  }

  /** Without that room some write does leave more than the ceiling queued. */
  lemma CeilingFailsWithoutRoom(c: Config) returns (data: bytes)
    requires ConfigOk(c) && !RoomForAFrame(c)
    ensures |Write(Fresh(c), data).q| > c.maxBytes
  {
    var k := c.maxBytes + 1;
    assert k * c.frameBytes >= k by { Scaled(c.frameBytes, k); }
    data := Silence(Keep(c) + k * c.frameBytes + (c.frameBytes - 1));
    assert [] + data == data;
    DivisionIsUnique(|data| - Keep(c), c.frameBytes, k, c.frameBytes - 1);
  }

  // ---- the ceiling over whole sessions ----

  function NewSession(c: Config): Session { Session(Fresh(c), [], 0, 0) }

  /** Every configuration in force during the session has that room. */
  predicate Roomy(c: Config, ops: seq<Op>) {
    && RoomForAFrame(c)
    && forall i | 0 <= i < |ops| && ops[i].OpConfigure? :: RoomForAFrame(ops[i].c)
  }

  /** The queue is within the ceiling in every state of the session. */
  predicate WithinThroughout(x: Session, ops: seq<Op>)
    requires ConfigOk(x.s.cfg) && OpsOk(ops)
    decreases |ops|
  {
    WithinCeiling(x.s) && (ops == [] || WithinThroughout(Apply(x, ops[0]), Later(ops)))
  }

  /** No new configuration has a ceiling below what is queued when it comes. */
  predicate NeverConfiguredBelow(x: Session, ops: seq<Op>)
    requires ConfigOk(x.s.cfg) && OpsOk(ops)
    decreases |ops|
  {
    ops == []
    || ((ops[0].OpConfigure? ==> |x.s.q| <= ops[0].c.maxBytes) && NeverConfiguredBelow(Apply(x, ops[0]), Later(ops)))
  }

  function Later(ops: seq<Op>): (r: seq<Op>)
    requires ops != []
    ensures r == ops[1..] && (OpsOk(ops) ==> OpsOk(r))
  {
    assert forall i | 0 <= i < |ops| - 1 :: ops[1..][i] == ops[i + 1];
    ops[1..]
  }

  lemma StillRoomy(x: Session, ops: seq<Op>)
    requires ops != [] && ConfigOk(x.s.cfg) && OpsOk(ops) && Roomy(x.s.cfg, ops)
    ensures ConfigOk(Apply(x, ops[0]).s.cfg)
    ensures Roomy(Apply(x, ops[0]).s.cfg, Later(ops))
  {
    hide RoomForAFrame, DropFor;
    assert forall i | 0 <= i < |ops| - 1 :: Later(ops)[i] == ops[i + 1];
  }

  /** With room, one call leaves the queue within the ceiling, unless it sets a ceiling below what is queued. */
  lemma CallWithinCeiling(x: Session, op: Op)
    requires ConfigOk(x.s.cfg) && RoomForAFrame(x.s.cfg) && WithinCeiling(x.s)
    ensures WithinCeiling(Apply(x, op).s) <==> (op.OpConfigure? ==> |x.s.q| <= op.c.maxBytes)
  {
    hide RoomForAFrame, DropFor;
    if op.OpWrite? { CeilingHolds(x.s, op.data); }
  }

  /** Where every configuration has room, the queue stays within the ceiling throughout a session exactly if it starts
      so and no configuration comes with a ceiling below what is queued. */
  lemma {:induction false} CeilingHoldsThroughoutExactly(x: Session, ops: seq<Op>)
    requires ConfigOk(x.s.cfg) && OpsOk(ops) && Roomy(x.s.cfg, ops)
    ensures WithinThroughout(x, ops) <==> WithinCeiling(x.s) && NeverConfiguredBelow(x, ops)
    decreases |ops|
  {
    hide WithinCeiling, RoomForAFrame, Write, Read;
    if ops != [] && WithinCeiling(x.s) {
      CallWithinCeiling(x, ops[0]);
      StillRoomy(x, ops);
      CeilingHoldsThroughoutExactly(Apply(x, ops[0]), Later(ops));
    }
  }

  /** Even after such a configuration the next write of anything at all brings the queue back within the ceiling. */
  lemma {:induction false} EveryWriteLandsWithinTheCeiling(x: Session, ops: seq<Op>, i: nat)
    requires ConfigOk(x.s.cfg) && OpsOk(ops) && Roomy(x.s.cfg, ops)
    requires i < |ops| && ops[i].OpWrite? && ops[i].data != []
    ensures OpsOk(ops[..i + 1])
    ensures WithinCeiling(Run(x, ops[..i + 1]).s)
    decreases |ops|
  {
    hide WithinCeiling, RoomForAFrame, Write, Read;
    var first := ops[..i + 1];
    assert forall k | 0 <= k < |first| :: first[k] == ops[k];
    assert first[1..] == Later(ops)[..i];
    if i == 0 {
      CeilingHolds(x.s, ops[0].data);
    } else {
      StillRoomy(x, ops);
      EveryWriteLandsWithinTheCeiling(Apply(x, ops[0]), Later(ops), i - 1);
    }
  }

  /** Of the sessions of one configuration, all stay within the ceiling exactly if it has room. */
  lemma CeilingIsHardExactlyWithRoom(c: Config)
    requires ConfigOk(c)
    ensures RoomForAFrame(c) <==>
              forall ops: seq<Op> | OpsOk(ops) && NoConfigure(ops) :: WithinThroughout(NewSession(c), ops)
  {
    if RoomForAFrame(c) {
      forall ops: seq<Op> | OpsOk(ops) && NoConfigure(ops) ensures WithinThroughout(NewSession(c), ops) {
        CeilingHoldsThroughoutExactly(NewSession(c), ops);
        NoConfigureIsNeverBelow(NewSession(c), ops);
      }
    } else {
      var data := CeilingFailsWithoutRoom(c);
      var ops := [OpWrite(data)];
      assert OpsOk(ops) && NoConfigure(ops) && Later(ops) == [];
      assert !WithinThroughout(Apply(NewSession(c), ops[0]), Later(ops));
      assert !WithinThroughout(NewSession(c), ops);
    }
  }

  predicate NoConfigure(ops: seq<Op>) {
    forall i | 0 <= i < |ops| :: !ops[i].OpConfigure?
  }

  lemma {:induction false} NoConfigureIsNeverBelow(x: Session, ops: seq<Op>)
    requires ConfigOk(x.s.cfg) && OpsOk(ops) && NoConfigure(ops)
    ensures NeverConfiguredBelow(x, ops)
    decreases |ops|
  {
    if ops != [] {
      assert forall i | 0 <= i < |ops| - 1 :: ops[1..][i] == ops[i + 1];
      NoConfigureIsNeverBelow(Apply(x, ops[0]), Later(ops));
    }
  }

  /** The input: 2000 bytes queued under a ceiling of 4000, then a ceiling of 1500, both with room. */
  lemma ConfigureCanLeaveTooMuch(data: bytes)
    requires |data| == 2000
    ensures var wide, narrow := Config(100, 4000, 4, 0), Config(100, 1500, 4, 0);
            var ops := [OpWrite(data), OpConfigure(narrow)];
            && OpsOk(ops) && Roomy(wide, ops)
            && !WithinCeiling(Run(NewSession(wide), ops).s)
  {
    var wide, narrow := Config(100, 4000, 4, 0), Config(100, 1500, 4, 0);
    var ops := [OpWrite(data), OpConfigure(narrow)];
    var x := Apply(NewSession(wide), ops[0]);
    assert [] + data == data;
    assert x.s.q == data && ops[1..] == [OpConfigure(narrow)] && [OpConfigure(narrow)][1..] == [];
    assert Run(x, [OpConfigure(narrow)]) == Apply(x, OpConfigure(narrow));
    assert Run(NewSession(wide), ops) == Apply(x, ops[1]);
  }

  /** An overflow never cuts the queue below a head start of up to two thirds of the ceiling. */
  lemma OverflowKeepsTheHeadStart(s: Queue, data: bytes)
    requires ConfigOk(s.cfg) && s.prebuffer <= Keep(s.cfg)
    ensures Write(s, data).droppedBytes > s.droppedBytes ==> |Write(s, data).q| >= s.prebuffer
  {
  }

  // ---- frame alignment ----

  predicate AlignedOp(frame: nat, op: Op)
    requires frame > 0
  {
    match op
    case OpWrite(data) => |data| % frame == 0
    case OpRead(len) => len % frame == 0
    case OpConfigure(c) => c.frameBytes == frame
    case OpReset => true
  }

  /** With whole frames written and read, the queue, and so the start of every read, is frame-aligned. */
  lemma {:induction false} AlignmentIsKept(x: Session, ops: seq<Op>, frame: nat)
    requires frame > 0 && x.s.cfg.frameBytes == frame && OpsOk(ops)
    requires |x.s.q| % frame == 0 && (x.played + x.s.droppedBytes) % frame == 0
    requires forall i | 0 <= i < |ops| :: AlignedOp(frame, ops[i])
    ensures var r := Run(x, ops);
            && |r.s.q| % frame == 0
            && (r.played + r.s.droppedBytes) % frame == 0
    decreases |ops|
  {
    if ops != [] {
      assert forall i | 0 <= i < |ops| - 1 :: ops[1..][i] == ops[i + 1];
      AlignedStep(x, ops[0], frame);
      AlignmentIsKept(Apply(x, ops[0]), ops[1..], frame);
    }
  }

  lemma AlignedWrite(x: Session, data: bytes, frame: nat)
    requires frame > 0 && x.s.cfg.frameBytes == frame && |data| % frame == 0
    requires |x.s.q| % frame == 0 && (x.played + x.s.droppedBytes) % frame == 0
    ensures var y := Apply(x, OpWrite(data));
            && |y.s.q| % frame == 0
            && (y.played + y.s.droppedBytes) % frame == 0
  {
    hide DropFor;
    if data != [] {
      var drop := DropFor(x.s.cfg, |x.s.q + data|);
      AddWhole(|x.s.q|, |data|, frame);
      SubWhole(|x.s.q + data|, drop, frame);
      AddWhole(x.played + x.s.droppedBytes, drop, frame);
    }
  }

  lemma AlignedRead(x: Session, len: nat, frame: nat)
    requires frame > 0 && ConfigOk(x.s.cfg) && len % frame == 0
    requires |x.s.q| % frame == 0 && (x.played + x.s.droppedBytes) % frame == 0
    ensures var y := Apply(x, OpRead(len));
            && |y.s.q| % frame == 0
            && (y.played + y.s.droppedBytes) % frame == 0
  {
    hide Audible, Plays, Starts, Silence, Raised;
    var n := Audible(x.s, len);
    AudibleIsWhole(x.s, len, frame);
    SubWhole(|x.s.q|, n, frame);
    AddWhole(x.played + x.s.droppedBytes, n, frame);
  }

  lemma AudibleIsWhole(s: Queue, len: nat, frame: nat)
    requires frame > 0 && len % frame == 0 && |s.q| % frame == 0
    ensures Audible(s, len) <= |s.q|
    ensures Audible(s, len) % frame == 0
  {
    hide Plays;
    assert 0 % frame == 0 by { DivisionIsUnique(0, frame, 0, 0); }
    if Audible(s, len) != 0 { assert Audible(s, len) == len || Audible(s, len) == |s.q|; }
  }

  lemma AlignedStep(x: Session, op: Op, frame: nat)
    requires frame > 0 && x.s.cfg.frameBytes == frame && AlignedOp(frame, op)
    requires |x.s.q| % frame == 0 && (x.played + x.s.droppedBytes) % frame == 0
    ensures var y := Apply(x, op);
            y.s.cfg.frameBytes == frame && |y.s.q| % frame == 0 && (y.played + y.s.droppedBytes) % frame == 0
  {
    hide DropFor, Raised;
    match op
    case OpWrite(data) => AlignedWrite(x, data, frame);
    case OpRead(len) => AlignedRead(x, len, frame);
    case _ =>
  }

  // ---- the learned head start ----

  /** Without reconfiguring, the head start only grows, and only up to the larger of its start and the maximum. */
  lemma {:induction false} HeadStartOnlyGrows(x: Session, ops: seq<Op>, limit: nat)
    requires ConfigOk(x.s.cfg) && OpsOk(ops) && forall i | 0 <= i < |ops| :: !ops[i].OpConfigure?
    requires x.s.prebuffer <= limit && x.s.cfg.maxPrebufferBytes <= limit
    ensures x.s.prebuffer <= Run(x, ops).s.prebuffer <= limit
    decreases |ops|
  {
    if ops != [] {
      assert forall i | 0 <= i < |ops| - 1 :: ops[1..][i] == ops[i + 1];
      HeadStartOnlyGrows(Apply(x, ops[0]), ops[1..], limit);
    }
  }

  /** The head start after n underruns: n halves of the configured one on top of it, up to the maximum. */
  predicate Learned(s: Queue) {
    var p := s.cfg.prebufferBytes;
    s.prebuffer == Min(Max(p, s.cfg.maxPrebufferBytes), p + s.underruns * (p / 2))
  }

  lemma OneUnderrunMore(p: nat, m: nat, n: nat, half: nat, pre: nat)
    requires pre == Min(Max(p, m), p + n * half)
    ensures Min(Max(pre, m), pre + half) == Min(Max(p, m), p + (n + 1) * half)
  {
    assert (n + 1) * half == n * half + half;
  }

  lemma ReadLearns(s: Queue, len: nat)
    requires Learned(s)
    ensures Learned(Read(s, len).0)
  {
    var p := s.cfg.prebufferBytes;
    OneUnderrunMore(p, s.cfg.maxPrebufferBytes, s.underruns, p / 2, s.prebuffer);
  }

  /** From a new buffer on, until reconfigured or reset, the head start is a function of the number of underruns. */
  lemma {:induction false} HeadStartFollowsTheUnderruns(x: Session, ops: seq<Op>)
    requires ConfigOk(x.s.cfg) && OpsOk(ops) && Learned(x.s)
    requires forall i | 0 <= i < |ops| :: !ops[i].OpConfigure? && !ops[i].OpReset?
    ensures Learned(Run(x, ops).s) && Learned(Fresh(x.s.cfg))
    decreases |ops|
  {
    if ops != [] {
      assert forall i | 0 <= i < |ops| - 1 :: ops[1..][i] == ops[i + 1];
      if ops[0].OpRead? { ReadLearns(x.s, ops[0].len); }
      HeadStartFollowsTheUnderruns(Apply(x, ops[0]), ops[1..]);
    }
  }
}
