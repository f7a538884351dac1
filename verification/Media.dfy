/**
The BCMedia byte stream: what the incremental parser does with its rolling buffer, stated as a
function, and the facts that make it correct: it does not matter how the stream is cut into
pieces, and well-formed frames come out exactly, whatever garbage stands between them.
 */
module MediaStream {
  import opened Sequences
  import opened Bytes

  datatype Codec = Unknown | H264 | H265

  datatype Event =
    | Video(keyFrame: bool, codec: Codec, microseconds: u32, time: u32, annexB: bytes)
    | Audio(adts: bytes)

  // ---- magics ----

  predicate IsInfo(b: bytes, at: nat)
    requires at + 4 <= |b|
  {
    b[at] == 0x31 && b[at + 1] == 0x30 && b[at + 2] == 0x30 && (b[at + 3] == 0x31 || b[at + 3] == 0x32)
  }

  predicate IsVideo(b: bytes, at: nat)
    requires at + 4 <= |b|
  {
    b[at + 2] == 0x64 && b[at + 3] == 0x63 && 0x30 <= b[at] <= 0x39 && (b[at + 1] == 0x30 || b[at + 1] == 0x31)
  }

  predicate IsAudio(b: bytes, at: nat)
    requires at + 4 <= |b|
  {
    b[at + 2] == 0x77 && b[at + 3] == 0x62 && b[at] == 0x30 && (b[at + 1] == 0x35 || b[at + 1] == 0x31)
  }

  predicate AnyMagic(b: bytes, at: nat)
    requires at + 4 <= |b|
  {
    IsInfo(b, at) || IsVideo(b, at) || IsAudio(b, at)
  }

  /** These characters stand at that position. */
  predicate Spells(b: bytes, at: nat, word: string) {
    at + |word| <= |b| && forall k | 0 <= k < |word| :: b[at + k] == word[k] as int
  }

  /** A frame starts exactly where one of the magics stands: "1001" or "1002", a channel digit and "0dc" or "1dc", or
      "05wb" or "01wb". */
  lemma FramesStartAtMagics(b: bytes, at: nat)
    requires at + 4 <= |b|
    ensures IsInfo(b, at) <==> Spells(b, at, "1001") || Spells(b, at, "1002")
    ensures IsVideo(b, at) <==>
              '0' as int <= b[at] <= '9' as int && (Spells(b, at + 1, "0dc") || Spells(b, at + 1, "1dc"))
    ensures IsAudio(b, at) <==> Spells(b, at, "05wb") || Spells(b, at, "01wb")
    ensures AnyMagic(b, at) <==> IsInfo(b, at) || IsVideo(b, at) || IsAudio(b, at)
  {
    SpellsFour(b, at, "1001");
    SpellsFour(b, at, "1002");
    SpellsFour(b, at, "05wb");
    SpellsFour(b, at, "01wb");
    SpellsThree(b, at + 1, "0dc");
    SpellsThree(b, at + 1, "1dc");
  }

  lemma SpellsFour(b: bytes, at: nat, word: string)
    requires at + 4 <= |b| && |word| == 4
    ensures Spells(b, at, word) <==>
              b[at] == word[0] as int && b[at + 1] == word[1] as int
              && b[at + 2] == word[2] as int && b[at + 3] == word[3] as int
  {
  }

  lemma SpellsThree(b: bytes, at: nat, word: string)
    requires at + 3 <= |b| && |word| == 3
    ensures Spells(b, at, word) <==>
              b[at] == word[0] as int && b[at + 1] == word[1] as int && b[at + 2] == word[2] as int
  {
  }

  /** The first position from i on where a frame could start, or -1. */
  function NextMagic(b: bytes, i: nat): (k: int)
    ensures k >= -1
    ensures k < 0 ==> forall j | i <= j && j + 4 <= |b| :: !AnyMagic(b, j)
    ensures k >= 0 ==> i <= k && k + 4 <= |b| && AnyMagic(b, k) && forall j | i <= j < k :: !AnyMagic(b, j)
    decreases |b| - i
  {
    if i + 4 > |b| then -1 else if AnyMagic(b, i) then i else NextMagic(b, i + 1)
  }

  // ---- one frame ----

  function PadFor(size: nat): nat { (8 - size % 8) % 8 }

  /** Padding fills a payload up to the next multiple of eight. */
  lemma PaddingFillsUpToEight(size: nat)
    ensures PadFor(size) < 8 && (size + PadFor(size)) % 8 == 0
  {
  }

  /** How many bytes must be there before the frame's length is known. */
  function HeaderLen(b: bytes): nat
    requires |b| >= 4
  {
    if IsInfo(b, 0) then 32 else if IsVideo(b, 0) then 24 else 8
  }

  function DataStart(b: bytes): nat
    requires |b| >= 24 && IsVideo(b, 0)
  {
    24 + GetLE32(b, 12)
  }

  function Total(b: bytes): (n: nat)
    requires |b| >= 4 && AnyMagic(b, 0) && |b| >= HeaderLen(b)
    ensures n >= HeaderLen(b)
  {
    if IsInfo(b, 0) then 32
    else if IsVideo(b, 0) then DataStart(b) + GetLE32(b, 8) + PadFor(GetLE32(b, 8))
    else 8 + GetLE16(b, 4) + PadFor(GetLE16(b, 4))
  }

  predicate Complete(b: bytes)
    requires |b| >= 4 && AnyMagic(b, 0)
  {
    |b| >= HeaderLen(b) && |b| >= Total(b)
  }

  function CodecOf(b: bytes): Codec
    requires |b| >= 8
  {
    if b[4] == 0x48 && b[5] == 0x32 && b[6] == 0x36 then if b[7] == 0x35 then H265 else H264 else Unknown
  }

  /** What a complete frame at the front reports; `audio` says whether anyone listens for sound. */
  function EventsOf(b: bytes, audio: bool): seq<Event>
    requires |b| >= 4 && AnyMagic(b, 0) && Complete(b)
  {
    if IsInfo(b, 0) then []
    else if IsVideo(b, 0) then
      [Video(b[1] == 0x30, CodecOf(b), GetLE32(b, 16), if GetLE32(b, 12) >= 4 then GetLE32(b, 24) else 0,
             b[DataStart(b)..DataStart(b) + GetLE32(b, 8)])]
    else if b[1] == 0x35 && audio && GetLE16(b, 4) > 0 then [Audio(b[8..8 + GetLE16(b, 4)])]
    else []
  }

  /** A 32-bit value kept in a signed int. */
  function AsInt(v: u32): int { if v < 0x8000_0000 then v else v - 0x1_0000_0000 }

  /** Two's complement: the same 32 bits, read with a sign. */
  lemma AsIntIsTwosComplement(v: u32)
    ensures -0x8000_0000 <= AsInt(v) < 0x8000_0000
    ensures AsInt(v) % 0x1_0000_0000 == v
  {
  }

  datatype Parser = Parser(buf: bytes, width: int, height: int)

  const FRESH := Parser([], 0, 0)

  function Past(p: Parser): Parser
    requires |p.buf| >= 4 && AnyMagic(p.buf, 0) && Complete(p.buf)
  {
    var rest := p.(buf := p.buf[Total(p.buf)..]);
    if IsInfo(p.buf, 0) then rest.(width := AsInt(GetLE32(p.buf, 8)), height := AsInt(GetLE32(p.buf, 12))) else rest
  }

  /** Take every complete frame off the buffer, resynchronising where no frame starts. */
  function Parse(p: Parser, audio: bool): (Parser, seq<Event>)
    decreases |p.buf|
  {
    if |p.buf| < 4 then (p, [])
    else if AnyMagic(p.buf, 0) then
      if !Complete(p.buf) then (p, [])
      else
        var (q, events) := Parse(Past(p), audio);
        (q, EventsOf(p.buf, audio) + events)
    else
      var next := NextMagic(p.buf, 1);
      if next < 0 then (p.(buf := p.buf[|p.buf| - 3..]), []) else Parse(p.(buf := p.buf[next..]), audio)
  }

  function Fed(p: Parser, more: bytes): Parser { p.(buf := p.buf + more) }

  // ---- independence of segmentation ----

  /** What may be left in the buffer: too little to tell, or an incomplete frame. */
  predicate Leftover(b: bytes) {
    |b| < 4 || (AnyMagic(b, 0) && !Complete(b))
  }

  lemma {:induction false} ParseLeavesALeftover(p: Parser, audio: bool)
    ensures Leftover(Parse(p, audio).0.buf)
    ensures Leftover(p.buf) ==> Parse(p, audio) == (p, [])
    decreases |p.buf|
  {
    if |p.buf| >= 4 {
      if AnyMagic(p.buf, 0) {
        if Complete(p.buf) { ParseLeavesALeftover(Past(p), audio); }
      } else {
        var next := NextMagic(p.buf, 1);
        if next >= 0 { ParseLeavesALeftover(p.(buf := p.buf[next..]), audio); }
      }
    }
  }

  lemma MagicHere(b: bytes, c: bytes, at: nat, to: nat)
    requires at + 4 <= |b| && to + 4 <= |c|
    requires b[at] == c[to] && b[at + 1] == c[to + 1] && b[at + 2] == c[to + 2] && b[at + 3] == c[to + 3]
    ensures AnyMagic(b, at) <==> AnyMagic(c, to)
  {
  }

  lemma VideoUnchangedByMore(b: bytes, more: bytes, audio: bool)
    requires |b| >= 4 && IsVideo(b, 0) && Complete(b)
    ensures var d := b + more;
            && Complete(d) && Total(d) == Total(b)
            && EventsOf(d, audio) == EventsOf(b, audio)
  {
    var d := b + more;
    LE32UnchangedByMore(b, more, 8);
    LE32UnchangedByMore(b, more, 12);
    LE32UnchangedByMore(b, more, 16);
    if GetLE32(b, 12) >= 4 { LE32UnchangedByMore(b, more, 24); }
    SliceUnchangedByMore(b, more, DataStart(b), DataStart(b) + GetLE32(b, 8));
    assert CodecOf(d) == CodecOf(b);
  }

  lemma AudioUnchangedByMore(b: bytes, more: bytes, audio: bool)
    requires |b| >= 4 && IsAudio(b, 0) && Complete(b)
    ensures var d := b + more;
            && Complete(d) && Total(d) == Total(b)
            && EventsOf(d, audio) == EventsOf(b, audio)
  {
    assert GetLE16(b + more, 4) == GetLE16(b, 4);
    SliceUnchangedByMore(b, more, 8, 8 + GetLE16(b, 4));
  }

  lemma FrameUnchangedByMore(p: Parser, more: bytes, audio: bool)
    requires |p.buf| >= 4 && AnyMagic(p.buf, 0) && Complete(p.buf)
    ensures var q := Fed(p, more);
            && AnyMagic(q.buf, 0) && Complete(q.buf)
            && Past(q) == Fed(Past(p), more)
            && EventsOf(q.buf, audio) == EventsOf(p.buf, audio)
  {
    MagicHere(p.buf, p.buf + more, 0, 0);
    if IsVideo(p.buf, 0) {
      VideoUnchangedByMore(p.buf, more, audio);
    } else if IsAudio(p.buf, 0) {
      AudioUnchangedByMore(p.buf, more, audio);
    } else {
      LE32UnchangedByMore(p.buf, more, 8);
      LE32UnchangedByMore(p.buf, more, 12);
    }
    SliceUnchangedByMore(p.buf, more, Total(p.buf), |p.buf|);
  }

  /** Where the search resumes when no frame starts in b: what follows its last three bytes decides. */
  lemma SearchResumes(b: bytes, more: bytes)
    requires |b| >= 4 && !AnyMagic(b, 0) && NextMagic(b, 1) < 0
    ensures var d, t, cut := b + more, b[|b| - 3..] + more, |b| - 3;
            && t == d[cut..] && !AnyMagic(d, 0)
            && (|t| >= 4 ==>
                 if AnyMagic(t, 0) then NextMagic(d, 1) == cut
                 else NextMagic(d, 1) == if NextMagic(t, 1) < 0 then -1 else NextMagic(t, 1) + cut)
            && (|t| < 4 ==> NextMagic(d, 1) == -1)
  {
    var d, cut := b + more, |b| - 3;
    var t := b[cut..] + more;
    forall j | 0 <= j && j + 4 <= |b| ensures !AnyMagic(d, j) { MagicHere(b, d, j, j); }
    forall j | 0 <= j && j + 4 <= |t| ensures AnyMagic(t, j) <==> AnyMagic(d, j + cut) { MagicHere(t, d, j, j + cut); }
    if |t| >= 4 && !AnyMagic(t, 0) {
      assert !AnyMagic(d, cut);
      NextMagicShifted(d, t, cut, 1);
    } else if |t| < 4 {
      assert |d| == |b|;
    }
  }

  lemma {:induction false} NextMagicShifted(d: bytes, t: bytes, cut: nat, i: nat)
    requires cut <= |d| && t == d[cut..]
    ensures NextMagic(d, cut + i) == if NextMagic(t, i) < 0 then -1 else NextMagic(t, i) + cut
    decreases |t| - i
  {
    if i + 4 <= |t| {
      MagicHere(t, d, i, i + cut);
      NextMagicShifted(d, t, cut, i + 1);
    }
  }

  /** No frame starts in the buffer: only its last three bytes matter from here on. */
  lemma ResyncAcross(p: Parser, more: bytes, audio: bool)
    requires |p.buf| >= 4 && !AnyMagic(p.buf, 0) && NextMagic(p.buf, 1) < 0
    ensures Parse(Fed(p, more), audio) == Parse(Fed(p.(buf := p.buf[|p.buf| - 3..]), more), audio)
  {
    hide AnyMagic, NextMagic, Complete, Past, EventsOf;
    var b, d, cut := p.buf, p.buf + more, |p.buf| - 3;
    var t := b[cut..] + more;
    SearchResumes(b, more);
    if |t| < 4 {
      assert t == d[|d| - 3..];
    } else if !AnyMagic(t, 0) {
      var k := NextMagic(t, 1);
      if k < 0 {
        assert t[|t| - 3..] == d[|d| - 3..];
      } else {
        assert t[k..] == d[k + cut..];
      }
    }
  }

  predicate SplitsAlike(p: Parser, more: bytes, audio: bool) {
    var (q, first) := Parse(p, audio);
    var (r, second) := Parse(Fed(q, more), audio);
    Parse(Fed(p, more), audio) == (r, first + second)
  }

  lemma SplitsAfterFrame(p: Parser, more: bytes, audio: bool)
    requires |p.buf| >= 4 && AnyMagic(p.buf, 0) && Complete(p.buf) && SplitsAlike(Past(p), more, audio)
    ensures SplitsAlike(p, more, audio)
  {
    FrameUnchangedByMore(p, more, audio);
    var first := Parse(Past(p), audio).1;
    var second := Parse(Fed(Parse(p, audio).0, more), audio).1;
    Associate(EventsOf(p.buf, audio), first, second);
  }

  /** Feeding a and then b is the same as feeding a + b: same events in the same order, same leftover. */
  lemma {:induction false} ParseIsSegmentationIndependent(p: Parser, more: bytes, audio: bool)
    ensures SplitsAlike(p, more, audio)
    decreases |p.buf|
  {
    if |p.buf| < 4 {
    } else if AnyMagic(p.buf, 0) {
      if Complete(p.buf) {
        ParseIsSegmentationIndependent(Past(p), more, audio);
        SplitsAfterFrame(p, more, audio);
      } else {
        var (r, second) := Parse(Fed(p, more), audio);
        assert [] + second == second;
      }
    } else if NextMagic(p.buf, 1) >= 0 {
      SkipUnchangedByMore(p, more, audio);
      ParseIsSegmentationIndependent(p.(buf := p.buf[NextMagic(p.buf, 1)..]), more, audio);
    } else {
      ResyncAcross(p, more, audio);
      assert [] + Parse(Fed(p, more), audio).1 == Parse(Fed(p, more), audio).1;
    }
  }

  lemma SkipUnchangedByMore(p: Parser, more: bytes, audio: bool)
    requires |p.buf| >= 4 && !AnyMagic(p.buf, 0) && NextMagic(p.buf, 1) >= 0
    ensures Parse(Fed(p, more), audio) == Parse(Fed(p.(buf := p.buf[NextMagic(p.buf, 1)..]), more), audio)
  {
    var b, d, k := p.buf, p.buf + more, NextMagic(p.buf, 1);
    forall j | 0 <= j && j + 4 <= |b| ensures AnyMagic(b, j) <==> AnyMagic(d, j) { MagicHere(b, d, j, j); }
    assert NextMagic(d, 1) == k;
    assert d[k..] == b[k..] + more;
  }

  /** The parser's whole life: one call after another. */
  function ParseEach(p: Parser, chunks: seq<bytes>, audio: bool): (Parser, seq<Event>)
    decreases |chunks|
  {
    if chunks == [] then (p, [])
    else
      var (q, first) := Parse(Fed(p, chunks[0]), audio);
      var (r, rest) := ParseEach(q, chunks[1..], audio);
      (r, first + rest)
  }

  /** However the stream is cut, the result is that of the whole stream at once. */
  lemma {:induction false} AnyCutParsesAlike(p: Parser, chunks: seq<bytes>, audio: bool)
    requires Leftover(p.buf)
    ensures ParseEach(p, chunks, audio) == Parse(Fed(p, Flatten(chunks)), audio)
    decreases |chunks|
  {
    hide Parse, Leftover;
    ParseLeavesALeftover(p, audio);
    if chunks == [] {
      assert Fed(p, []) == p;
    } else {
      var (q, first) := Parse(Fed(p, chunks[0]), audio);
      ParseLeavesALeftover(Fed(p, chunks[0]), audio);
      AnyCutParsesAlike(q, chunks[1..], audio);
      ParseIsSegmentationIndependent(Fed(p, chunks[0]), Flatten(chunks[1..]), audio);
      assert p.buf + chunks[0] + Flatten(chunks[1..]) == p.buf + (chunks[0] + Flatten(chunks[1..]));
    }
  }

  // ---- well-formed frames come out exactly ----

  /** A frame as a camera sends it. Fields the parser does not interpret are left open. */
  datatype WireFrame =
    | Info(version2: bool, size: bytes, width: u32, height: u32, rest: bytes)
    | VideoFrame(channel: nat, keyFrame: bool, tag: bytes, microseconds: u32, reserved: bytes,
                 extra: bytes, annexB: bytes, padding: bytes)
    | AudioFrame(aac: bool, reserved: bytes, payload: bytes, padding: bytes)

  predicate WellFormed(w: WireFrame) {
    match w
    case Info(_, size, _, _, rest) => |size| == 4 && |rest| == 16
    case VideoFrame(channel, _, tag, _, reserved, extra, annexB, padding) =>
      channel <= 9 && |tag| == 4 && |reserved| == 4 && |extra| < 0x1_0000_0000 && |annexB| < 0x1_0000_0000
      && |padding| == PadFor(|annexB|)
    case AudioFrame(_, reserved, payload, padding) =>
      |reserved| == 2 && |payload| < 0x1_0000 && |padding| == PadFor(|payload|)
  }

  function VideoFront(w: WireFrame): (b: bytes)
    requires WellFormed(w) && w.VideoFrame?
    ensures |b| == 24
  {
    [0x30 + w.channel, if w.keyFrame then 0x30 else 0x31, 0x64, 0x63] + w.tag
    + (PutLE32(|w.annexB|) + (PutLE32(|w.extra|) + (PutLE32(w.microseconds) + w.reserved)))
  }

  function AudioFront(w: WireFrame): (b: bytes)
    requires WellFormed(w) && w.AudioFrame?
    ensures |b| == 8
  {
    [0x30, if w.aac then 0x35 else 0x31, 0x77, 0x62] + (PutLE16(|w.payload|) + w.reserved)
  }

  function Encode(w: WireFrame): bytes
    requires WellFormed(w)
  {
    match w
    case Info(version2, size, width, height, rest) =>
      [0x31, 0x30, 0x30, if version2 then 0x32 else 0x31] + size + (PutLE32(width) + (PutLE32(height) + rest))
    case VideoFrame(_, _, _, _, _, extra, annexB, padding) => VideoFront(w) + (extra + (annexB + padding))
    case AudioFrame(_, _, payload, padding) => AudioFront(w) + (payload + padding)
  }

  function TagCodec(tag: bytes): Codec
    requires |tag| == 4
  {
    if tag[0] == 0x48 && tag[1] == 0x32 && tag[2] == 0x36 then if tag[3] == 0x35 then H265 else H264 else Unknown
  }

  /** The codec is H.265 for the tag "H265" and H.264 for "H26" and anything else. */
  lemma TagsNameTheCodec(tag: bytes)
    requires |tag| == 4
    ensures TagCodec(tag) == H265 <==> Spells(tag, 0, "H265")
    ensures TagCodec(tag) == H264 <==> Spells(tag, 0, "H26") && !Spells(tag, 0, "H265")
  {
    SpellsFour(tag, 0, "H265");
    SpellsThree(tag, 0, "H26");
  }

  /** What a frame means to the rest of the program. */
  function Meaning(w: WireFrame, audio: bool): seq<Event>
    requires WellFormed(w)
  {
    match w
    case Info(_, _, _, _, _) => []
    case VideoFrame(_, keyFrame, tag, microseconds, _, extra, annexB, _) =>
      [Video(keyFrame, TagCodec(tag), microseconds, if |extra| >= 4 then GetLE32(extra, 0) else 0, annexB)]
    case AudioFrame(aac, _, payload, _) => if aac && audio && payload != [] then [Audio(payload)] else []
  }

  function Sized(p: Parser, w: WireFrame): Parser {
    if w.Info? then p.(width := AsInt(w.width), height := AsInt(w.height)) else p
  }

  lemma InfoParses(p: Parser, w: WireFrame, rest: bytes, audio: bool)
    requires WellFormed(w) && w.Info?
    ensures var q := p.(buf := Encode(w) + rest);
            && AnyMagic(q.buf, 0) && Complete(q.buf)
            && Past(q) == Sized(p, w).(buf := rest) && EventsOf(q.buf, audio) == []
  {
    hide GetLE32, PutLE32;
    var f, tail := Encode(w), PutLE32(w.width) + (PutLE32(w.height) + w.rest);
    var front := [0x31, 0x30, 0x30, if w.version2 then 0x32 else 0x31] + w.size;
    TwoLE32(w.width, w.height, w.rest);
    LE32Behind(front, tail, 0);
    LE32Behind(front, tail, 4);
    LE32UnchangedByMore(f, rest, 8);
    LE32UnchangedByMore(f, rest, 12);
    assert (f + rest)[32..] == rest;
  }

  lemma TwoLE32(x: u32, y: u32, after: bytes)
    ensures var b := PutLE32(x) + (PutLE32(y) + after);
            |b| == 8 + |after| && GetLE32(b, 0) == x && GetLE32(b, 4) == y
  {
    hide PutLE32, GetLE32;
    LE32UnchangedByMore(PutLE32(x), PutLE32(y) + after, 0);
    LE32UnchangedByMore(PutLE32(y), after, 0);
    LE32Behind(PutLE32(x), PutLE32(y) + after, 0);
  }

  lemma VideoFrontFields(w: WireFrame)
    requires WellFormed(w) && w.VideoFrame?
    ensures var f := VideoFront(w);
            && IsVideo(f, 0) && (f[1] == 0x30 <==> w.keyFrame)
            && CodecOf(f) == TagCodec(w.tag)
            && GetLE32(f, 8) == |w.annexB|
            && GetLE32(f, 12) == |w.extra|
            && GetLE32(f, 16) == w.microseconds
  {
    hide GetLE32, PutLE32;
    var magic := [0x30 + w.channel, if w.keyFrame then 0x30 else 0x31, 0x64, 0x63];
    var front := magic + w.tag;
    var fields := PutLE32(|w.annexB|) + (PutLE32(|w.extra|) + (PutLE32(w.microseconds) + w.reserved));
    ThreeLE32(|w.annexB|, |w.extra|, w.microseconds, w.reserved);
    LE32Behind(front, fields, 0);
    LE32Behind(front, fields, 4);
    LE32Behind(front, fields, 8);
    assert front[4] == w.tag[0] && front[5] == w.tag[1] && front[6] == w.tag[2] && front[7] == w.tag[3];
    assert forall k | 0 <= k < 8 :: VideoFront(w)[k] == front[k];
  }

  /** The header fields of a video frame, with anything behind them. */
  lemma VideoHeader(w: WireFrame, behind: bytes)
    requires WellFormed(w) && w.VideoFrame?
    ensures var b := VideoFront(w) + behind;
            && |b| == 24 + |behind| && IsVideo(b, 0)
            && (b[1] == 0x30 <==> w.keyFrame)
            && CodecOf(b) == TagCodec(w.tag)
            && GetLE32(b, 8) == |w.annexB|
            && GetLE32(b, 12) == |w.extra|
            && GetLE32(b, 16) == w.microseconds
  {
    hide GetLE32, VideoFront;
    VideoFrontFields(w);
    var f := VideoFront(w);
    assert forall k | 0 <= k < 8 :: (f + behind)[k] == f[k];
    LE32UnchangedByMore(f, behind, 8);
    LE32UnchangedByMore(f, behind, 12);
    LE32UnchangedByMore(f, behind, 16);
  }

  /** Behind the header: the extra header, the elementary stream, its padding and what follows the frame. */
  lemma VideoBody(w: WireFrame, rest: bytes)
    requires WellFormed(w) && w.VideoFrame?
    ensures var b, start := Encode(w) + rest, 24 + |w.extra|;
            && b == VideoFront(w) + (w.extra + (w.annexB + (w.padding + rest)))
            && |b| == start + |w.annexB| + |w.padding| + |rest|
            && b[start..start + |w.annexB|] == w.annexB
            && b[start + |w.annexB| + |w.padding|..] == rest
  {
    hide VideoFront;
    var f := VideoFront(w);
    Associate(f, w.extra + (w.annexB + w.padding), rest);
    Associate(w.extra, w.annexB + w.padding, rest);
    Associate(w.annexB, w.padding, rest);
    Associate(f, w.extra, w.annexB + (w.padding + rest));
    Associate(f + w.extra, w.annexB, w.padding + rest);
    Associate((f + w.extra) + w.annexB, w.padding, rest);
  }

  lemma VideoTime(w: WireFrame, behind: bytes)
    requires WellFormed(w) && w.VideoFrame?
    ensures |w.extra| >= 4 ==> GetLE32(VideoFront(w) + (w.extra + behind), 24) == GetLE32(w.extra, 0)
  {
    hide GetLE32, VideoFront;
    if |w.extra| >= 4 {
      LE32Behind(VideoFront(w), w.extra + behind, 0);
      LE32UnchangedByMore(w.extra, behind, 0);
    }
  }

  lemma VideoParses(p: Parser, w: WireFrame, rest: bytes, audio: bool)
    requires WellFormed(w) && w.VideoFrame?
    ensures var q := p.(buf := Encode(w) + rest);
            && AnyMagic(q.buf, 0) && Complete(q.buf)
            && Past(q) == p.(buf := rest)
            && EventsOf(q.buf, audio) == Meaning(w, audio)
  {
    hide GetLE32, VideoFront, CodecOf, TagCodec, Encode;
    VideoBody(w, rest);
    VideoHeader(w, w.extra + (w.annexB + (w.padding + rest)));
    VideoTime(w, w.annexB + (w.padding + rest));
  }

  lemma AudioHeader(w: WireFrame, behind: bytes)
    requires WellFormed(w) && w.AudioFrame?
    ensures var b := AudioFront(w) + behind;
            && |b| == 8 + |behind| && IsAudio(b, 0)
            && (b[1] == 0x35 <==> w.aac)
            && GetLE16(b, 4) == |w.payload|
  {
    hide PutLE16, GetLE16;
    var f, magic := AudioFront(w), [0x30, if w.aac then 0x35 else 0x31, 0x77, 0x62];
    LE16UnchangedByMore(PutLE16(|w.payload|), w.reserved, 0);
    LE16Behind(magic, PutLE16(|w.payload|) + w.reserved, 0);
    LE16UnchangedByMore(f, behind, 4);
    assert forall k | 0 <= k < 4 :: (f + behind)[k] == magic[k];
  }

  lemma AudioBody(w: WireFrame, rest: bytes)
    requires WellFormed(w) && w.AudioFrame?
    ensures var b := Encode(w) + rest;
            && b == AudioFront(w) + (w.payload + (w.padding + rest))
            && |b| == 8 + |w.payload| + |w.padding| + |rest|
            && b[8..8 + |w.payload|] == w.payload
            && b[8 + |w.payload| + |w.padding|..] == rest
  {
    hide AudioFront;
    var f := AudioFront(w);
    Associate(f, w.payload + w.padding, rest);
    Associate(w.payload, w.padding, rest);
    Associate(f, w.payload, w.padding + rest);
    Associate(f + w.payload, w.padding, rest);
  }

  lemma AudioParses(p: Parser, w: WireFrame, rest: bytes, audio: bool)
    requires WellFormed(w) && w.AudioFrame?
    ensures var q := p.(buf := Encode(w) + rest);
            && AnyMagic(q.buf, 0) && Complete(q.buf)
            && Past(q) == p.(buf := rest)
            && EventsOf(q.buf, audio) == Meaning(w, audio)
  {
    hide GetLE16, AudioFront, Encode;
    AudioBody(w, rest);
    AudioHeader(w, w.payload + (w.padding + rest));
  }

  lemma FrameParses(p: Parser, w: WireFrame, rest: bytes, audio: bool)
    requires WellFormed(w)
    ensures var (q, events) := Parse(Sized(p, w).(buf := rest), audio);
            Parse(p.(buf := Encode(w) + rest), audio) == (q, Meaning(w, audio) + events)
  {
    match w
    case Info(_, _, _, _, _) => InfoParses(p, w, rest, audio);
    case VideoFrame(_, _, _, _, _, _, _, _) => VideoParses(p, w, rest, audio);
    case AudioFrame(_, _, _, _) => AudioParses(p, w, rest, audio);
  }

  /** A frame with the garbage that precedes it. */
  datatype Item = Item(garbage: bytes, frame: WireFrame)

  /** No magic starts inside the garbage, not even one that runs on into the frame. */
  predicate Clean(it: Item) {
    WellFormed(it.frame)
    && var b := it.garbage + Encode(it.frame);
    forall j | 0 <= j < |it.garbage| :: !AnyMagic(b, j)
  }

  predicate AllClean(items: seq<Item>) {
    forall i | 0 <= i < |items| :: Clean(items[i])
  }

  function Wire(items: seq<Item>): bytes
    requires AllClean(items)
  {
    if items == [] then [] else items[0].garbage + Encode(items[0].frame) + Wire(items[1..])
  }

  function Meanings(items: seq<Item>, audio: bool): seq<Event>
    requires AllClean(items)
  {
    if items == [] then [] else Meaning(items[0].frame, audio) + Meanings(items[1..], audio)
  }

  lemma GarbageIsSkipped(p: Parser, it: Item, rest: bytes, audio: bool)
    requires Clean(it)
    ensures Parse(p.(buf := it.garbage + Encode(it.frame) + rest), audio)
              == Parse(p.(buf := Encode(it.frame) + rest), audio)
  {
    var g, e := it.garbage, Encode(it.frame);
    var b, d := g + e, g + e + rest;
    assert d[|g|..] == e + rest;
    if g == [] {
      assert d == e + rest;
    } else {
      forall j | 0 <= j < |g| ensures !AnyMagic(d, j) { MagicHere(b, d, j, j); }
      MagicHere(e + rest, d, 0, |g|);
      assert NextMagic(d, 1) == |g|;
    }
  }

  /** The parser once every info frame among the items has been seen. */
  function SizedBy(p: Parser, items: seq<Item>): Parser
    decreases |items|
  {
    if items == [] then p else SizedBy(Sized(p, items[0].frame), items[1..])
  }

  /** Every well-formed frame of the stream comes out, once, in order, and nothing else does. */
  lemma {:induction false} WellFormedStreamIsRecovered(p: Parser, items: seq<Item>, audio: bool)
    requires AllClean(items) && p.buf == []
    ensures Parse(Fed(p, Wire(items)), audio) == (SizedBy(p, items), Meanings(items, audio))
    decreases |items|
  {
    if items != [] {
      var it := items[0];
      GarbageIsSkipped(p, it, Wire(items[1..]), audio);
      FrameParses(p, it.frame, Wire(items[1..]), audio);
      WellFormedStreamIsRecovered(Sized(p, it.frame), items[1..], audio);
      assert Fed(p, Wire(items)).buf == it.garbage + Encode(it.frame) + Wire(items[1..]);
      assert Fed(Sized(p, it.frame), Wire(items[1..])) == Sized(p, it.frame).(buf := Wire(items[1..]));
    }
  }

  /** The declared size is that of the last info frame. */
  lemma {:induction false} LastInfoFrameGivesTheSize(p: Parser, items: seq<Item>, i: nat)
    requires i < |items| && items[i].frame.Info? && forall j | i < j < |items| :: !items[j].frame.Info?
    ensures SizedBy(p, items).width == AsInt(items[i].frame.width)
    ensures SizedBy(p, items).height == AsInt(items[i].frame.height)
    decreases |items|
  {
    var q := Sized(p, items[0].frame);
    assert forall j | 0 <= j < |items| - 1 :: items[1..][j] == items[j + 1];
    if i > 0 {
      LastInfoFrameGivesTheSize(q, items[1..], i - 1);
    } else {
      NoInfoKeepsTheSize(q, items[1..]);
    }
  }

  lemma {:induction false} NoInfoKeepsTheSize(p: Parser, items: seq<Item>)
    requires forall j | 0 <= j < |items| :: !items[j].frame.Info?
    ensures SizedBy(p, items) == p
    decreases |items|
  {
    if items != [] { NoInfoKeepsTheSize(p, items[1..]); }
  }
}
