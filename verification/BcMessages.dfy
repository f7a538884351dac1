/**
Baichuan messages on the wire: serialising, taking one message off a receive buffer, and the media
in it. Draining a buffer does not depend on how the network cut the bytes, and what a camera sealed
into messages is recovered; PumpTurns.dfy puts both together with the parser.
 */
module BcMessages {
  import opened Arithmetic
  import opened Sequences
  import opened Bytes
  import opened BcCrypto
  import opened MediaStream

  const MAGIC: u32 := 0x0ABCDEF0
  const MAGIC_REV: u32 := 0x0FEDCBA0

  datatype Msg = Msg(id: u32, channel: byte, msgNum: u16, code: u16, cls: u16, payloadOffset: u32, body: bytes)

  predicate HasPayloadOffset(cls: u16) { cls == 0x6414 || cls == 0x0000 }

  function HeaderLength(cls: u16): nat { if HasPayloadOffset(cls) then 24 else 20 }

  /** A message as any peer may send it; `streamType` is not read back. */
  predicate Sendable(m: Msg) {
    && |m.body| < 0x1_0000_0000
    && (!HasPayloadOffset(m.cls) ==> m.payloadOffset == 0)
  }

  function Fixed(rev: bool, streamType: byte, m: Msg): (b: bytes)
    requires Sendable(m)
    ensures |b| == 20
  {
    PutLE32(if rev then MAGIC_REV else MAGIC) + (PutLE32(m.id) + (PutLE32(|m.body|) + Codes(streamType, m)))
  }

  function Codes(streamType: byte, m: Msg): (b: bytes)
    ensures |b| == 8
  {
    [m.channel, streamType] + (PutLE16(m.msgNum) + (PutLE16(m.code) + PutLE16(m.cls)))
  }

  function Offset(m: Msg): bytes {
    if HasPayloadOffset(m.cls) then PutLE32(m.payloadOffset) else []
  }

  function Serialized(rev: bool, streamType: byte, m: Msg): bytes
    requires Sendable(m)
  {
    Fixed(rev, streamType, m) + (Offset(m) + m.body)
  }

  datatype Parsed = Incomplete | Message(m: Msg, rest: bytes)

  /** Take one complete message off the front of the receive buffer. */
  function ParseMessage(b: bytes): (r: Parsed)
    ensures r.Message? ==> |r.rest| < |b|
  {
    if |b| < 20 || (GetLE32(b, 0) != MAGIC && GetLE32(b, 0) != MAGIC_REV) then Incomplete
    else
      var bodyLen, cls := GetLE32(b, 8), GetLE16(b, 18);
      var headerLen := HeaderLength(cls);
      if |b| < headerLen + bodyLen then Incomplete
      else
        Message(Msg(GetLE32(b, 4), b[12], GetLE16(b, 14), GetLE16(b, 16), cls,
                    if HasPayloadOffset(cls) then GetLE32(b, 20) else 0, b[headerLen..headerLen + bodyLen]),
                b[headerLen + bodyLen..])
  }

  // ---- serialise, then parse ----

  lemma CodesFields(streamType: byte, m: Msg)
    ensures var b := Codes(streamType, m);
            b[0] == m.channel && GetLE16(b, 2) == m.msgNum && GetLE16(b, 4) == m.code && GetLE16(b, 6) == m.cls
  {
    hide GetLE16, PutLE16;
    var fields := PutLE16(m.msgNum) + (PutLE16(m.code) + PutLE16(m.cls));
    ThreeLE16(m.msgNum, m.code, m.cls);
    LE16Behind([m.channel, streamType], fields, 0);
    LE16Behind([m.channel, streamType], fields, 2);
    LE16Behind([m.channel, streamType], fields, 4);
  }

  lemma FixedAlone(rev: bool, streamType: byte, m: Msg)
    requires Sendable(m)
    ensures var b := Fixed(rev, streamType, m);
            && GetLE32(b, 0) == (if rev then MAGIC_REV else MAGIC)
            && GetLE32(b, 4) == m.id && GetLE32(b, 8) == |m.body|
            && b[12] == m.channel && GetLE16(b, 14) == m.msgNum
            && GetLE16(b, 16) == m.code && GetLE16(b, 18) == m.cls
  {
    hide GetLE16, GetLE32, PutLE32, Codes;
    var magic, codes := if rev then MAGIC_REV else MAGIC, Codes(streamType, m);
    ThreeLE32(magic, m.id, |m.body|, codes);
    CodesFields(streamType, m);
    var front := (PutLE32(magic) + PutLE32(m.id)) + PutLE32(|m.body|);
    Associate(PutLE32(magic), PutLE32(m.id), PutLE32(|m.body|) + codes);
    Associate(PutLE32(magic) + PutLE32(m.id), PutLE32(|m.body|), codes);
    LE16Behind(front, codes, 2);
    LE16Behind(front, codes, 4);
    LE16Behind(front, codes, 6);
    assert (front + codes)[12] == codes[0];
  }

  lemma FixedFields(rev: bool, streamType: byte, m: Msg, more: bytes)
    requires Sendable(m)
    ensures var b := Fixed(rev, streamType, m) + more;
            && |b| == 20 + |more|
            && GetLE32(b, 0) == (if rev then MAGIC_REV else MAGIC)
            && GetLE32(b, 4) == m.id && GetLE32(b, 8) == |m.body|
            && b[12] == m.channel
            && GetLE16(b, 14) == m.msgNum
            && GetLE16(b, 16) == m.code
            && GetLE16(b, 18) == m.cls
  {
    hide GetLE16, GetLE32, Fixed;
    var f := Fixed(rev, streamType, m);
    FixedAlone(rev, streamType, m);
    LE32UnchangedByMore(f, more, 0);
    LE32UnchangedByMore(f, more, 4);
    LE32UnchangedByMore(f, more, 8);
    LE16UnchangedByMore(f, more, 14);
    LE16UnchangedByMore(f, more, 16);
    LE16UnchangedByMore(f, more, 18);
    assert (f + more)[12] == f[12];
  }

  /** Behind the fixed part: the payload offset, where there is one, the body and what follows the message. */
  lemma SerializedBody(rev: bool, streamType: byte, m: Msg, rest: bytes)
    requires Sendable(m)
    ensures var b, h := Serialized(rev, streamType, m) + rest, HeaderLength(m.cls);
            && b == Fixed(rev, streamType, m) + (Offset(m) + (m.body + rest))
            && |b| == h + |m.body| + |rest|
            && b[h..h + |m.body|] == m.body
            && b[h + |m.body|..] == rest
  {
    hide Fixed, PutLE32;
    var f, offset := Fixed(rev, streamType, m), Offset(m);
    Associate(f, offset + m.body, rest);
    Associate(offset, m.body, rest);
    Associate(f, offset, m.body + rest);
  }

  lemma SerializedOffset(rev: bool, streamType: byte, m: Msg, behind: bytes)
    requires Sendable(m) && HasPayloadOffset(m.cls)
    ensures GetLE32(Fixed(rev, streamType, m) + (Offset(m) + behind), 20) == m.payloadOffset
  {
    hide Fixed, PutLE32, GetLE32;
    LE32Behind(Fixed(rev, streamType, m), Offset(m) + behind, 0);
    LE32UnchangedByMore(Offset(m), behind, 0);
  }

  /** Parsing what was serialised gives the message back and leaves exactly what follows it. */
  lemma SerializedParses(rev: bool, streamType: byte, m: Msg, rest: bytes)
    requires Sendable(m)
    ensures ParseMessage(Serialized(rev, streamType, m) + rest) == Message(m, rest)
  {
    hide GetLE16, GetLE32, Fixed, Serialized, Offset;
    SerializedBody(rev, streamType, m, rest);
    FixedFields(rev, streamType, m, Offset(m) + (m.body + rest));
    if HasPayloadOffset(m.cls) { SerializedOffset(rev, streamType, m, m.body + rest); }
  }

  /** A little-endian number of four bytes. */
  predicate Number32(b: bytes, at: nat, v: int) {
    at + 4 <= |b|
    && b[at] as int + 256 * b[at + 1] as int + 65536 * b[at + 2] as int + 16777216 * b[at + 3] as int == v
  }

  predicate Number16(b: bytes, at: nat, v: int) { at + 2 <= |b| && b[at] as int + 256 * b[at + 1] as int == v }

  /** A message on the wire, byte by byte: magic, id, body length, channel, stream type, message number, response code
      and class, and for the two classes that have one the payload offset; then the body. */
  lemma MessageLayout(rev: bool, streamType: byte, m: Msg)
    requires Sendable(m)
    ensures var b, h := Serialized(rev, streamType, m), if m.cls == 0x6414 || m.cls == 0 then 24 else 20;
            && |b| == h + |m.body| && b[h..] == m.body
            && Number32(b, 0, if rev then 0x0FEDCBA0 else 0x0ABCDEF0)
            && Number32(b, 4, m.id) && Number32(b, 8, |m.body|) && b[12] == m.channel && b[13] == streamType
            && Number16(b, 14, m.msgNum) && Number16(b, 16, m.code) && Number16(b, 18, m.cls)
            && (h == 24 ==> Number32(b, 20, m.payloadOffset))
  {
    hide Fixed, Offset, PutLE32;
    var b := Serialized(rev, streamType, m);
    SerializedBody(rev, streamType, m, []);
    assert m.body + [] == m.body && b + [] == b;
    FixedFields(rev, streamType, m, Offset(m) + m.body);
    if HasPayloadOffset(m.cls) { SerializedOffset(rev, streamType, m, m.body); }
    StreamTypeAt(rev, streamType, m);
  }

  lemma StreamTypeAt(rev: bool, streamType: byte, m: Msg)
    requires Sendable(m)
    ensures Fixed(rev, streamType, m)[13] == streamType
  {
    hide PutLE32, PutLE16;
    assert Codes(streamType, m)[1] == streamType;
  }

  /** A message cut short is not taken. */
  lemma CutMessageIsIncomplete(rev: bool, streamType: byte, m: Msg, n: nat)
    requires Sendable(m) && n < |Serialized(rev, streamType, m)|
    ensures ParseMessage(Serialized(rev, streamType, m)[..n]) == Incomplete
  {
    var b, whole := Serialized(rev, streamType, m)[..n], Serialized(rev, streamType, m);
    SerializedParses(rev, streamType, m, []);
    assert whole + [] == whole;
    if |b| >= 20 {
      assert GetLE32(b, 8) == GetLE32(whole, 8) && GetLE16(b, 18) == GetLE16(whole, 18);
    }
  }

  lemma ParsedUnchangedByMore(b: bytes, more: bytes)
    requires ParseMessage(b).Message?
    ensures ParseMessage(b + more) == Message(ParseMessage(b).m, ParseMessage(b).rest + more)
  {
    var d := b + more;
    LE32UnchangedByMore(b, more, 0);
    LE32UnchangedByMore(b, more, 4);
    LE32UnchangedByMore(b, more, 8);
    var bodyLen, cls := GetLE32(b, 8), GetLE16(b, 18);
    assert GetLE16(d, 14) == GetLE16(b, 14) && GetLE16(d, 16) == GetLE16(b, 16) && GetLE16(d, 18) == cls;
    if HasPayloadOffset(cls) { LE32UnchangedByMore(b, more, 20); }
    SliceUnchangedByMore(b, more, HeaderLength(cls), HeaderLength(cls) + bodyLen);
    SliceUnchangedByMore(b, more, HeaderLength(cls) + bodyLen, |b|);
  }

  // ---- what the pump makes of a message ----

  /** The session key, the cipher, and how <encryptLen> is read out of a decrypted extension. */
  datatype Session = Session(cipher: BlockCipher, key: bytes, encryptLen: bytes -> int, streamMsgNum: u16)

  function EncLen(s: Session, m: Msg): int {
    if m.payloadOffset > 0 then s.encryptLen(AesCfb(s.cipher, s.key, Left(m.body, m.payloadOffset), true)) else 0
  }

  function MediaOf(s: Session, m: Msg): bytes {
    var encLen := EncLen(s, m);
    var payload := Mid(m.body, m.payloadOffset);
    if encLen > 0 then AesCfb(s.cipher, s.key, Left(payload, encLen), true) + Mid(payload, encLen) else payload
  }

  function Deliver(s: Session, m: Msg): seq<bytes> {
    if m.msgNum == s.streamMsgNum then [MediaOf(s, m)] else []
  }

  /** Take every complete message off the buffer; the media of those on the stream's number, in order. */
  function Drain(s: Session, b: bytes): (seq<bytes>, bytes)
    decreases |b|
  {
    match ParseMessage(b)
    case Incomplete => ([], b)
    case Message(m, rest) =>
      var (media, left) := Drain(s, rest);
      (Deliver(s, m) + media, left)
  }

  predicate DrainsAlike(s: Session, b: bytes, more: bytes) {
    var (first, left) := Drain(s, b);
    var (second, left') := Drain(s, left + more);
    Drain(s, b + more) == (first + second, left')
  }

  lemma DrainOfMessage(s: Session, b: bytes)
    requires ParseMessage(b).Message?
    ensures var m, rest := ParseMessage(b).m, ParseMessage(b).rest;
            Drain(s, b) == (Deliver(s, m) + Drain(s, rest).0, Drain(s, rest).1)
  {
    hide ParseMessage, Deliver;
  }

  lemma DrainsAlikeAfter(s: Session, b: bytes, more: bytes, front: seq<bytes>, rest: bytes)
    requires Drain(s, b) == (front + Drain(s, rest).0, Drain(s, rest).1)
    requires Drain(s, b + more) == (front + Drain(s, rest + more).0, Drain(s, rest + more).1)
    requires DrainsAlike(s, rest, more)
    ensures DrainsAlike(s, b, more)
  {
    hide Drain;
    var first, second := Drain(s, rest).0, Drain(s, Drain(s, rest).1 + more).0;
    assert front + (first + second) == (front + first) + second;
  }

  /** Receiving a and then b delivers the same media, in the same order, as receiving a + b. */
  lemma {:induction false} DrainIsSegmentationIndependent(s: Session, b: bytes, more: bytes)
    ensures DrainsAlike(s, b, more)
    decreases |b|
  {
    hide ParseMessage, Deliver;
    match ParseMessage(b)
    case Incomplete => assert [] + Drain(s, b + more).0 == Drain(s, b + more).0;
    case Message(m, rest) =>
      DrainIsSegmentationIndependent(s, rest, more);
      ParsedUnchangedByMore(b, more);
      DrainOfMessage(s, b);
      DrainOfMessage(s, b + more);
      DrainsAlikeAfter(s, b, more, Deliver(s, m), rest);
  }

  function DrainEach(s: Session, b: bytes, chunks: seq<bytes>): (seq<bytes>, bytes)
    decreases |chunks|
  {
    if chunks == [] then ([], b)
    else
      var (first, left) := Drain(s, b + chunks[0]);
      var (rest, left') := DrainEach(s, left, chunks[1..]);
      (first + rest, left')
  }

  predicate Drained(b: bytes) { ParseMessage(b) == Incomplete }

  lemma {:induction false} DrainDrains(s: Session, b: bytes)
    ensures Drained(Drain(s, b).1)
    decreases |b|
  {
    if ParseMessage(b).Message? { DrainDrains(s, ParseMessage(b).rest); }
  }

  /** However TCP cuts the bytes, the messages found are those of the whole. */
  lemma {:induction false} AnyCutDrainsAlike(s: Session, b: bytes, chunks: seq<bytes>)
    requires Drained(b)
    ensures DrainEach(s, b, chunks) == Drain(s, b + Flatten(chunks))
    decreases |chunks|
  {
    hide ParseMessage, Deliver;
    if chunks == [] {
      assert b + [] == b;
    } else {
      DrainDrains(s, b + chunks[0]);
      AnyCutDrainsAlike(s, Drain(s, b + chunks[0]).1, chunks[1..]);
      DrainIsSegmentationIndependent(s, b + chunks[0], Flatten(chunks[1..]));
      assert b + chunks[0] + Flatten(chunks[1..]) == b + Flatten(chunks);
    }
  }

  // ---- end to end ----

  /** What a camera puts on the connection: a piece of the media stream, or any message of another number. */
  datatype Packet =
    | Media(rev: bool, streamType: byte, id: u32, channel: byte, code: u16, cls: u16, extension: bytes, media: bytes)
    | Other(rev: bool, streamType: byte, m: Msg)

  function SealedLen(s: Session, extension: bytes, media: bytes): nat {
    if extension == [] || s.encryptLen(extension) <= 0 then 0 else Min(s.encryptLen(extension), |media|)
  }

  /** The camera's side: the extension and the first encryptLen media bytes are encrypted, each from a fresh
      register. */
  function Seal(s: Session, p: Packet): Msg
    requires p.Media? && |p.extension| < 0x1_0000_0000
  {
    var n := SealedLen(s, p.extension, p.media);
    Msg(p.id, p.channel, s.streamMsgNum, p.code, p.cls, |p.extension|,
        AesCfb(s.cipher, s.key, p.extension, false) + AesCfb(s.cipher, s.key, p.media[..n], false) + p.media[n..])
  }

  predicate PacketOk(s: Session, p: Packet) {
    match p
    case Media(_, _, _, _, _, cls, extension, media) =>
      |extension| + |media| < 0x1_0000_0000 && (extension != [] ==> HasPayloadOffset(cls))
    case Other(_, _, m) => Sendable(m) && m.msgNum != s.streamMsgNum
  }

  function OnWire(s: Session, p: Packet): bytes
    requires PacketOk(s, p)
  {
    match p
    case Media(rev, streamType, _, _, _, _, _, _) => Serialized(rev, streamType, Seal(s, p))
    case Other(rev, streamType, m) => Serialized(rev, streamType, m)
  }

  predicate PacketsOk(s: Session, ps: seq<Packet>) {
    forall i | 0 <= i < |ps| :: PacketOk(s, ps[i])
  }

  function Connection(s: Session, ps: seq<Packet>): bytes
    requires PacketsOk(s, ps)
  {
    if ps == [] then [] else OnWire(s, ps[0]) + Connection(s, ps[1..])
  }

  /** The pieces of the media stream, in the order sent. */
  function Pieces(ps: seq<Packet>): seq<bytes> {
    if ps == [] then [] else (if ps[0].Media? then [ps[0].media] else []) + Pieces(ps[1..])
  }

  lemma LeftAndMid(a: bytes, b: bytes)
    ensures Left(a + b, |a|) == a && Mid(a + b, |a|) == b
  {
  }

  lemma LeftOfAll(a: bytes, n: nat)
    requires n >= |a|
    ensures Left(a, n) == a && Mid(a, n) == []
  {
  }

  lemma OpenedPayload(s: Session, p: Packet, n: nat)
    requires p.Media? && n <= |p.media|
    ensures AesCfb(s.cipher, s.key, AesCfb(s.cipher, s.key, p.media[..n], false), true) + p.media[n..] == p.media
  {
    hide AesCfb;
    AesCfbUndoes(s.cipher, s.key, p.media[..n], false);
  }

  /** The pump undoes what the camera did to a piece of media. */
  lemma SealedMediaIsRecovered(s: Session, p: Packet)
    requires p.Media? && PacketOk(s, p)
    ensures MediaOf(s, Seal(s, p)) == p.media
  {
    hide AesCfb, Left, Mid;
    var m, n := Seal(s, p), SealedLen(s, p.extension, p.media);
    var ext, head, rest := AesCfb(s.cipher, s.key, p.extension, false),
        AesCfb(s.cipher, s.key, p.media[..n], false), p.media[n..];
    Associate(ext, head, rest);
    LeftAndMid(ext, head + rest);
    AesCfbUndoes(s.cipher, s.key, p.extension, false);
    OpenedPayload(s, p, n);
    if EncLen(s, m) > 0 {
      if n < |p.media| { LeftAndMid(head, rest); } else {
        assert rest == [] && head + rest == head;
        LeftOfAll(head, EncLen(s, m));
      }
    }
  }

  lemma {:induction false} ConnectionDrains(s: Session, ps: seq<Packet>)
    requires PacketsOk(s, ps)
    ensures Drain(s, Connection(s, ps)) == (Pieces(ps), [])
    decreases |ps|
  {
    hide ParseMessage, MediaOf, Serialized;
    if ps != [] {
      ConnectionDrains(s, ps[1..]);
      var rest := Connection(s, ps[1..]);
      match ps[0]
      case Media(rev, streamType, _, _, _, _, _, _) =>
        SerializedParses(rev, streamType, Seal(s, ps[0]), rest);
        SealedMediaIsRecovered(s, ps[0]);
      case Other(rev, streamType, m) =>
        SerializedParses(rev, streamType, m, rest);
    }
  }

  lemma {:induction false} ParseEachSplits(p: Parser, a: seq<bytes>, b: seq<bytes>, audio: bool)
    ensures var (q, first) := ParseEach(p, a, audio);
            var (r, rest) := ParseEach(q, b, audio);
            ParseEach(p, a + b, audio) == (r, first + rest)
    decreases |a|
  {
    if a == [] {
      assert a + b == b;
      assert [] + ParseEach(p, b, audio).1 == ParseEach(p, b, audio).1;
    } else {
      assert (a + b)[0] == a[0] && (a + b)[1..] == a[1..] + b;
      var (q, first) := Parse(Fed(p, a[0]), audio);
      ParseEachSplits(q, a[1..], b, audio);
      var (r, mid) := ParseEach(q, a[1..], audio);
      Associate(first, mid, ParseEach(r, b, audio).1);
    }
  }
}
