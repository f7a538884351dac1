/**
The receiving half of the media loop as the program runs it: a receive buffer consumed message by
message, each media piece handed to one parser, and the gate that holds the picture back until a
key frame.
 */
module MediaPumpObject {
  import opened Bytes
  import opened BcCrypto
  import opened MediaStream
  import opened BcMessages
  import opened BcMediaParserObject
  import opened PumpTurns

  class MediaPump {
    const s: Session
    const parser: BcMediaParser
    var netBuf: bytes

    constructor (s: Session, onAudio: bool, tail: bytes)
      ensures this.s == s && netBuf == tail && fresh(parser)
      ensures parser.Valid() && parser.View() == Parser([], 0, 0)
      ensures parser.onAudio == onAudio
    {
      this.s, netBuf := s, tail;
      parser := new BcMediaParser(onAudio);
    }

    ghost function View(): Pump
      reads this, parser
    {
      Pump(netBuf, parser.View())
    }

    /** One turn of the loop: a seek if one is asked for, then one message, or what the socket has if there is none. */
    method Turn(seek: bool, chunk: bytes) returns (events: seq<Event>)
      requires parser.Valid()
      modifies this, parser
      ensures parser.Valid()
      ensures var p := if seek then StepOf(s, old(View()), AskSeek, parser.onAudio).0 else old(View());
              (View(), events) == StepOf(s, p, Loop(chunk), parser.onAudio)
    {
      if seek {
        Seek();
      }
      var ok, m := TakeMessage();
      if ok {
        events := Handle(m);
      } else {
        netBuf, events := netBuf + chunk, [];
      }
    }

    /** Pull one complete message from the buffer, consuming it; false if there is none. */
    method TakeMessage() returns (ok: bool, m: Msg)
      modifies this`netBuf
      ensures ok == old(ParseMessage(netBuf)).Message?
      ensures if ok then old(ParseMessage(netBuf)) == Message(m, netBuf) else netBuf == old(netBuf)
    {
      m := Msg(0, 0, 0, 0, 0, 0, []);
      if |netBuf| < 20 {
        return false, m;
      }
      var magic := GetLE32(netBuf, 0);
      if magic != MAGIC && magic != MAGIC_REV {
        return false, m;
      }
      var bodyLen: nat, cls := GetLE32(netBuf, 8), GetLE16(netBuf, 18);
      var headerLen: nat := if HasPayloadOffset(cls) then 24 else 20;
      if |netBuf| < headerLen + bodyLen {
        return false, m;
      }
      m := Msg(GetLE32(netBuf, 4), netBuf[12], GetLE16(netBuf, 14), GetLE16(netBuf, 16), cls,
               if HasPayloadOffset(cls) then GetLE32(netBuf, 20) else 0, netBuf[headerLen..headerLen + bodyLen]);
      netBuf := netBuf[headerLen + bodyLen..];
      ok := true;
    }

    /** Decrypt what the extension says is encrypted; the rest of the payload is plain. */
    method OpenPayload(m: Msg) returns (media: bytes)
      ensures media == MediaOf(s, m)
    {
      var encLen := 0;
      if m.payloadOffset > 0 {
        var ext := AesCfbLoop(s.cipher, s.key, Left(m.body, m.payloadOffset), true);
        encLen := s.encryptLen(ext);
      }
      var payload := Mid(m.body, m.payloadOffset);
      if encLen > 0 {
        var head := AesCfbLoop(s.cipher, s.key, Left(payload, encLen), true);
        media := head + Mid(payload, encLen);
      } else {
        media := payload;
      }
    }

    method Handle(m: Msg) returns (events: seq<Event>)
      requires parser.Valid()
      modifies parser
      ensures parser.Valid()
      ensures (parser.View(), events) == ParseEach(old(parser.View()), Deliver(s, m), parser.onAudio)
    {
      if m.msgNum != s.streamMsgNum {
        return [];
      }
      var media := OpenPayload(m);
      var emitted;
      OnePiece(parser.View(), media, parser.onAudio);
      emitted, events := parser.Append(media);
    }

    /** An in-place seek drops the partial media frame; the message framing goes on. */
    method Seek()
      modifies parser
      ensures parser.Valid()
      ensures parser.View() == old(parser.View()).(buf := [])
      ensures netBuf == old(netBuf)
    {
      parser.Reset();
    }
  }

  lemma OnePiece(p: Parser, media: bytes, audio: bool)
    ensures ParseEach(p, [media], audio) == Parse(Fed(p, media), audio)
  {
    var (q, first) := Parse(Fed(p, media), audio);
    assert ParseEach(q, [], audio) == (q, []);
    assert first + [] == first;
  }
}

/** Which frames reach the decoder and which sound reaches the speaker after a start or a seek. */
module PictureGate {
  import opened Arithmetic
  import opened Sequences
  import opened Bytes
  import opened MediaStream

  datatype Gate = Gate(started: bool, seekTarget: int)

  datatype Output = ToDecoder(annexB: bytes) | ToSpeaker(adts: bytes)

  /** A frame the picture may open on: a key frame and, on a seek, one stamped near the target or not stamped. */
  predicate Opens(seekTarget: int, e: Event) {
    && e.Video? && e.keyFrame
    && !(seekTarget > 0 && e.time != 0 && Abs(e.time - seekTarget) > 120)
  }

  function Pass(g: Gate, e: Event, holdAudio: bool): (Gate, seq<Output>) {
    match e
    case Audio(adts) => (g, if !holdAudio || g.started then [ToSpeaker(adts)] else [])
    case Video(_, _, _, _, annexB) =>
      if g.started then (g, [ToDecoder(annexB)])
      else if !Opens(g.seekTarget, e) then (g, [])
      else (Gate(true, 0), [ToDecoder(annexB)])
  }

  function PassAll(g: Gate, events: seq<Event>, holdAudio: bool): seq<Output>
    decreases |events|
  {
    if events == [] then []
    else Pass(g, events[0], holdAudio).1 + PassAll(Pass(g, events[0], holdAudio).0, events[1..], holdAudio)
  }

  function Everything(events: seq<Event>): (out: seq<Output>)
    ensures |out| == |events|
    ensures forall i | 0 <= i < |events| ::
      out[i] == if events[i].Video? then ToDecoder(events[i].annexB) else ToSpeaker(events[i].adts)
  {
    seq(|events|, i requires 0 <= i < |events| =>
      if events[i].Video? then ToDecoder(events[i].annexB) else ToSpeaker(events[i].adts))
  }

  lemma {:induction false} OpenGatePassesEverything(g: Gate, events: seq<Event>, holdAudio: bool)
    requires g.started
    ensures PassAll(g, events, holdAudio) == Everything(events)
    decreases |events|
  {
    if events != [] {
      OpenGatePassesEverything(g, events[1..], holdAudio);
      EverythingSplits(events);
    }
  }

  lemma EverythingSplits(events: seq<Event>)
    requires events != []
    ensures Everything(events) == Everything([events[0]]) + Everything(events[1..])
  {
  }

  lemma ClosedGatePassesOnlySound(g: Gate, e: Event, holdAudio: bool)
    requires !g.started && !Opens(g.seekTarget, e)
    ensures Pass(g, e, holdAudio) == (g, if holdAudio then [] else SoundOf(e))
  {
  }

  lemma ClosedGateStep(g: Gate, events: seq<Event>, holdAudio: bool)
    requires !g.started && events != [] && !Opens(g.seekTarget, events[0])
    ensures PassAll(g, events, holdAudio)
         == (if holdAudio then [] else SoundOf(events[0])) + PassAll(g, events[1..], holdAudio)
  {
    hide Opens, Pass, SoundOf;
    ClosedGatePassesOnlySound(g, events[0], holdAudio);
  }

  function SoundOf(e: Event): seq<Output> {
    if e.Audio? then [ToSpeaker(e.adts)] else []
  }

  /** The sound among the events. */
  function Sounds(events: seq<Event>): seq<Output> {
    if events == [] then []
    else SoundOf(events[0]) + Sounds(events[1..])
  }

  lemma SoundsUpTo(events: seq<Event>, k: nat)
    requires 0 < k <= |events|
    ensures Sounds(events[..k]) == SoundOf(events[0]) + Sounds(events[1..][..k - 1])
  {
    assert events[..k][0] == events[0] && events[..k][1..] == events[1..][..k - 1];
  }

  lemma PictureOpensHere(g: Gate, events: seq<Event>, holdAudio: bool)
    requires !g.started && (events != [] ==> Opens(g.seekTarget, events[0]))
    ensures PassAll(g, events, holdAudio) == Everything(events)
  {
    if events != [] {
      OpenGatePassesEverything(Gate(true, 0), events[1..], holdAudio);
      EverythingSplits(events);
    }
  }

  lemma NoSounds()
    ensures Sounds([]) == []
  {
  }

  /** What holds from the second event on holds from the first, if the picture does not open on it. */
  lemma StillClosed(g: Gate, events: seq<Event>, k: nat, holdAudio: bool)
    requires !g.started && 0 < k <= |events| && !Opens(g.seekTarget, events[0])
    requires PassAll(g, events[1..], holdAudio)
          == (if holdAudio then [] else Sounds(events[1..][..k - 1])) + Everything(events[1..][k - 1..])
    ensures PassAll(g, events, holdAudio) == (if holdAudio then [] else Sounds(events[..k])) + Everything(events[k..])
  {
    hide Opens, Everything, Pass, PassAll, SoundOf, Sounds;
    ClosedGateStep(g, events, holdAudio);
    SoundsUpTo(events, k);
    assert events[1..][k - 1..] == events[k..];
    var rest, later := Everything(events[k..]), Sounds(events[1..][..k - 1]);
    if holdAudio {
      assert [] + ([] + rest) == [] + rest;
    } else {
      Associate(SoundOf(events[0]), later, rest);
    }
  }

  /** Before the first frame the picture may open on, nothing comes out but sound, and that only if it is not held
      back; from there on everything does. */
  lemma {:induction false} PictureOpensOnTheFirstGoodFrame(g: Gate, events: seq<Event>, k: nat, holdAudio: bool)
    requires !g.started && k <= |events|
    requires forall i | 0 <= i < k :: !Opens(g.seekTarget, events[i])
    requires k < |events| ==> Opens(g.seekTarget, events[k])
    ensures PassAll(g, events, holdAudio) == (if holdAudio then [] else Sounds(events[..k])) + Everything(events[k..])
    decreases |events|
  {
    hide Opens, Everything, Pass, PassAll, SoundOf, Sounds;
    if k > 0 {
      assert forall i | 0 <= i < k - 1 :: events[1..][i] == events[i + 1];
      PictureOpensOnTheFirstGoodFrame(g, events[1..], k - 1, holdAudio);
      StillClosed(g, events, k, holdAudio);
    } else {
      assert events[0..] == events && events[..0] == [];
      NoSounds();
      PictureOpensHere(g, events, holdAudio);
      assert [] + Everything(events) == Everything(events);
    }
  }
}
