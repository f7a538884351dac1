/**
The receiving loop turn by turn. A turn first carries out a seek if one is asked for, then takes one
message if a whole one is buffered and otherwise takes in what the socket has. Seeks may so fall
between any two messages, also between two that arrived together.
 */
module PumpTurns {
  import opened Sequences
  import opened Bytes
  import opened MediaStream
  import opened BcMessages

  datatype Pump = Pump(netBuf: bytes, parser: Parser)

  /** `chunk` is what the socket would hand over if the turn came to ask it; nothing if it times out. */
  datatype Step = AskSeek | Loop(chunk: bytes)

  function StepOf(s: Session, p: Pump, step: Step, audio: bool): (Pump, seq<Event>) {
    match step
    case AskSeek => (p.(parser := p.parser.(buf := [])), [])
    case Loop(chunk) =>
      match ParseMessage(p.netBuf)
      case Incomplete => (p.(netBuf := p.netBuf + chunk), [])
      case Message(m, rest) =>
        var (q, events) := ParseEach(p.parser, Deliver(s, m), audio);
        (Pump(rest, q), events)
  }

  function RunOf(s: Session, p: Pump, steps: seq<Step>, audio: bool): (Pump, seq<Event>)
    decreases |steps|
  {
    if steps == [] then (p, [])
    else
      var (q, first) := StepOf(s, p, steps[0], audio);
      var (r, rest) := RunOf(s, q, steps[1..], audio);
      (r, first + rest)
  }

  /** The bytes one step takes in from the socket, and the media of the message it takes. */
  function TakenIn(b: bytes, step: Step): bytes {
    if step.Loop? && ParseMessage(b).Incomplete? then step.chunk else []
  }

  function TakenOut(s: Session, b: bytes, step: Step): seq<bytes> {
    if step.Loop? && ParseMessage(b).Message? then Deliver(s, ParseMessage(b).m) else []
  }

  function BufAfter(b: bytes, step: Step): bytes {
    if step.AskSeek? then b else if ParseMessage(b).Message? then ParseMessage(b).rest else b + step.chunk
  }

  /** All bytes a run takes in, and all media it takes out. Seeks do not matter to either. */
  function Arrived(b: bytes, steps: seq<Step>): bytes
    decreases |steps|
  {
    if steps == [] then [] else TakenIn(b, steps[0]) + Arrived(BufAfter(b, steps[0]), steps[1..])
  }

  function Media(s: Session, b: bytes, steps: seq<Step>): seq<bytes>
    decreases |steps|
  {
    if steps == [] then [] else TakenOut(s, b, steps[0]) + Media(s, BufAfter(b, steps[0]), steps[1..])
  }

  function BufAt(b: bytes, steps: seq<Step>): bytes
    decreases |steps|
  {
    if steps == [] then b else BufAt(BufAfter(b, steps[0]), steps[1..])
  }

  lemma StepOnBuf(s: Session, p: Pump, step: Step, audio: bool)
    ensures StepOf(s, p, step, audio).0.netBuf == BufAfter(p.netBuf, step)
    ensures !step.AskSeek? ==>
              var (q, events) := StepOf(s, p, step, audio);
              (q.parser, events) == ParseEach(p.parser, TakenOut(s, p.netBuf, step), audio)
  {
    hide ParseMessage, Deliver;
  }

  lemma {:induction false} RunOnBuf(s: Session, p: Pump, steps: seq<Step>, audio: bool)
    ensures RunOf(s, p, steps, audio).0.netBuf == BufAt(p.netBuf, steps)
    decreases |steps|
  {
    hide StepOf, BufAfter;
    if steps != [] {
      StepOnBuf(s, p, steps[0], audio);
      RunOnBuf(s, StepOf(s, p, steps[0], audio).0, steps[1..], audio);
    }
  }

  // ---- messages survive seeks ----

  lemma OneStepLosesNothing(s: Session, b: bytes, step: Step, more: bytes)
    ensures Drain(s, b + (TakenIn(b, step) + more))
         == (TakenOut(s, b, step) + Drain(s, BufAfter(b, step) + more).0, Drain(s, BufAfter(b, step) + more).1)
  {
    hide ParseMessage, Deliver, Drain;
    var rest := Drain(s, BufAfter(b, step) + more).0;
    if step.Loop? && ParseMessage(b).Message? {
      assert [] + more == more;
      ParsedUnchangedByMore(b, more);
      DrainOfMessage(s, b + more);
    } else {
      assert b + (TakenIn(b, step) + more) == BufAfter(b, step) + more && [] + rest == rest;
    }
  }

  lemma {:induction false} NothingIsLost(s: Session, b: bytes, steps: seq<Step>)
    ensures var (media, left) := Drain(s, b + Arrived(b, steps));
            Media(s, b, steps) + Drain(s, BufAt(b, steps)).0 == media && Drain(s, BufAt(b, steps)).1 == left
    decreases |steps|
  {
    hide TakenIn, TakenOut, BufAfter, Drain;
    if steps == [] {
      assert b + [] == b && [] + Drain(s, b).0 == Drain(s, b).0;
    } else {
      var b' := BufAfter(b, steps[0]);
      OneStepLosesNothing(s, b, steps[0], Arrived(b', steps[1..]));
      NothingIsLost(s, b', steps[1..]);
      Associate(TakenOut(s, b, steps[0]), Media(s, b', steps[1..]), Drain(s, BufAt(b, steps)).0);
    }
  }

  /** Whatever seeks fall between them, the messages taken and those still in the buffer are those of all the bytes
      that came in: a seek loses no message and tears none. */
  lemma MessagesSurviveSeeks(s: Session, p: Pump, steps: seq<Step>, audio: bool)
    ensures var (media, left) := Drain(s, p.netBuf + Arrived(p.netBuf, steps));
            var b := RunOf(s, p, steps, audio).0.netBuf;
            Media(s, p.netBuf, steps) + Drain(s, b).0 == media && Drain(s, b).1 == left
  {
    hide RunOf, Drain, Media, Arrived, BufAt;
    RunOnBuf(s, p, steps, audio);
    NothingIsLost(s, p.netBuf, steps);
  }

  // ---- what comes out between two seeks ----

  /** Without a seek, what a run reports is the parse of the media it takes. */
  lemma {:induction false} TurnsParseWhatTheyTake(s: Session, p: Pump, steps: seq<Step>, audio: bool)
    requires AskSeek !in steps
    ensures var (q, events) := RunOf(s, p, steps, audio);
            (q.parser, events) == ParseEach(p.parser, Media(s, p.netBuf, steps), audio)
    decreases |steps|
  {
    hide StepOf, TakenOut, BufAfter;
    if steps != [] {
      var step, later := steps[0], steps[1..];
      assert step in steps && forall k | 0 <= k < |later| :: later[k] in steps;
      StepOnBuf(s, p, step, audio);
      var q := StepOf(s, p, step, audio).0;
      TurnsParseWhatTheyTake(s, q, later, audio);
      ParseEachSplits(p.parser, TakenOut(s, p.netBuf, step), Media(s, q.netBuf, later), audio);
    }
  }

  /** After a seek the parser starts afresh: what is reported from then on is the parse of the media taken since,
      with nothing left of the frame that was coming in before. */
  lemma SeekStartsAfresh(s: Session, p: Pump, steps: seq<Step>, audio: bool)
    requires AskSeek !in steps
    ensures var (q, events) := RunOf(s, p, [AskSeek] + steps, audio);
            (q.parser, events) == Parse(p.parser.(buf := Flatten(Media(s, p.netBuf, steps))), audio)
  {
    hide Media, ParseEach, Parse;
    var all, q := [AskSeek] + steps, p.(parser := p.parser.(buf := []));
    assert all[0] == AskSeek && all[1..] == steps;
    TurnsParseWhatTheyTake(s, q, steps, audio);
    assert [] + RunOf(s, q, steps, audio).1 == RunOf(s, q, steps, audio).1;
    AnyCutParsesAlike(q.parser, Media(s, p.netBuf, steps), audio);
    assert [] + Flatten(Media(s, p.netBuf, steps)) == Flatten(Media(s, p.netBuf, steps));
  }

  /** So if the media taken since a seek are well-formed frames, behind the rest of an old one in which no frame seems
      to start, exactly those frames are reported. */
  lemma FramesSurviveASeek(s: Session, p: Pump, steps: seq<Step>, items: seq<Item>, audio: bool)
    requires AskSeek !in steps && AllClean(items) && Flatten(Media(s, p.netBuf, steps)) == Wire(items)
    ensures RunOf(s, p, [AskSeek] + steps, audio).1 == Meanings(items, audio)
  {
    hide RunOf, Media, Parse, AllClean, Wire, Meanings;
    var q := p.parser.(buf := []);
    SeekStartsAfresh(s, p, steps, audio);
    WellFormedStreamIsRecovered(q, items, audio);
    assert [] + Wire(items) == Wire(items);
  }

  // ---- end to end ----

  /** Whatever way TCP delivers a connection of whole messages, behind the tail the login left, and whatever seeks fall
      between: once no whole message is buffered, the media taken are all pieces sent, in order, and nothing is left. */
  lemma MediaSurvivesTheNetwork(s: Session, ps: seq<Packet>, tail: bytes, steps: seq<Step>)
    requires PacketsOk(s, ps) && tail + Arrived(tail, steps) == Connection(s, ps) && Drained(BufAt(tail, steps))
    ensures Media(s, tail, steps) == Pieces(ps)
    ensures BufAt(tail, steps) == []
  {
    hide Arrived, Media, BufAt, Connection, Pieces, PacketsOk, ParseMessage;
    NothingIsLost(s, tail, steps);
    ConnectionDrains(s, ps);
    assert Media(s, tail, steps) + [] == Media(s, tail, steps);
  }

  /** So a stream of well-formed frames, cut into messages anywhere, encrypted, interleaved with other messages and
      delivered in any chunks, comes out of the loop as exactly those frames. */
  lemma FramesSurviveEndToEnd(
      s: Session, ps: seq<Packet>, tail: bytes, steps: seq<Step>, items: seq<Item>, audio: bool)
    requires PacketsOk(s, ps) && tail + Arrived(tail, steps) == Connection(s, ps) && Drained(BufAt(tail, steps))
    requires AskSeek !in steps && AllClean(items) && Flatten(Pieces(ps)) == Wire(items)
    ensures RunOf(s, Pump(tail, FRESH), steps, audio) == (Pump([], SizedBy(FRESH, items)), Meanings(items, audio))
  {
    hide RunOf, Arrived, Media, BufAt, Connection, Pieces, PacketsOk, Drained, ParseEach, Parse, AllClean, Wire,
        Meanings;
    var p := Pump(tail, FRESH);
    MediaSurvivesTheNetwork(s, ps, tail, steps);
    RunOnBuf(s, p, steps, audio);
    TurnsParseWhatTheyTake(s, p, steps, audio);
    AnyCutParsesAlike(FRESH, Pieces(ps), audio);
    WellFormedStreamIsRecovered(FRESH, items, audio);
  }
}
