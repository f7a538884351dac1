/**
Receiving loop, picture gate and ring together: what the decoder reads after a seek, said of the
frames the camera sends from the new position.
 */
module SeekToPicture {
  import opened Arithmetic
  import opened Bytes
  import opened MediaStream
  import BcMessages
  import opened PumpTurns
  import opened PictureGate
  import FrameRing

  /** What the loop pushes into the ring: the elementary stream of each frame that passes the gate. */
  function Pictures(out: seq<Output>): seq<bytes> {
    if out == [] then [] else (if out[0].ToDecoder? then [out[0].annexB] else []) + Pictures(out[1..])
  }

  function StreamOf(w: WireFrame): bytes { if w.VideoFrame? then w.annexB else [] }

  /** The elementary streams of the video frames the camera sent. */
  function Elementary(items: seq<Item>): bytes {
    if items == [] then [] else StreamOf(items[0].frame) + Elementary(items[1..])
  }

  /** A key frame at the requested place: stamped within 120 s of it, or not stamped. No place is requested by 0. */
  predicate IsKeyFrameAt(target: int, w: WireFrame) {
    w.VideoFrame? && w.keyFrame
    && (target <= 0 || |w.extra| < 4 || GetLE32(w.extra, 0) == 0 || Abs(GetLE32(w.extra, 0) - target) <= 120)
  }

  /** The elementary streams from the first such key frame on. */
  function FromKeyFrame(target: int, items: seq<Item>): bytes {
    if items == [] then []
    else if IsKeyFrameAt(target, items[0].frame) then Elementary(items)
    else FromKeyFrame(target, items[1..])
  }

  lemma PicturesSplit(out: seq<Output>, more: seq<Output>)
    requires |out| <= 1
    ensures Flatten(Pictures(out + more)) == Flatten(Pictures(out)) + Flatten(Pictures(more))
  {
    if out == [] {
      assert out + more == more && [] + Flatten(Pictures(more)) == Flatten(Pictures(more));
    } else {
      assert (out + more)[1..] == more && out[1..] == [];
      if out[0].ToDecoder? {
        assert ([out[0].annexB] + Pictures(more))[1..] == Pictures(more) && ([out[0].annexB] + [])[1..] == [];
        assert Pictures(out) == [out[0].annexB] + [];
        assert Flatten(Pictures(out)) == out[0].annexB + [] == out[0].annexB;
      } else {
        assert [] + Pictures(more) == Pictures(more) && [] + Flatten(Pictures(more)) == Flatten(Pictures(more));
      }
    }
  }

  lemma OneEvent(g: Gate, e: Event, later: seq<Event>, hold: bool)
    ensures var (q, out) := Pass(g, e, hold);
            Flatten(Pictures(PassAll(g, [e] + later, hold)))
              == Flatten(Pictures(out)) + Flatten(Pictures(PassAll(q, later, hold)))
  {
    hide Opens, Pictures, Flatten;
    var (q, out) := Pass(g, e, hold);
    assert ([e] + later)[0] == e && ([e] + later)[1..] == later;
    PicturesSplit(out, PassAll(q, later, hold));
  }

  function Opened(g: Gate, w: WireFrame): Gate {
    if !g.started && IsKeyFrameAt(g.seekTarget, w) then Gate(true, 0) else g
  }

  /** The gate on the one event of a frame. */
  lemma GateOnFrame(g: Gate, w: WireFrame, e: Event, audio: bool, hold: bool)
    requires WellFormed(w) && Meaning(w, audio) == [e]
    ensures Pass(g, e, hold).0 == Opened(g, w)
    ensures Flatten(Pictures(Pass(g, e, hold).1)) == if Opened(g, w).started then StreamOf(w) else []
  {
    hide GetLE32, PadFor;
    var out := Pass(g, e, hold).1;
    if out != [] && out[0].ToDecoder? {
      assert out == [ToDecoder(StreamOf(w))] && out[1..] == [];
      assert [StreamOf(w)] + [] == [StreamOf(w)] && [StreamOf(w)][1..] == [] && StreamOf(w) + [] == StreamOf(w);
    }
  }

  lemma OneFrame(g: Gate, w: WireFrame, later: seq<Event>, audio: bool, hold: bool)
    requires WellFormed(w)
    ensures Flatten(Pictures(PassAll(g, Meaning(w, audio) + later, hold)))
         == (if Opened(g, w).started then StreamOf(w) else [])
            + Flatten(Pictures(PassAll(Opened(g, w), later, hold)))
  {
    hide WellFormed, Pass, PassAll, Pictures, Flatten;
    var now, rest := Meaning(w, audio), Flatten(Pictures(PassAll(g, later, hold)));
    if now == [] {
      assert now + later == later && [] + rest == rest;
    } else {
      OneEvent(g, now[0], later, hold);
      GateOnFrame(g, w, now[0], audio, hold);
    }
  }

  /** What passes the gate of the frames sent is the stream from the first key frame at the requested place on. */
  lemma {:induction false} PicturesStartAtTheKeyFrame(g: Gate, items: seq<Item>, audio: bool, hold: bool)
    requires AllClean(items)
    ensures Flatten(Pictures(PassAll(g, Meanings(items, audio), hold)))
         == if g.started then Elementary(items) else FromKeyFrame(g.seekTarget, items)
    decreases |items|
  {
    if items == [] {
    } else {
      hide WellFormed, Meaning, PassAll, Pictures, Flatten, IsKeyFrameAt, StreamOf;
      OneFrame(g, items[0].frame, Meanings(items[1..], audio), audio, hold);
      PicturesStartAtTheKeyFrame(Opened(g, items[0].frame), items[1..], audio, hold);
      if !Opened(g, items[0].frame).started {
        assert [] + FromKeyFrame(g.seekTarget, items[1..]) == FromKeyFrame(g.seekTarget, items[1..]);
      }
    }
  }

  lemma {:induction false} FlattenOfPrefix(a: seq<bytes>, b: seq<bytes>)
    requires a <= b
    ensures Flatten(a) <= Flatten(b)
  {
    if a != [] { FlattenOfPrefix(a[1..], b[1..]); }
  }

  /** After a seek, whatever the reader and stop() do in between: what is read is a front part of the elementary streams
      from the first key frame at the new position on, with nothing of the old one; and once all of it has been pushed
      and stop() was not called, what is not read yet is queued. */
  lemma SeekShowsTheNewPosition(
      s: BcMessages.Session, p: Pump, turns: seq<Step>, items: seq<Item>, audio: bool, target: int, hold: bool,
      l: FrameRing.Limits, r: FrameRing.Ring, moves: seq<FrameRing.Step>)
    requires AskSeek !in turns && AllClean(items) && Flatten(Media(s, p.netBuf, turns)) == Wire(items)
    requires FrameRing.Inv(l, r) && FrameRing.Enabled(l, r, FrameRing.ClearSection)
    requires FrameRing.ClearSection !in moves
    requires FrameRing.Runs(l, FrameRing.Next(l, r, FrameRing.ClearSection), moves)
    requires var out := PassAll(Gate(false, target), RunOf(s, p, [AskSeek] + turns, audio).1, hold);
             FrameRing.Offers(moves) <= Pictures(out)
    ensures var out := PassAll(Gate(false, target), RunOf(s, p, [AskSeek] + turns, audio).1, hold);
            var n, sent := FrameRing.After(l, FrameRing.Next(l, r, FrameRing.ClearSection), moves),
                FromKeyFrame(target, items);
            && n.taken <= sent
            && (FrameRing.Offers(moves) == Pictures(out) && n.producer == FrameRing.Idle && !n.abort ==>
                  n.taken + n.data == sent)
  {
    hide RunOf, Media, PassAll, Pictures, FromKeyFrame, Flatten, AllClean, Wire, Meanings;
    hide FrameRing.Runs, FrameRing.After, FrameRing.Offers;
    var cleared := FrameRing.Next(l, r, FrameRing.ClearSection);
    FramesSurviveASeek(s, p, turns, items, audio);
    PicturesStartAtTheKeyFrame(Gate(false, target), items, audio, hold);
    FrameRing.NextKeepsInv(l, r, FrameRing.ClearSection);
    FrameRing.PushesArriveInOrder(l, cleared, moves);
    FrameRing.InvHoldsThroughout(l, cleared, moves);
    FlattenOfPrefix(FrameRing.Offers(moves), Pictures(PassAll(Gate(false, target), Meanings(items, audio), hold)));
    assert FrameRing.Pushed(cleared) == [] && [] + Flatten(FrameRing.Offers(moves)) == Flatten(FrameRing.Offers(moves));
  }
}
