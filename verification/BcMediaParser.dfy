/**
The parser as the program runs it: a rolling buffer that append consumes in a loop. What the
callbacks receive is returned as a list; a ghost record of everything fed since the last reset
ties the object's whole life to one parse of the whole stream.
 */
module BcMediaParserObject {
  import opened Sequences
  import opened Bytes
  import opened MediaStream

  function VideoCount(events: seq<Event>): nat {
    if events == [] then 0 else (if events[0].Video? then 1 else 0) + VideoCount(events[1..])
  }

  lemma {:induction false} VideoCountSplits(a: seq<Event>, b: seq<Event>)
    ensures VideoCount(a + b) == VideoCount(a) + VideoCount(b)
  {
    if a == [] {
      assert a + b == b;
    } else {
      assert (a + b)[0] == a[0] && (a + b)[1..] == a[1..] + b;
      VideoCountSplits(a[1..], b);
    }
  }

  class BcMediaParser {
    const onAudio: bool // someone listens for sound
    var buf: bytes
    var width: int
    var height: int
    ghost var origin: Parser // the state at the last reset
    ghost var fed: bytes     // everything appended since
    ghost var told: seq<Event> // everything reported since

    ghost function View(): Parser
      reads this
    {
      Parser(buf, width, height)
    }

    ghost predicate Valid()
      reads this
    {
      origin.buf == [] && Parse(Fed(origin, fed), onAudio) == (View(), told)
    }

    constructor (onAudio: bool)
      ensures Valid() && this.onAudio == onAudio
      ensures View() == Parser([], 0, 0)
      ensures origin == FRESH && fed == [] && told == []
    {
      this.onAudio := onAudio;
      buf, width, height := [], 0, 0;
      origin, fed, told := FRESH, [], [];
    }

    method Reset()
      modifies this
      ensures Valid() && View() == old(View()).(buf := [])
      ensures origin == View()
      ensures fed == [] && told == []
    {
      buf := [];
      origin, fed, told := View(), [], [];
    }

    /** Whatever the earlier cuts were, all that was ever reported is what the whole stream means. */
    method Append(mediaBytes: bytes) returns (emitted: nat, events: seq<Event>)
      requires Valid()
      modifies this
      ensures Valid() && origin == old(origin)
      ensures fed == old(fed) + mediaBytes
      ensures told == old(told) + events
      ensures (View(), events) == Parse(Fed(old(View()), mediaBytes), onAudio)
      ensures emitted == VideoCount(events)
    {
      ParseIsSegmentationIndependent(Fed(origin, fed), mediaBytes, onAudio);
      assert Fed(Fed(origin, fed), mediaBytes) == Fed(origin, fed + mediaBytes);
      buf := buf + mediaBytes;
      emitted, events := Drain();
      fed, told := fed + mediaBytes, told + events;
    }

    method Drain() returns (emitted: nat, events: seq<Event>)
      modifies this`buf, this`width, this`height
      ensures (View(), events) == Parse(old(View()), onAudio)
      ensures emitted == VideoCount(events)
    {
      ghost var goal := Parse(View(), onAudio);
      emitted, events := 0, [];
      var more := true;
      assert [] + goal.1 == goal.1;
      while more
        invariant if more then Parse(View(), onAudio).0 == goal.0 && events + Parse(View(), onAudio).1 == goal.1
                  else View() == goal.0 && events == goal.1
        invariant emitted == VideoCount(events)
        decreases more, |buf|
      {
        var front: seq<Event>;
        more, front := TakeFront();
        VideoCountSplits(events, front);
        Associate(events, front, Parse(View(), onAudio).1);
        events, emitted := events + front, emitted + VideoCount(front);
      }
    }

    /** One turn of the loop: take one frame, or skip to where one may start, or stop. */
    method TakeFront() returns (more: bool, events: seq<Event>)
      modifies this`buf, this`width, this`height
      ensures more ==> |buf| < |old(buf)|
      ensures Parse(old(View()), onAudio)
           == if more then (Parse(View(), onAudio).0, events + Parse(View(), onAudio).1) else (View(), events)
    {
      events := [];
      if |buf| < 4 {
        more := false;
      } else if IsInfo(buf, 0) {
        more := TakeInfo();
        if more { assert [] + Parse(View(), onAudio).1 == Parse(View(), onAudio).1; }
      } else if IsVideo(buf, 0) {
        more, events := TakeVideo();
      } else if IsAudio(buf, 0) {
        more, events := TakeAudio();
      } else {
        var next := FindMagic();
        if next < 0 {
          if |buf| > 3 {
            buf := buf[|buf| - 3..];
          }
          more := false;
        } else {
          buf := buf[next..];
          more := true;
          assert [] + Parse(View(), onAudio).1 == Parse(View(), onAudio).1;
        }
      }
    }

    method TakeInfo() returns (more: bool)
      requires |buf| >= 4 && IsInfo(buf, 0)
      modifies this`buf, this`width, this`height
      ensures more == old(Complete(buf))
      ensures if more then View() == old(Past(View())) else View() == old(View())
    {
      if |buf| < 32 {
        return false;
      }
      width := AsInt(GetLE32(buf, 8));
      height := AsInt(GetLE32(buf, 12));
      buf := buf[32..];
      more := true;
    }

    method TakeVideo() returns (more: bool, events: seq<Event>)
      requires |buf| >= 4 && IsVideo(buf, 0)
      modifies this`buf
      ensures more == old(Complete(buf))
      ensures if more then View() == old(Past(View())) && events == old(EventsOf(buf, onAudio))
              else View() == old(View()) && events == []
    {
      if |buf| < 24 {
        return false, [];
      }
      var keyFrame := buf[1] == 0x30;
      var payloadSize, addHdr, micros := GetLE32(buf, 8), GetLE32(buf, 12), GetLE32(buf, 16);
      var dataStart: nat := 24 + addHdr as int;
      var total: nat := dataStart + payloadSize as int + PadFor(payloadSize);
      if |buf| < total {
        return false, [];
      }
      var time := if addHdr >= 4 then GetLE32(buf, 24) else 0;
      var codec := Unknown;
      if buf[4] == 0x48 && buf[5] == 0x32 && buf[6] == 0x36 {
        codec := if buf[7] == 0x35 then H265 else H264;
      }
      events := [Video(keyFrame, codec, micros, time, buf[dataStart..dataStart + payloadSize])];
      buf := buf[total..];
      more := true;
    }

    method TakeAudio() returns (more: bool, events: seq<Event>)
      requires |buf| >= 4 && IsAudio(buf, 0)
      modifies this`buf
      ensures more == old(Complete(buf))
      ensures if more then View() == old(Past(View())) && events == old(EventsOf(buf, onAudio))
              else View() == old(View()) && events == []
    {
      if |buf| < 8 {
        return false, [];
      }
      var size := GetLE16(buf, 4);
      var total: nat := 8 + size as int + PadFor(size);
      if |buf| < total {
        return false, [];
      }
      events := if buf[1] == 0x35 && onAudio && size > 0 then [Audio(buf[8..8 + size])] else [];
      buf := buf[total..];
      more := true;
    }

    method FindMagic() returns (next: int)
      ensures next == NextMagic(buf, 1)
    {
      var i := 1;
      while i + 4 <= |buf|
        invariant NextMagic(buf, i) == NextMagic(buf, 1)
      {
        if AnyMagic(buf, i) {
          return i;
        }
        i := i + 1;
      }
      return -1;
    }
  }
}
