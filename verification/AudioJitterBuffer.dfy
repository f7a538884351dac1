/** The jitter buffer as the program runs it: one byte buffer, a read offset, and compaction. */
module AudioJitterBufferObject {
  import opened Arithmetic
  import opened Bytes
  import opened JitterQueue

  const COMPACT_AT: nat := 256 * 1024

  class AudioJitterBuffer {
    var cfg: Config
    var prebuffer: nat
    var buf: bytes
    var pos: nat
    var playing: bool
    var started: bool
    var underruns: nat
    var droppedBytes: nat
    var silenceBytes: nat

    ghost predicate Valid()
      reads this
    {
      pos <= |buf| && ConfigOk(cfg)
    }

    ghost function View(): Queue
      requires Valid()
      reads this
    {
      Queue(cfg, prebuffer, buf[pos..], playing, started, underruns, droppedBytes, silenceBytes)
    }

    constructor (c: Config)
      requires ConfigOk(c)
      ensures Valid() && View() == Queue(c, c.prebufferBytes, [], false, false, 0, 0, 0)
    {
      cfg, prebuffer, buf, pos := c, c.prebufferBytes, [], 0;
      playing, started, underruns, droppedBytes, silenceBytes := false, false, 0, 0, 0;
    }

    method Write(data: bytes)
      requires Valid()
      modifies this
      ensures Valid()
      ensures View() == JitterQueue.Write(old(View()), data)
    {
      if |data| == 0 {
        return;
      }
      ghost var all := View().q + data;
      buf := buf + data;
      assert buf[pos..] == all;
      DropOldest();
      Compact();
    }

    /** Past the ceiling the oldest whole frames go, down to two thirds of it. */
    method DropOldest()
      requires Valid()
      modifies this`pos, this`droppedBytes
      ensures Valid()
      ensures var s := old(View());
              var drop := DropFor(cfg, |s.q|);
              View() == s.(q := s.q[drop..], droppedBytes := s.droppedBytes + drop)
    {
      ghost var q := buf[pos..];
      var avail := |buf| - pos;
      if avail > cfg.maxBytes {
        var drop := avail - cfg.maxBytes * 2 / 3;
        Whole(drop, cfg.frameBytes);
        drop := drop - drop % cfg.frameBytes;
        assert buf[pos + drop..] == q[drop..];
        pos := pos + drop;
        droppedBytes := droppedBytes + drop;
      } else {
        assert q[0..] == q;
      }
    }

    /** Bytes no longer needed are given up now and then; the queue does not notice. */
    method Compact()
      requires Valid()
      modifies this`buf, this`pos
      ensures Valid() && View() == old(View())
    {
      if pos > COMPACT_AT {
        buf := buf[pos..];
        pos := 0;
        assert buf[0..] == buf;
      }
    }

    /** All that the sound card asked for: queued audio, then silence. */
    method Read(len: nat) returns (dst: bytes)
      requires Valid()
      modifies this
      ensures Valid()
      ensures (View(), dst) == JitterQueue.Read(old(View()), len)
    {
      StartIfReady();
      dst := [];
      if playing {
        dst := TakeFront(len);
      }
      if |dst| < len {
        if started {
          silenceBytes := silenceBytes + (len - |dst|);
        }
        dst := dst + Silence(len - |dst|);
      }
      NoSilence(dst);
    }

    method StartIfReady()
      requires Valid()
      modifies this`playing, this`started
      ensures Valid()
      ensures var s := old(View());
              View() == s.(playing := Plays(s), started := s.started || Starts(s))
    {
      if !playing && |buf| - pos >= prebuffer && |buf| > pos {
        playing := true;
        started := true;
      }
    }

    /** Playing: what there is, up to len bytes; running dry stops playback and raises the head start. */
    method TakeFront(len: nat) returns (dst: bytes)
      requires Valid() && playing
      modifies this`pos, this`playing, this`underruns, this`prebuffer
      ensures Valid()
      ensures var s := old(View());
              var n := Min(len, |s.q|);
              && dst == s.q[..n]
              && View() == s.(q := s.q[n..], playing := n == len, underruns := s.underruns + if n < len then 1 else 0,
                              prebuffer := if n < len then Raised(s) else s.prebuffer)
    {
      ghost var q := buf[pos..];
      var n := Min(len, |buf| - pos);
      dst := buf[pos..pos + n];
      assert dst == q[..n] && buf[pos + n..] == q[n..];
      pos := pos + n;
      if n < len {
        playing := false;
        underruns := underruns + 1;
        prebuffer := Min(Max(prebuffer, cfg.maxPrebufferBytes), prebuffer + cfg.prebufferBytes / 2);
      }
    }

    /** Change the cushion sizes; queued audio stays. */
    method Configure(c: Config)
      requires Valid() && ConfigOk(c)
      modifies this
      ensures Valid()
      ensures View() == JitterQueue.Configure(old(View()), c)
    {
      cfg := c;
      prebuffer := c.prebufferBytes;
    }

    method Reset()
      requires Valid()
      modifies this
      ensures Valid() && View() == JitterQueue.Reset(old(View()))
    {
      buf := [];
      pos := 0;
      playing := false;
      started := false;
      underruns := 0;
      droppedBytes := 0;
      silenceBytes := 0;
    }
  }

  lemma NoSilence(dst: bytes)
    ensures dst + Silence(0) == dst
  {
  }

}
