/** The playout queue as the program runs it: a deque and an anchor that push and poll update in place. */
module VideoPlayoutQueueObject {
  import opened Wrappers
  import opened PlayoutClock

  class VideoPlayoutQueue<F> {
    var cfg: Config
    var q: seq<Entry<F>>
    var bytes: int
    var anchored: bool
    var ptsAnchor: int
    var wallAnchor: int
    var lastPts: int
    var stats: Stats

    ghost function View(): Playout<F>
      reads this
    {
      Playout(cfg, q, bytes, anchored, ptsAnchor, wallAnchor, lastPts, stats)
    }

    constructor (cfg: Config)
      ensures View() == Playout(cfg, [], 0, false, 0, 0, 0, Stats(0, 0, 0, 0))
    {
      this.cfg, q, bytes, anchored := cfg, [], 0, false;
      ptsAnchor, wallAnchor, lastPts, stats := 0, 0, 0, Stats(0, 0, 0, 0);
    }

    method SetConfig(config: Config)
      modifies this
      ensures View() == old(View()).(cfg := config)
    {
      cfg := config;
    }

    method Anchor(pts: int, now: int)
      modifies this`ptsAnchor, this`wallAnchor, this`anchored
      ensures View() == Anchored(old(View()), pts, now)
    {
      ptsAnchor := pts;
      wallAnchor := now + cfg.delayUs;
      anchored := true;
    }

    method StartOver(pts: int, now: int)
      modifies this
      ensures View() == StartedOver(old(View()), pts, now)
    {
      q := [];
      bytes := 0;
      Anchor(pts, now);
      stats := stats.(reanchors := stats.reanchors + 1);
    }

    method Push(frame: F, pts: int, now: int, size: nat)
      modifies this
      ensures View() == PlayoutClock.Push(old(View()), Entry(frame, pts, size), now)
    {
      hide Trimmed;
      if !anchored {
        Anchor(pts, now);
      } else {
        var jumped := pts < lastPts || pts - lastPts > cfg.jumpUs;
        if jumped {
          StartOver(pts, now);
        } else if wallAnchor + (pts - ptsAnchor) < now - cfg.lateToleranceUs {
          StartOver(pts, now);
        } else {
          var depth := wallAnchor + (pts - ptsAnchor) - now;
          if depth > cfg.maxDepthUs {
            wallAnchor := wallAnchor - (depth - cfg.delayUs);
          }
        }
      }
      lastPts := pts;
      q := q + [Entry(frame, pts, size)];
      bytes := bytes + size;
      Trim();
    }

    method Trim()
      modifies this
      ensures View() == Trimmed(old(View()))
    {
      ghost var all := View();
      while |q| > cfg.maxFrames || (cfg.maxBytes > 0 && bytes > cfg.maxBytes && |q| > 1)
        invariant Trimmed(View()) == Trimmed(all)
        decreases |q|
      {
        bytes := bytes - q[0].bytes;
        q := q[1..];
        stats := stats.(droppedOverflow := stats.droppedOverflow + 1);
      }
    }

    /** Takes the due frames off the front, shows the last of them and counts the others as late. */
    method Poll(now: int) returns (shown: Option<F>)
      modifies this
      ensures (View(), shown) == PlayoutClock.Poll(old(View()), now)
    {
      shown := None;
      ghost var all := View();
      while q != [] && wallAnchor + (q[0].pts - ptsAnchor) <= now
        invariant TakeDue(View(), shown, now) == TakeDue(all, None, now)
        decreases |q|
      {
        if shown.Some? {
          stats := stats.(droppedLate := stats.droppedLate + 1);
        }
        shown := Some(q[0].frame);
        bytes := bytes - q[0].bytes;
        q := q[1..];
      }
      if shown.Some? {
        stats := stats.(presented := stats.presented + 1);
      }
    }

    /** The time to poll for: that of the front frame, or -1 with none queued. */
    method NextDueUs() returns (due: int)
      ensures due == if q == [] then -1 else DueAt(View(), q[0].pts)
    {
      due := if q == [] then -1 else wallAnchor + (q[0].pts - ptsAnchor);
    }

    method Clear()
      modifies this
      ensures View() == Cleared(old(View()))
    {
      q := [];
      bytes := 0;
      anchored := false;
    }
  }
}
