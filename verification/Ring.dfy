/**
The bounded byte ring between the network thread and the decoder. One mutex guards it; a thread
that must wait sleeps on the condition and re-checks when woken. Each critical section is one
step of a state machine, with the unlocked store of the abort flag in stop() a step of its own,
and the guarantees hold in every state any interleaving can reach.
 */
module FrameRing {
  import opened Arithmetic
  import opened Sequences
  import opened Bytes

  datatype Wait = Idle | Checking | Asleep
  datatype Stop = NotCalled | FlagStored | Stopped

  datatype Limits = Limits(maxRing: nat, maxPush: nat)

  /** `given` and `taken` record what was pushed and read since the ring was last cleared. */
  datatype Ring = Ring(
    data: bytes, finished: bool, abort: bool,
    reader: Wait, want: nat, producer: Wait, offered: bytes, ended: bool, stop: Stop,
    given: bytes, taken: bytes)

  const START := Ring([], false, false, Idle, 0, Idle, [], false, NotCalled, [], [])

  datatype Step =
    | ReadCall(size: nat) | ReadSection
    | PushCall(offer: bytes) | PushSection
    | ClearSection // a seek, on the producer's thread
    | FinishSection // the network loop ended
    | StopStore | StopSection
    | WakeReader | WakeProducer // spurious wake-ups

  datatype ReadResult = Sleep | Eof | Data(out: bytes)

  /** wakeAll: whoever sleeps goes back to checking. */
  function Woken(w: Wait): Wait { if w == Asleep then Checking else w }

  function WakeAll(r: Ring): Ring {
    r.(reader := Woken(r.reader), producer := Woken(r.producer))
  }

  /** The body of read() once the lock is held. */
  function ReadResultOf(data: bytes, finished: bool, abort: bool, size: nat): ReadResult {
    if data == [] && !finished && !abort then Sleep
    else if data == [] then Eof
    else Data(data[..if size < |data| then size else |data|])
  }

  predicate Enabled(l: Limits, r: Ring, step: Step) {
    match step
    case ReadCall(_) => r.reader == Idle
    case ReadSection => r.reader == Checking
    case PushCall(offer) => r.producer == Idle && !r.ended && |offer| <= l.maxPush
    case PushSection => r.producer == Checking
    case ClearSection => r.producer == Idle && !r.ended
    case FinishSection => r.producer == Idle && !r.ended
    case StopStore => r.stop == NotCalled
    case StopSection => r.stop == FlagStored
    case WakeReader => r.reader == Asleep
    case WakeProducer => r.producer == Asleep
  }

  function Next(l: Limits, r: Ring, step: Step): Ring
    requires Enabled(l, r, step)
  {
    match step
    case ReadCall(size) => r.(reader := Checking, want := size)
    case ReadSection =>
      (match ReadResultOf(r.data, r.finished, r.abort, r.want)
       case Sleep => r.(reader := Asleep)
       case Eof => r.(reader := Idle)
       case Data(out) => WakeAll(r.(reader := Idle, data := r.data[|out|..], taken := r.taken + out)))
    case PushCall(offer) => r.(producer := Checking, offered := offer)
    case PushSection =>
      if |r.data| > l.maxRing && !r.abort then r.(producer := Asleep)
      else if r.abort then r.(producer := Idle)
      else WakeAll(r.(producer := Idle, data := r.data + r.offered, given := r.given + r.offered))
    case ClearSection => WakeAll(r.(data := [], given := [], taken := []))
    case FinishSection => WakeAll(r.(finished := true, ended := true))
    case StopStore => r.(abort := true, stop := FlagStored)
    case StopSection => WakeAll(r.(finished := true, stop := Stopped))
    case WakeReader => r.(reader := Checking)
    case WakeProducer => r.(producer := Checking)
  }

  /** A run: each step enabled in the state the previous ones led to. */
  predicate Runs(l: Limits, r: Ring, steps: seq<Step>)
    decreases |steps|
  {
    steps == [] || (Enabled(l, r, steps[0]) && Runs(l, Next(l, r, steps[0]), steps[1..]))
  }

  function After(l: Limits, r: Ring, steps: seq<Step>): Ring
    requires Runs(l, r, steps)
    decreases |steps|
  {
    if steps == [] then r else After(l, Next(l, r, steps[0]), steps[1..])
  }

  predicate Inv(l: Limits, r: Ring) {
    && r.given == r.taken + r.data
    && |r.data| <= l.maxRing + l.maxPush
    && (r.producer != Idle ==> |r.offered| <= l.maxPush)
    && (r.abort <==> r.stop != NotCalled)
    && (r.stop == Stopped ==> r.finished)
    && (r.reader == Asleep ==> r.data == [] && !r.finished && r.stop != Stopped)
    && (r.producer == Asleep ==> |r.data| > l.maxRing && r.stop != Stopped)
  }

  lemma TakeFront(taken: bytes, data: bytes, k: nat)
    requires k <= |data|
    ensures taken + data == (taken + data[..k]) + data[k..]
  {
    assert data == data[..k] + data[k..];
  }

  lemma ReadKeepsInv(l: Limits, r: Ring)
    requires Inv(l, r) && Enabled(l, r, ReadSection)
    ensures Inv(l, Next(l, r, ReadSection))
  {
    TakeFront(r.taken, r.data, if r.want < |r.data| then r.want else |r.data|);
  }

  lemma PushKeepsInv(l: Limits, r: Ring)
    requires Inv(l, r) && Enabled(l, r, PushSection)
    ensures Inv(l, Next(l, r, PushSection))
  {
    Associate(r.taken, r.data, r.offered);
  }

  lemma OtherStepsKeepInv(l: Limits, r: Ring, step: Step)
    requires Inv(l, r) && Enabled(l, r, step) && step != ReadSection && step != PushSection
    ensures Inv(l, Next(l, r, step))
  {
  }

  lemma NextKeepsInv(l: Limits, r: Ring, step: Step)
    requires Inv(l, r) && Enabled(l, r, step)
    ensures Inv(l, Next(l, r, step))
  {
    hide Inv, Enabled, Next;
    match step
    case ReadSection => ReadKeepsInv(l, r);
    case PushSection => PushKeepsInv(l, r);
    case _ => OtherStepsKeepInv(l, r, step);
  }

  lemma {:induction false} InvHoldsThroughout(l: Limits, r: Ring, steps: seq<Step>)
    requires Inv(l, r) && Runs(l, r, steps)
    ensures Inv(l, After(l, r, steps))
    decreases |steps|
  {
    if steps != [] {
      NextKeepsInv(l, r, steps[0]);
      InvHoldsThroughout(l, Next(l, r, steps[0]), steps[1..]);
    }
  }

  /** In every reachable state: what was read since the last clear is a prefix of what was pushed, the rest is
      queued and bounded, reader and producer do not both sleep, and once stop() has returned neither does. */
  lemma RingIsFaithfulBoundedAndLive(l: Limits, steps: seq<Step>)
    requires Runs(l, START, steps)
    ensures var r := After(l, START, steps);
            && r.taken <= r.given
            && r.given[|r.taken|..] == r.data
            && |r.data| <= l.maxRing + l.maxPush
            && !(r.reader == Asleep && r.producer == Asleep)
            && (r.stop == Stopped ==> r.reader != Asleep && r.producer != Asleep)
  {
    InvHoldsThroughout(l, START, steps);
  }

  /** A sleeper is never missed: whatever would let it go on, wakes it. */
  lemma SleepersAreWoken(l: Limits, r: Ring, step: Step)
    requires Inv(l, r) && Enabled(l, r, step)
    ensures var n := Next(l, r, step);
            && (n.reader == Asleep ==> n.data == [] && !n.finished)
            && (n.producer == Asleep ==> |n.data| > l.maxRing)
            && (r.reader == Asleep && step == PushSection && n.data != r.data ==> n.reader == Checking)
            && (r.producer == Asleep && step == ReadSection && n.data != r.data ==> n.producer == Checking)
  {
    NextKeepsInv(l, r, step);
  }

  /** A thread that is inside a call can take its next section, unless it sleeps, and then it may wake; outside, it can
      make any call, the producer until its loop has ended and stop() once. */
  lemma EveryThreadMayGoOn(l: Limits, r: Ring, size: nat, offer: bytes)
    requires |offer| <= l.maxPush
    ensures Enabled(l, r, if r.reader == Idle then ReadCall(size) else if r.reader == Asleep then WakeReader
                          else ReadSection)
    ensures r.producer != Idle ==> Enabled(l, r, if r.producer == Asleep then WakeProducer else PushSection)
    ensures r.producer == Idle && !r.ended ==>
              Enabled(l, r, PushCall(offer)) && Enabled(l, r, ClearSection) && Enabled(l, r, FinishSection)
    ensures r.stop != Stopped ==> Enabled(l, r, if r.stop == NotCalled then StopStore else StopSection)
  {
  }

  /** A read is for the size it was called with, however long it sleeps, and is over exactly when it has an answer. */
  lemma ReadEndsWithItsAnswer(l: Limits, r: Ring, step: Step)
    requires Enabled(l, r, step)
    ensures var n := Next(l, r, step);
            && (step.ReadCall? ==> n.want == step.size && n.reader == Checking)
            && (!step.ReadCall? ==> n.want == r.want)
            && (step == ReadSection ==>
                  n.reader == if r.data == [] && !r.finished && !r.abort then Asleep else Idle)
            && (!step.ReadCall? && step != ReadSection ==> (n.reader == Idle <==> r.reader == Idle))
  {
  }

  // ---- after stop() ----

  /** What is left of some data once the front has been taken off. */
  predicate EndPart(rest: bytes, data: bytes) {
    |rest| <= |data| && rest == data[|data| - |rest|..]
  }

  lemma EndPartOfEndPart(c: bytes, b: bytes, a: bytes)
    requires EndPart(c, b) && EndPart(b, a)
    ensures EndPart(c, a)
  {
  }

  /** Nothing will be queued any more: stop() was called, or the network loop has ended. */
  predicate Over(r: Ring) {
    && (r.abort || (r.ended && r.producer == Idle))
    && (r.abort || r.finished)
  }

  /** The network loop's last section and the flag that stop() stores each make it over at once; when stop() has
      returned the ring is finished too. */
  lemma EndingMakesItOver(l: Limits, r: Ring)
    ensures Enabled(l, r, FinishSection) ==> Over(Next(l, r, FinishSection)) && Next(l, r, FinishSection).ended
    ensures Enabled(l, r, StopStore) ==> Over(Next(l, r, StopStore)) && Next(l, r, StopStore).stop == FlagStored
    ensures Enabled(l, r, StopSection) ==>
              Next(l, r, StopSection).finished && Next(l, r, StopSection).stop == Stopped
  {
  }

  /** One step once it is over: a read takes from the front, a seek's clear takes all, nothing else touches the ring. */
  lemma OverStep(l: Limits, r: Ring, step: Step)
    requires Inv(l, r) && Enabled(l, r, step) && Over(r)
    ensures var n := Next(l, r, step);
            && Inv(l, n) && Over(n) && (r.abort ==> n.abort)
            && (r.reader != Asleep ==> n.reader != Asleep)
            && (step == ReadSection ==>
                  n.data == r.data[|Left(r.data, r.want)|..] && n.taken == r.taken + Left(r.data, r.want))
            && (step == ClearSection ==> n.data == [])
            && (step != ReadSection && step != ClearSection ==> n.data == r.data && n.taken == r.taken)
            && (step != ClearSection ==> n.given == r.given)
  {
    NextKeepsInv(l, r, step);
    if r.data == [] { assert r.taken + [] == r.taken; }
  }

  /** Once the flag is stored nothing is queued any more, whatever follows: the ring only loses from its front. */
  lemma {:induction false} NothingIsQueuedAfterAbort(l: Limits, r: Ring, steps: seq<Step>)
    requires Inv(l, r) && Runs(l, r, steps) && r.abort
    ensures var n := After(l, r, steps);
            && n.abort && EndPart(n.data, r.data)
            && (ClearSection !in steps ==> n.given == r.given && r.taken <= n.taken)
    decreases |steps|
  {
    hide Inv, Enabled, Next, EndPart;
    if steps == [] {
      assert EndPart(r.data, r.data) by { NothingTaken(r.data); }
    } else {
      var b := Next(l, r, steps[0]);
      OverStep(l, r, steps[0]);
      NothingIsQueuedAfterAbort(l, b, steps[1..]);
      EndPartOfEndPart(After(l, b, steps[1..]).data, b.data, r.data);
    }
  }

  lemma NothingTaken(data: bytes)
    ensures EndPart(data, data)
  {
  }

  /** The bytes asked for by the reads that get their turn in a run. */
  function Asked(l: Limits, r: Ring, steps: seq<Step>): nat
    requires Runs(l, r, steps)
    decreases |steps|
  {
    if steps == [] then 0
    else (if steps[0] == ReadSection then r.want else 0) + Asked(l, Next(l, r, steps[0]), steps[1..])
  }

  /** Reads of k bytes in all took r to n. */
  predicate DrainedBy(r: Ring, n: Ring, k: nat) {
    && n.taken == r.taken + Left(r.data, k)
    && n.data == r.data[|Left(r.data, k)|..]
  }

  lemma DrainedByNone(r: Ring, n: Ring)
    requires n.taken == r.taken && n.data == r.data
    ensures DrainedBy(r, n, 0)
  {
    assert r.taken + Left(r.data, 0) == r.taken;
  }

  lemma DrainedByBoth(r: Ring, b: Ring, n: Ring, j: nat, k: nat)
    requires DrainedBy(r, b, j) && DrainedBy(b, n, k)
    ensures DrainedBy(r, n, j + k)
  {
    Associate(r.taken, Left(r.data, j), Left(b.data, k));
  }

  /** What one step of a run that is over does for the reader. */
  lemma DrainStep(l: Limits, r: Ring, step: Step, k: nat, n: Ring)
    requires Inv(l, r) && Enabled(l, r, step) && Over(r)
    requires |n.data| <= Max(0, |Next(l, r, step).data| - k)
    ensures var j := if step == ReadSection then r.want else 0;
            && |n.data| <= Max(0, |r.data| - (j + k))
            && (step != ClearSection && DrainedBy(Next(l, r, step), n, k) ==> DrainedBy(r, n, j + k))
  {
    hide Inv, Enabled, Next, Over, DrainedBy, Left;
    var b := Next(l, r, step);
    OverStep(l, r, step);
    if step == ReadSection {
      assert DrainedBy(r, b, r.want) by { DrainedByRead(r, b); }
      if DrainedBy(b, n, k) { DrainedByBoth(r, b, n, r.want, k); }
    } else if step != ClearSection {
      DrainedByNone(r, b);
      if DrainedBy(b, n, k) { DrainedByBoth(r, b, n, 0, k); }
    }
  }

  lemma DrainedByRead(r: Ring, b: Ring)
    requires b.data == r.data[|Left(r.data, r.want)|..] && b.taken == r.taken + Left(r.data, r.want)
    ensures DrainedBy(r, b, r.want)
  {
  }

  /** After stop() or the end of the stream the reader does not sleep again and can always go on; whatever the other
      threads do in between, its reads return what is queued, in order, and once they have asked for that much they
      see the end. */
  lemma {:induction false} ReaderDrainsThenSeesTheEnd(l: Limits, r: Ring, steps: seq<Step>)
    requires Inv(l, r) && Runs(l, r, steps) && Over(r) && r.reader != Asleep
    ensures var n, k := After(l, r, steps), Asked(l, r, steps);
            && n.reader != Asleep && Over(n)
            && |n.data| <= Max(0, |r.data| - k)
            && (ClearSection !in steps ==> DrainedBy(r, n, k))
            && (k >= |r.data| ==> ReadResultOf(n.data, n.finished, n.abort, 1) == Eof)
    decreases |steps|
  {
    hide Inv, Enabled, Next, DrainedBy;
    if steps == [] {
      DrainedByNone(r, r);
    } else {
      var b, n := Next(l, r, steps[0]), After(l, r, steps);
      OverStep(l, r, steps[0]);
      ReaderDrainsThenSeesTheEnd(l, b, steps[1..]);
      DrainStep(l, r, steps[0], Asked(l, b, steps[1..]), n);
    }
  }

  // ---- what was pushed ----

  /** What the pushes called in a run offer, in order. */
  function Offers(steps: seq<Step>): seq<bytes> {
    if steps == [] then [] else (if steps[0].PushCall? then [steps[0].offer] else []) + Offers(steps[1..])
  }

  /** Everything pushed since the last clear, with the push that still waits for room. */
  function Pushed(r: Ring): bytes {
    r.given + if r.producer == Idle then [] else r.offered
  }

  lemma StepPushes(l: Limits, r: Ring, step: Step)
    requires Enabled(l, r, step) && step != ClearSection && !r.abort
    ensures Pushed(Next(l, r, step)) == Pushed(r) + if step.PushCall? then step.offer else []
  {
    assert Pushed(r) + [] == Pushed(r) && r.given + [] == r.given;
  }

  lemma GivenIsPushed(r: Ring, more: bytes)
    ensures r.given <= Pushed(r) + more
  {
  }

  lemma OffersSplit(steps: seq<Step>)
    requires steps != []
    ensures Flatten(Offers(steps))
         == (if steps[0].PushCall? then steps[0].offer else []) + Flatten(Offers(steps[1..]))
  {
    var offers := Offers(steps[1..]);
    if steps[0].PushCall? {
      assert ([steps[0].offer] + offers)[1..] == offers;
    } else {
      assert [] + offers == offers && [] + Flatten(offers) == Flatten(offers);
    }
  }

  /** In every interleaving without a clear, what the ring was given are the bytes of the pushes called, in order and
      without a gap, and unless stop() was called all of them, but for a push that still waits. */
  lemma {:induction false} PushesArriveInOrder(l: Limits, r: Ring, steps: seq<Step>)
    requires Inv(l, r) && Runs(l, r, steps) && ClearSection !in steps
    ensures var n, all := After(l, r, steps), Pushed(r) + Flatten(Offers(steps));
            n.given <= all && (!n.abort ==> Pushed(n) == all)
    decreases |steps|
  {
    hide Inv, Enabled, Next, Pushed, Flatten, Offers, EndPart;
    GivenIsPushed(r, Flatten(Offers(steps)));
    if r.abort {
      NothingIsQueuedAfterAbort(l, r, steps);
    } else if steps == [] {
      NoOffers(r);
    } else {
      var b, offer := Next(l, r, steps[0]), if steps[0].PushCall? then steps[0].offer else [];
      NextKeepsInv(l, r, steps[0]);
      PushesArriveInOrder(l, b, steps[1..]);
      StepPushes(l, r, steps[0]);
      OffersSplit(steps);
      Associate(Pushed(r), offer, Flatten(Offers(steps[1..])));
    }
  }

  lemma NoOffers(r: Ring)
    ensures Pushed(r) + Flatten(Offers([])) == Pushed(r)
  {
    assert Offers([]) == [] && Flatten<int>([]) == [];
  }

  /** A read that returns has bytes, or has nothing and the stream is over. It never returns "no bytes" otherwise. */
  lemma ReadReturnsBytesOrTheEnd(data: bytes, finished: bool, abort: bool, size: nat)
    requires size > 0
    ensures var r := ReadResultOf(data, finished, abort, size);
            && (r.Sleep? <==> data == [] && !finished && !abort)
            && (r.Eof? <==> data == [] && (finished || abort))
            && (r.Data? ==> r.out != [] && r.out <= data && |r.out| <= size)
  {
  }

  /** The critical sections as the threads run them on the shared fields; `wake` asks for wakeAll. */
  class FrameRingObject {
    var ring: bytes
    var finished: bool
    var abort: bool
    const maxRing: nat

    constructor (maxRing: nat)
      ensures ring == [] && !finished && !abort
      ensures this.maxRing == maxRing
    {
      ring, finished, abort, this.maxRing := [], false, false, maxRing;
    }

    /** read() up to its wait: the bytes come off the front, in order, and the producer is woken. */
    method Read(size: nat) returns (r: ReadResult, wake: bool)
      modifies this`ring
      ensures r == ReadResultOf(old(ring), finished, abort, size)
      ensures if r.Data? then r.out + ring == old(ring) && wake else ring == old(ring) && !wake
    {
      if ring == [] && !finished && !abort {
        return Sleep, false;
      }
      if abort && ring == [] {
        return Eof, false;
      }
      if ring == [] {
        return Eof, false;
      }
      var n := if size < |ring| then size else |ring|;
      r, wake := Data(ring[..n]), true;
      ring := ring[n..];
    }

    /** pushAnnexB() up to its wait, tied to the producer's step. */
    method Push(data: bytes, ghost l: Limits, ghost s: Ring) returns (sleep: bool, wake: bool)
      requires l.maxRing == maxRing && s.data == ring && s.abort == abort && s.producer == Checking
      requires s.offered == data
      modifies this`ring
      ensures ring == Next(l, s, PushSection).data
      ensures sleep <==> Next(l, s, PushSection).producer == Asleep
      ensures wake == (!sleep && !abort)
    {
      if |ring| > maxRing && !abort {
        return true, false;
      }
      if abort {
        return false, false;
      }
      ring := ring + data;
      return false, true;
    }

    /** The part of stop() under the lock. */
    method FinishUnderLock() returns (wake: bool)
      modifies this`finished
      ensures finished && wake
    {
      finished := true;
      wake := true;
    }

    /** A seek drops what is queued from the old position. */
    method Clear() returns (wake: bool)
      modifies this`ring
      ensures ring == [] && wake
    {
      ring := [];
      wake := true;
    }
  }
}
