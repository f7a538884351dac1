/**
The IMA/DVI4 scheme (section 4.5.1 of RFC 3551) as the talk path uses it: little-endian header,
low nibble first, and the reconstruction ((2*|code|+1)*step)>>3. One step of the encoder and of
the decoder, the error an encoder step leaves, and how fast a constant input is reached.
 */
module ImaCodec {
  import opened Arithmetic

  type s16 = v: int | -32768 <= v <= 32767
  type Code = c: int | 0 <= c < 16
  type Index = i: int | 0 <= i <= 88

  /** The step table, entry by entry, in two halves. */
  function StepAt(i: Index): int {
    if i <= 44 then LowStep(i) else HighStep(i)
  }

  function LowStep(i: Index): int {
    if i == 0 then 7 else if i == 1 then 8 else if i == 2 then 9 else if i == 3 then 10 else
    if i == 4 then 11 else if i == 5 then 12 else if i == 6 then 13 else if i == 7 then 14 else
    if i == 8 then 16 else if i == 9 then 17 else if i == 10 then 19 else if i == 11 then 21 else
    if i == 12 then 23 else if i == 13 then 25 else if i == 14 then 28 else if i == 15 then 31 else
    if i == 16 then 34 else if i == 17 then 37 else if i == 18 then 41 else if i == 19 then 45 else
    if i == 20 then 50 else if i == 21 then 55 else if i == 22 then 60 else if i == 23 then 66 else
    if i == 24 then 73 else if i == 25 then 80 else if i == 26 then 88 else if i == 27 then 97 else
    if i == 28 then 107 else if i == 29 then 118 else if i == 30 then 130 else if i == 31 then 143 else
    if i == 32 then 157 else if i == 33 then 173 else if i == 34 then 190 else if i == 35 then 209 else
    if i == 36 then 230 else if i == 37 then 253 else if i == 38 then 279 else if i == 39 then 307 else
    if i == 40 then 337 else if i == 41 then 371 else if i == 42 then 408 else if i == 43 then 449 else
    494
  }

  function HighStep(i: Index): int {
    if i == 44 then 494 else if i == 45 then 544 else if i == 46 then 598 else if i == 47 then 658 else
    if i == 48 then 724 else if i == 49 then 796 else if i == 50 then 876 else if i == 51 then 963 else
    if i == 52 then 1060 else if i == 53 then 1166 else if i == 54 then 1282 else if i == 55 then 1411 else
    if i == 56 then 1552 else if i == 57 then 1707 else if i == 58 then 1878 else if i == 59 then 2066 else
    if i == 60 then 2272 else if i == 61 then 2499 else if i == 62 then 2749 else if i == 63 then 3024 else
    if i == 64 then 3327 else if i == 65 then 3660 else if i == 66 then 4026 else if i == 67 then 4428 else
    if i == 68 then 4871 else if i == 69 then 5358 else if i == 70 then 5894 else if i == 71 then 6484 else
    if i == 72 then 7132 else if i == 73 then 7845 else if i == 74 then 8630 else if i == 75 then 9493 else
    if i == 76 then 10442 else if i == 77 then 11487 else if i == 78 then 12635 else if i == 79 then 13899 else
    if i == 80 then 15289 else if i == 81 then 16818 else if i == 82 then 18500 else if i == 83 then 20350 else
    if i == 84 then 22385 else if i == 85 then 24623 else if i == 86 then 27086 else if i == 87 then 29794 else
    32767
  }

  /** How a code moves the step index. */
  function MoveOf(c: Code): int {
    if c % 8 < 4 then -1 else if c % 8 == 4 then 2 else if c % 8 == 5 then 4 else if c % 8 == 6 then 6 else 8
  }

  function Clamp(v: int, lo: int, hi: int): (r: int)
    requires lo <= hi
    ensures lo <= r <= hi
    ensures lo <= v <= hi ==> r == v
  {
    if v < lo then lo else if v > hi then hi else v
  }

  // ---- the table ----

  lemma StepBounds(i: Index)
    ensures 7 <= StepAt(i) <= 32767
    ensures i == 0 ==> StepAt(i) == 7
    ensures i == 88 ==> StepAt(i) == 32767
  {
  }

  lemma LowStepGrowth(i: Index)
    requires 0 < i <= 44
    ensures LowStep(i - 1) < LowStep(i) <= 2 * LowStep(i - 1)
  {
  }

  lemma HighStepGrowth(i: Index)
    requires 44 < i
    ensures HighStep(i - 1) < HighStep(i) <= 2 * HighStep(i - 1)
    ensures HighStep(44) == LowStep(44)
  {
  }

  lemma StepGrowth(i: Index)
    requires i > 0
    ensures StepAt(i - 1) < StepAt(i) <= 2 * StepAt(i - 1)
  {
    hide LowStep, HighStep;
    if i <= 44 { LowStepGrowth(i); } else { HighStepGrowth(i); }
  }

  lemma LowTenths(i: Index)
    requires 0 < i <= 44
    ensures -8 <= 10 * LowStep(i) - 11 * LowStep(i - 1) <= 8
  {
  }

  lemma HighTenths(i: Index)
    requires 44 < i < 88
    ensures -8 <= 10 * HighStep(i) - 11 * HighStep(i - 1) <= 8
    ensures HighStep(44) == LowStep(44)
  {
  }

  /** The table runs from 7 to the largest sample, each step a tenth more than the one before to within a unit, the last
      cut to fit. */
  lemma StepsGrowByATenth(i: Index)
    ensures StepAt(0) == 7 && StepAt(88) == 32767
    ensures 0 < i < 88 ==> -8 <= 10 * StepAt(i) - 11 * StepAt(i - 1) <= 8
    ensures 10 * StepAt(88) < 11 * StepAt(87)
  {
    if 0 < i < 88 {
      if i <= 44 { LowTenths(i); } else { HighTenths(i); }
    }
  }

  /** Sign apart, a code below 4 moves one entry down, one from 4 on two, four, six or eight up. */
  lemma MovesByCode(c: Code)
    ensures MoveOf(c) == [-1, -1, -1, -1, 2, 4, 6, 8, -1, -1, -1, -1, 2, 4, 6, 8][c]
  {
  }

  lemma {:induction false} StepsGrow(i: Index, j: Index)
    requires i <= j
    ensures StepAt(i) <= StepAt(j)
    decreases j
  {
    hide StepAt;
    if i < j {
      StepGrowth(j);
      StepsGrow(i, j - 1);
    }
  }

  // ---- one sample ----

  /** What encoder and decoder must agree on. */
  datatype State = State(predictor: s16, index: Index)

  function Delta(code: Code, step: nat): nat {
    (2 * (code % 8) + 1) * step / 8
  }

  /** The decoder's step. */
  function Advance(st: State, code: Code): State {
    var delta := Delta(code, StepAt(st.index));
    State(Clamp(if code >= 8 then st.predictor - delta else st.predictor + delta, -32768, 32767),
          Clamp(st.index + MoveOf(code), 0, 88))
  }

  /** The magnitude of a difference in eighths of two steps: three successive comparisons. */
  function Quantise(diff: nat, step: nat): (code: Code)
    ensures code < 8
  {
    var a := diff >= step;
    var d1 := if a then diff - step else diff;
    var b := d1 >= step / 2;
    var d2 := if b then d1 - step / 2 else d1;
    (if a then 4 else 0) + (if b then 2 else 0) + (if d2 >= step / 2 / 2 then 1 else 0)
  }

  function CodeFor(st: State, sample: s16): Code {
    var diff := sample - st.predictor;
    (if diff < 0 then 8 else 0) + Quantise(Abs(diff), StepAt(st.index))
  }

  /** The encoder's step: it tracks exactly what a decoder of its code would hold. */
  function Follow(st: State, sample: s16): State {
    Advance(st, CodeFor(st, sample))
  }

  /** Three comparisons with the step, its half and its quarter. */
  method CompareWithStep(magnitude: nat, step: nat) returns (code: Code)
    ensures code == Quantise(magnitude, step)
  {
    var c, diff, s := 0, magnitude, step;
    if diff >= s {
      c := c + 4;
      diff := diff - s;
    }
    s := s / 2;
    if diff >= s {
      c := c + 2;
      diff := diff - s;
    }
    s := s / 2;
    if diff >= s {
      c := c + 1;
    }
    code := c;
  }

  method EncodeSample(sample: s16, predictor: s16, index: Index) returns (code: Code, predictor': s16, index': Index)
    ensures code == CodeFor(State(predictor, index), sample)
    ensures State(predictor', index') == Follow(State(predictor, index), sample)
  {
    hide StepAt, Delta, Quantise;
    var step := StepAt(index);
    StepBounds(index);
    var diff: int := sample - predictor;
    var sign: int := 0;
    if diff < 0 {
      sign := 8;
      diff := -diff;
    }
    var magnitude := CompareWithStep(diff, step);
    code := sign + magnitude;
    var delta := Delta(code, step);
    predictor' := Clamp(if code >= 8 then predictor - delta else predictor + delta, -32768, 32767);
    index' := Clamp(index + MoveOf(code), 0, 88);
  }

  // ---- the error one step leaves ----

  function Error(st: State, sample: s16): int { sample - st.predictor }

  /** The difference is more than the widest code can express. */
  predicate Overloaded(st: State, sample: s16) {
    Abs(Error(st, sample)) >= 2 * StepAt(st.index)
  }

  lemma DeltaCases(code: Code, step: nat)
    requires code < 8
    ensures Delta(code, step) == (if code == 0 then step / 8 else if code == 1 then 3 * step / 8
                                  else if code == 2 then 5 * step / 8 else if code == 3 then 7 * step / 8
                                  else if code == 4 then 9 * step / 8 else if code == 5 then 11 * step / 8
                                  else if code == 6 then 13 * step / 8 else 15 * step / 8)
  {
  }

  /** Within two steps, the reconstructed difference is off by at most an eighth of a step and rounding. */
  lemma QuantiseError(diff: nat, step: nat)
    requires step >= 7 && diff < 2 * step
    ensures 8 * Abs(diff - Delta(Quantise(diff, step), step)) <= step + 10
  {
    DeltaCases(Quantise(diff, step), step);
  }

  lemma QuantiseOverload(diff: nat, step: nat)
    requires step >= 7 && diff >= 2 * step
    ensures Quantise(diff, step) == 7
    ensures 13 <= Delta(7, step) < diff
  {
    DeltaCases(7, step);
  }

  lemma QuantiseSmall(diff: nat, step: nat)
    requires step >= 7 && diff < step
    ensures Quantise(diff, step) < 4
  {
  }

  /** One encoder step. In range, the error drops to an eighth of a step; out of range it strictly shrinks,
      keeps its sign, and the step index rises by 8. */
  lemma StepError(st: State, sample: s16)
    ensures var n := Follow(st, sample);
            if Overloaded(st, sample) then
              && Abs(Error(n, sample)) <= Abs(Error(st, sample)) - 13
              && (Error(st, sample) > 0 ==> Error(n, sample) > 0)
              && (Error(st, sample) < 0 ==> Error(n, sample) < 0)
              && n.index == Clamp(st.index + 8, 0, 88)
            else 8 * Abs(Error(n, sample)) <= StepAt(st.index) + 10
  {
    hide StepAt;
    var step, diff := StepAt(st.index), Abs(Error(st, sample));
    StepBounds(st.index);
    if diff >= 2 * step { QuantiseOverload(diff, step); } else { QuantiseError(diff, step); }
    FollowMoves(st, sample, step, diff);
  }

  lemma FollowMoves(st: State, sample: s16, step: nat, diff: nat)
    requires step == StepAt(st.index) && diff == Abs(Error(st, sample))
    ensures var n, c := Follow(st, sample), Quantise(diff, step);
            && n.index == Clamp(st.index + MoveOf(c), 0, 88)
            && n.predictor
                 == Clamp(if Error(st, sample) < 0 then st.predictor - Delta(c, step)
                          else st.predictor + Delta(c, step), -32768, 32767)
  {
    hide StepAt;
    var c := Quantise(diff, step);
    assert Delta(c + 8, step) == Delta(c, step) by { assert (c + 8) % 8 == c; }
  }

  // ---- a constant input ----

  function Hold(st: State, sample: s16, n: nat): State {
    if n == 0 then st else Follow(Hold(st, sample, n - 1), sample)
  }

  /** Overload is left for good: in range stays in range. */
  lemma InRangeStaysInRange(st: State, sample: s16)
    requires !Overloaded(st, sample)
    ensures !Overloaded(Follow(st, sample), sample)
    ensures Near(Follow(st, sample), sample)
  {
    hide StepAt;
    StepError(st, sample);
    StepBounds(st.index);
    NextStepIsNotMuchSmaller(st, sample);
  }

  /** The error is at most about a quarter of the current step. */
  predicate Near(st: State, sample: s16) {
    8 * Abs(Error(st, sample)) <= 2 * StepAt(st.index) + 10
  }

  lemma NextStepIsNotMuchSmaller(st: State, sample: s16)
    ensures StepAt(st.index) <= 2 * StepAt(Follow(st, sample).index)
    ensures StepAt(Follow(st, sample).index) >= 7
  {
    hide StepAt, Follow, Quantise, Delta;
    var i, j := st.index, Follow(st, sample).index;
    StepBounds(i);
    FollowMoves(st, sample, StepAt(i), Abs(Error(st, sample)));
    StepBounds(j);
    if j >= i { StepsGrow(i, j); } else { StepGrowth(i); }
  }

  lemma {:induction false} OverloadRaisesTheIndex(st: State, sample: s16, n: nat)
    requires forall k | 0 <= k < n :: Overloaded(Hold(st, sample, k), sample)
    ensures Hold(st, sample, n).index >= if st.index + 8 * n < 88 then st.index + 8 * n else 88
    ensures Abs(Error(Hold(st, sample, n), sample)) <= Abs(Error(st, sample)) - 13 * n
  {
    hide StepAt, Follow;
    if n > 0 {
      OverloadRaisesTheIndex(st, sample, n - 1);
      assert Overloaded(Hold(st, sample, n - 1), sample);
      StepError(Hold(st, sample, n - 1), sample);
    }
  }

  lemma {:induction false} InRangeForGood(st: State, sample: s16, k: nat, n: nat)
    requires k <= n && !Overloaded(Hold(st, sample, k), sample)
    ensures !Overloaded(Hold(st, sample, n), sample)
    ensures k < n ==> Near(Hold(st, sample, n), sample)
    decreases n
  {
    hide StepAt, Follow, Overloaded, Near;
    if k < n {
      InRangeForGood(st, sample, k, n - 1);
      InRangeStaysInRange(Hold(st, sample, n - 1), sample);
    }
  }

  /** From any state, a constant input is in range after at most 11 samples, and stays in range. */
  lemma {:induction false} OverloadEndsWithinElevenSamples(st: State, sample: s16, n: nat)
    requires n >= 11
    ensures !Overloaded(Hold(st, sample, n), sample)
  {
    hide StepAt;
    if forall k | 0 <= k < 11 :: Overloaded(Hold(st, sample, k), sample) {
      OverloadRaisesTheIndex(st, sample, 11);
      StepBounds(88);
      InRangeForGood(st, sample, 11, n);
    } else {
      var k :| 0 <= k < 11 && !Overloaded(Hold(st, sample, k), sample);
      InRangeForGood(st, sample, k, n);
    }
  }

  /** Once near, the index falls by one each sample until it is 0. */
  lemma {:induction false} NearCountsDown(st: State, sample: s16, n: nat)
    requires Near(st, sample)
    ensures Near(Hold(st, sample, n), sample)
    ensures Hold(st, sample, n).index == if st.index > n then st.index - n else 0
  {
    hide StepAt, Follow, Near;
    if n > 0 {
      NearCountsDown(st, sample, n - 1);
      NearStep(Hold(st, sample, n - 1), sample);
    }
  }

  lemma NearStep(st: State, sample: s16)
    requires Near(st, sample)
    ensures Near(Follow(st, sample), sample)
    ensures Follow(st, sample).index == Clamp(st.index - 1, 0, 88)
  {
    hide StepAt;
    StepBounds(st.index);
    InRangeStaysInRange(st, sample);
    QuantiseSmall(Abs(Error(st, sample)), StepAt(st.index));
    FollowMoves(st, sample, StepAt(st.index), Abs(Error(st, sample)));
  }

  lemma {:induction false} HoldSplits(st: State, sample: s16, m: nat, n: nat)
    ensures Hold(Hold(st, sample, m), sample, n) == Hold(st, sample, m + n)
    decreases n
  {
    hide StepAt, Follow;
    if n > 0 { HoldSplits(st, sample, m, n - 1); }
  }

  /** From any state whatever, after 101 samples of a constant input the decoder is within 2 of it, for good. */
  lemma {:induction false} ConstantInputIsReached(st: State, sample: s16, n: nat)
    requires n >= 101
    ensures Abs(Error(Hold(st, sample, n), sample)) <= 2
  {
    hide StepAt;
    OverloadEndsWithinElevenSamples(st, sample, 11);
    InRangeForGood(st, sample, 11, 12);
    var near := Hold(st, sample, 12);
    NearCountsDown(near, sample, n - 13);
    HoldSplits(st, sample, 12, n - 13);
    var last := Hold(st, sample, n - 1);
    assert Near(last, sample) && last.index == 0;
    StepBounds(0);
    StepError(last, sample);
  }
}
