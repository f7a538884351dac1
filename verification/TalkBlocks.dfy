/**
ADPCM blocks for two-way talk: a four-byte header that restates predictor and step index, then two
codes per byte. A block decodes, on its own, to exactly what the encoder tracked; and the blocks
that come out depend only on the samples, not on how they were pushed.
 */
module TalkBlocks {
  import opened Arithmetic
  import opened Bytes
  import opened ImaCodec

  // ---- decoder and encoder in lockstep ----

  /** The predictors the encoder passes through. */
  function Trajectory(st: State, samples: seq<s16>): (r: seq<s16>)
    ensures |r| == |samples|
    decreases |samples|
  {
    if samples == [] then [] else [Follow(st, samples[0]).predictor] + Trajectory(Follow(st, samples[0]), samples[1..])
  }

  function StateAfter(st: State, samples: seq<s16>): State
    decreases |samples|
  {
    if samples == [] then st else StateAfter(Follow(st, samples[0]), samples[1..])
  }

  function Codes(st: State, samples: seq<s16>): (r: seq<Code>)
    ensures |r| == |samples|
    decreases |samples|
  {
    if samples == [] then [] else [CodeFor(st, samples[0])] + Codes(Follow(st, samples[0]), samples[1..])
  }

  function Decoded(st: State, codes: seq<Code>): (r: seq<s16>)
    ensures |r| == |codes|
    decreases |codes|
  {
    if codes == [] then [] else [Advance(st, codes[0]).predictor] + Decoded(Advance(st, codes[0]), codes[1..])
  }

  lemma {:induction false} DecoderFollowsTheEncoder(st: State, samples: seq<s16>)
    ensures Decoded(st, Codes(st, samples)) == Trajectory(st, samples)
    decreases |samples|
  {
    hide StepAt;
    if samples != [] {
      DecoderFollowsTheEncoder(Follow(st, samples[0]), samples[1..]);
      assert Codes(st, samples)[1..] == Codes(Follow(st, samples[0]), samples[1..]);
    }
  }

  // ---- bytes ----

  /** Two codes in a byte, low nibble first. */
  function Pack(codes: seq<Code>): (r: bytes)
    ensures |r| == |codes| / 2
  {
    if |codes| < 2 then [] else [codes[0] as int + 16 * codes[1] as int] + Pack(codes[2..])
  }

  function Unpack(data: bytes): (r: seq<Code>)
    ensures |r| == 2 * |data|
  {
    if data == [] then [] else [data[0] % 16, data[0] / 16] + Unpack(data[1..])
  }

  lemma {:induction false} UnpackPack(codes: seq<Code>)
    requires |codes| % 2 == 0
    ensures Unpack(Pack(codes)) == codes
  {
    if codes != [] {
      UnpackPack(codes[2..]);
      assert Pack(codes)[1..] == Pack(codes[2..]);
      assert codes == [codes[0], codes[1]] + codes[2..];
    }
  }

  /** The low 16 bits of a sample, as an unsigned number. */
  function Bits(v: s16): u16 { if v < 0 then v as int + 0x1_0000 else v }

  function FromBits(u: u16): s16 { if u >= 0x8000 then u as int - 0x1_0000 else u }

  function Header(st: State): bytes {
    PutLE16(Bits(st.predictor)) + [st.index, 0]
  }

  /** A block: the first sample exactly, then one code for each of the others. */
  function EncodedBlock(index: Index, samples: seq<s16>): (r: bytes)
    requires |samples| % 2 == 1
    ensures |r| == 4 + |samples| / 2
  {
    var st := State(samples[0], index);
    Header(st) + Pack(Codes(st, samples[1..]))
  }

  function DecodedBlock(block: bytes): seq<s16> {
    if |block| < 5 then []
    else
      var st := State(FromBits(GetLE16(block, 0)), Clamp(block[2], 0, 88));
      [st.predictor] + Decoded(st, Unpack(block[4..]))
  }

  lemma NoCodes(st: State)
    ensures Codes(st, []) == [] && Pack([]) == []
    ensures StateAfter(st, []) == st
  {
  }

  /** A block carries all the decoder needs: whatever came before, it decodes to the first sample and then
      exactly the predictors the encoder tracked. */
  lemma BlockDecodesToTheTrajectory(index: Index, samples: seq<s16>)
    requires |samples| % 2 == 1
    ensures DecodedBlock(EncodedBlock(index, samples))
         == if |samples| == 1 then [] else [samples[0]] + Trajectory(State(samples[0], index), samples[1..])
  {
    hide StepAt, Decoded, Codes, Pack, Unpack, Trajectory, GetLE16, PutLE16;
    var st, block := State(samples[0], index), EncodedBlock(index, samples);
    var packed := Pack(Codes(st, samples[1..]));
    LE16UnchangedByMore(PutLE16(Bits(st.predictor)), [st.index, 0], 0);
    LE16UnchangedByMore(Header(st), packed, 0);
    assert block[2] == Header(st)[2] == st.index;
    assert block[4..] == packed;
    NoCodes(st);
    UnpackPack(Codes(st, samples[1..]));
    DecoderFollowsTheEncoder(st, samples[1..]);
  }

  lemma {:induction false} PackedAt(codes: seq<Code>, k: nat)
    requires 2 * k + 1 < |codes|
    ensures Pack(codes)[k] % 16 == codes[2 * k]
    ensures Pack(codes)[k] / 16 == codes[2 * k + 1]
  {
    if k > 0 {
      PackedAt(codes[2..], k - 1);
      assert Pack(codes)[k] == Pack(codes[2..])[k - 1];
    }
  }

  /** On the wire: predictor low byte first, step index, zero, and in data byte k the earlier of its two samples in
      the low nibble. */
  lemma BlockLayout(index: Index, samples: seq<s16>, k: nat)
    requires |samples| % 2 == 1 && k < |samples| / 2
    ensures var b, st := EncodedBlock(index, samples), State(samples[0], index);
            && b[0] as int + 256 * b[1] as int == (if samples[0] < 0 then samples[0] as int + 65536 else samples[0])
            && b[2] == index && b[3] == 0
            && b[4 + k] % 16 == Codes(st, samples[1..])[2 * k]
            && b[4 + k] / 16 == Codes(st, samples[1..])[2 * k + 1]
  {
    hide StepAt, Codes, Pack;
    PackedAt(Codes(State(samples[0], index), samples[1..]), k);
  }

  /** Each decoded sample is close to the one sent, unless the encoder was out of range just before it. */
  lemma {:induction false} TrajectoryIsClose(st: State, samples: seq<s16>, k: nat)
    requires k < |samples|
    ensures var before := StateAfter(st, samples[..k]);
            || Overloaded(before, samples[k])
            || 8 * Abs(samples[k] as int - Trajectory(st, samples)[k] as int) <= StepAt(before.index) + 10
    decreases |samples|
  {
    hide StepAt;
    if k == 0 {
      StepError(st, samples[0]);
    } else {
      TrajectoryIsClose(Follow(st, samples[0]), samples[1..], k - 1);
      assert samples[..k][0] == samples[0] && samples[..k][1..] == samples[1..][..k - 1];
    }
  }

  // ---- whole blocks as PCM arrives ----

  function SampleAt(pcm: bytes, i: nat): s16
    requires 2 * i + 2 <= |pcm|
  {
    FromBits(GetLE16(pcm, 2 * i))
  }

  function SamplesOf(pcm: bytes, n: nat): (r: seq<s16>)
    requires 2 * n <= |pcm|
    ensures |r| == n
    ensures forall i | 0 <= i < n :: r[i] == SampleAt(pcm, i)
  {
    seq(n, i requires 0 <= i < n => SampleAt(pcm, i))
  }

  /** Samples per block for blocks of `dataBytes` code bytes. */
  function SamplesPerBlock(dataBytes: nat): nat { 2 * dataBytes + 1 }

  datatype Encoder = Encoder(index: Index, pending: bytes)

  function IndexAfter(index: Index, samples: seq<s16>): Index
    requires samples != []
  {
    StateAfter(State(samples[0], index), samples[1..]).index
  }

  /** The pending bytes hold a whole block. */
  predicate Ready(dataBytes: nat, e: Encoder) {
    |e.pending| >= 2 * SamplesPerBlock(dataBytes)
  }

  function FirstSamples(dataBytes: nat, e: Encoder): (r: seq<s16>)
    requires Ready(dataBytes, e)
    ensures |r| == SamplesPerBlock(dataBytes)
  {
    SamplesOf(e.pending, SamplesPerBlock(dataBytes))
  }

  function Rest(dataBytes: nat, e: Encoder): Encoder
    requires Ready(dataBytes, e)
  {
    Encoder(IndexAfter(e.index, FirstSamples(dataBytes, e)), e.pending[2 * SamplesPerBlock(dataBytes)..])
  }

  /** Every block that is complete, and what is left pending. */
  function Drain(dataBytes: nat, e: Encoder): (seq<bytes>, Encoder)
    decreases |e.pending|
  {
    if !Ready(dataBytes, e) then ([], e)
    else
      var (blocks, left) := Drain(dataBytes, Rest(dataBytes, e));
      ([EncodedBlock(e.index, FirstSamples(dataBytes, e))] + blocks, left)
  }

  function Given(e: Encoder, pcm: bytes): Encoder { e.(pending := e.pending + pcm) }

  predicate DrainsAlike(dataBytes: nat, e: Encoder, more: bytes) {
    var (first, left) := Drain(dataBytes, e);
    var (second, left') := Drain(dataBytes, Given(left, more));
    Drain(dataBytes, Given(e, more)) == (first + second, left')
  }

  lemma FirstBlockUnchangedByMore(dataBytes: nat, e: Encoder, more: bytes)
    requires Ready(dataBytes, e)
    ensures FirstSamples(dataBytes, Given(e, more)) == FirstSamples(dataBytes, e)
    ensures Rest(dataBytes, Given(e, more)) == Given(Rest(dataBytes, e), more)
  {
    var n := SamplesPerBlock(dataBytes);
    forall i | 0 <= i < n ensures SampleAt(e.pending + more, i) == SampleAt(e.pending, i) {}
    assert (e.pending + more)[2 * n..] == e.pending[2 * n..] + more;
  }

  /** Pushing a and then b yields the same blocks, the same step index and the same tail as pushing a + b. */
  lemma {:induction false} DrainIsSegmentationIndependent(dataBytes: nat, e: Encoder, more: bytes)
    ensures DrainsAlike(dataBytes, e, more)
    decreases |e.pending|
  {
    hide EncodedBlock, IndexAfter, FirstSamples;
    if Ready(dataBytes, e) {
      FirstBlockUnchangedByMore(dataBytes, e, more);
      DrainIsSegmentationIndependent(dataBytes, Rest(dataBytes, e), more);
      var (first, left) := Drain(dataBytes, Rest(dataBytes, e));
      var front := [EncodedBlock(e.index, FirstSamples(dataBytes, e))];
      var second := Drain(dataBytes, Given(left, more)).0;
      assert front + (first + second) == (front + first) + second;
    } else {
      assert [] + Drain(dataBytes, Given(e, more)).0 == Drain(dataBytes, Given(e, more)).0;
    }
  }

  function DrainEach(dataBytes: nat, e: Encoder, chunks: seq<bytes>): (seq<bytes>, Encoder)
    decreases |chunks|
  {
    if chunks == [] then ([], e)
    else
      var (first, left) := Drain(dataBytes, Given(e, chunks[0]));
      var (rest, left') := DrainEach(dataBytes, left, chunks[1..]);
      (first + rest, left')
  }

  lemma {:induction false} DrainDrains(dataBytes: nat, e: Encoder)
    ensures !Ready(dataBytes, Drain(dataBytes, e).1)
    decreases |e.pending|
  {
    if Ready(dataBytes, e) { DrainDrains(dataBytes, Rest(dataBytes, e)); }
  }

  /** n pieces of this size come off the front, and the rest is less than one more. */
  predicate CutInto(all: bytes, n: nat, size: nat, rest: bytes) {
    |all| == n * size + |rest| && rest == all[|all| - |rest|..] && |rest| < size
  }

  lemma OnePieceMore(all: bytes, n: nat, size: nat, rest: bytes)
    requires size <= |all| && CutInto(all[size..], n, size, rest)
    ensures CutInto(all, n + 1, size, rest)
  {
    assert (n + 1) * size == n * size + size;
  }

  /** Every block is sent as soon as its samples are there, two code samples to a byte and one in the header: all of the
      pending bytes go into the blocks, but for less than one block at the end. */
  lemma {:induction false} OnlyPartOfABlockWaits(dataBytes: nat, e: Encoder)
    ensures var (blocks, left) := Drain(dataBytes, e);
            && CutInto(e.pending, |blocks|, 2 * (2 * dataBytes + 1), left.pending)
            && forall b | b in blocks :: |b| == 4 + dataBytes
    decreases |e.pending|
  {
    hide EncodedBlock, IndexAfter, FirstSamples, CutInto;
    if Ready(dataBytes, e) {
      OnlyPartOfABlockWaits(dataBytes, Rest(dataBytes, e));
      var (blocks, left) := Drain(dataBytes, Rest(dataBytes, e));
      OnePieceMore(e.pending, |blocks|, 2 * (2 * dataBytes + 1), left.pending);
    } else {
      NothingCut(e.pending, 2 * (2 * dataBytes + 1));
    }
  }

  lemma NothingCut(all: bytes, size: nat)
    requires |all| < size
    ensures CutInto(all, 0, size, all)
  {
  }

  /** However the microphone delivers the samples, the camera gets the same blocks. */
  lemma {:induction false} BlocksDependOnlyOnTheSamples(dataBytes: nat, e: Encoder, chunks: seq<bytes>)
    requires !Ready(dataBytes, e)
    ensures DrainEach(dataBytes, e, chunks) == Drain(dataBytes, Given(e, Flatten(chunks)))
    decreases |chunks|
  {
    if chunks == [] {
      assert Given(e, []) == e;
    } else {
      DrainDrains(dataBytes, Given(e, chunks[0]));
      BlocksDependOnlyOnTheSamples(dataBytes, Drain(dataBytes, Given(e, chunks[0])).1, chunks[1..]);
      DrainIsSegmentationIndependent(dataBytes, Given(e, chunks[0]), Flatten(chunks[1..]));
      assert Given(Given(e, chunks[0]), Flatten(chunks[1..])) == Given(e, Flatten(chunks));
    }
  }

  /** The block encodes the samples that start at sample i of the PCM, and decodes to the first of them and then
      exactly the predictors the encoder tracked over the others. */
  predicate RestartsAt(dataBytes: nat, index: Index, block: bytes, pcm: bytes, i: nat) {
    var n := SamplesPerBlock(dataBytes);
    2 * (i + n) <= |pcm|
    && var s := SamplesOf(pcm[2 * i..], n);
    && block == EncodedBlock(index, s)
    && DecodedBlock(block) == [s[0]] + Trajectory(State(s[0], index), s[1..])
  }

  lemma FirstBlockRestarts(dataBytes: nat, e: Encoder)
    requires dataBytes >= 1 && Ready(dataBytes, e)
    ensures RestartsAt(dataBytes, e.index, EncodedBlock(e.index, FirstSamples(dataBytes, e)), e.pending, 0)
  {
    hide EncodedBlock, DecodedBlock, StepAt, SampleAt, Trajectory;
    BlockDecodesToTheTrajectory(e.index, FirstSamples(dataBytes, e));
    assert e.pending[0..] == e.pending;
  }

  lemma RestartsLater(dataBytes: nat, index: Index, block: bytes, pcm: bytes, rest: bytes, i: nat)
    requires 2 * SamplesPerBlock(dataBytes) + |rest| == |pcm| && rest == pcm[|pcm| - |rest|..]
    requires RestartsAt(dataBytes, index, block, rest, i)
    ensures RestartsAt(dataBytes, index, block, pcm, i + SamplesPerBlock(dataBytes))
  {
    hide EncodedBlock, DecodedBlock, StepAt, SampleAt, Trajectory;
    assert rest[2 * i..] == pcm[2 * (i + SamplesPerBlock(dataBytes))..];
  }

  /** Block k stands for samples k*n to (k+1)*n of the PCM, and a receiver that starts there rebuilds what the
      encoder tracked: no drift survives a block boundary. */
  lemma {:induction false} EveryBlockRestartsExactly(dataBytes: nat, e: Encoder, k: nat) returns (index: Index)
    requires dataBytes >= 1 && k < |Drain(dataBytes, e).0|
    ensures k == 0 ==> index == e.index
    ensures RestartsAt(dataBytes, index, Drain(dataBytes, e).0[k], e.pending, k * SamplesPerBlock(dataBytes))
    decreases |e.pending|
  {
    hide EncodedBlock, IndexAfter, DecodedBlock, StepAt, SampleAt, RestartsAt, Trajectory, FirstSamples;
    var n := SamplesPerBlock(dataBytes);
    if k == 0 {
      index := e.index;
      FirstBlockRestarts(dataBytes, e);
    } else {
      index := EveryBlockRestartsExactly(dataBytes, Rest(dataBytes, e), k - 1);
      RestartsLater(dataBytes, index, Drain(dataBytes, e).0[k], e.pending, Rest(dataBytes, e).pending, (k - 1) * n);
    }
  }
}
