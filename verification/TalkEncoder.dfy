/** The talk codec as the program runs it: encoder objects that carry their state from call to call. */
module TalkEncoderObject {
  import opened Bytes
  import opened ImaCodec
  import opened TalkBlocks

  class ImaAdpcm {
    const dataBytes: nat
    var predictor: s16
    var index: Index

    constructor (dataBytes: nat)
      ensures this.dataBytes == dataBytes && predictor == 0
      ensures index == 0
    {
      this.dataBytes, predictor, index := dataBytes, 0, 0;
    }

    method EncodePair(a: s16, b: s16) returns (packed: byte)
      modifies this
      ensures var st := State(old(predictor), old(index));
              && packed == CodeFor(st, a) as int + 16 * CodeFor(Follow(st, a), b) as int
              && State(predictor, index) == Follow(Follow(st, a), b)
    {
      hide StepAt, Follow, CodeFor;
      var lo, hi;
      lo, predictor, index := EncodeSample(a, predictor, index);
      hi, predictor, index := EncodeSample(b, predictor, index);
      packed := lo as int + 16 * hi as int;
    }

    /** Encode exactly one block's worth of samples. */
    method EncodeBlock(samples: seq<s16>) returns (block: bytes)
      requires |samples| == SamplesPerBlock(dataBytes)
      modifies this
      ensures block == EncodedBlock(old(index), samples)
      ensures State(predictor, index) == StateAfter(State(samples[0], old(index)), samples[1..])
    {
      hide StepAt, Follow, CodeFor, Codes, Pack, StateAfter;
      predictor := samples[0];
      ghost var start := State(predictor, index);
      block := PutLE16(Bits(predictor)) + [index, 0];
      var i := 0;
      ghost var whole := EncodedBlock(index, samples);
      assert samples[1 + 2 * 0..] == samples[1..];
      while i < dataBytes
        invariant 0 <= i <= dataBytes
        invariant block + Pack(Codes(State(predictor, index), samples[1 + 2 * i..])) == whole
        invariant StateAfter(State(predictor, index), samples[1 + 2 * i..]) == StateAfter(start, samples[1..])
      {
        ghost var before := block;
        ghost var left := samples[1 + 2 * i..];
        ghost var st := State(predictor, index);
        TwoCodes(st, left);
        assert left[0] == samples[1 + 2 * i] && left[1] == samples[2 + 2 * i]
            && left[2..] == samples[1 + 2 * (i + 1)..];
        var packed := EncodePair(samples[1 + 2 * i], samples[2 + 2 * i]);
        ghost var rest := Codes(State(predictor, index), left[2..]);
        PackTwo(CodeFor(st, left[0]), CodeFor(Follow(st, left[0]), left[1]), rest);
        block := block + [packed];
        assert before + ([packed] + Pack(rest)) == block + Pack(rest);
        i := i + 1;
      }
      assert samples[1 + 2 * i..] == [];
      NoCodes(State(predictor, index));
      assert block + [] == block;
    }
  }

  lemma TwoCodes(st: State, samples: seq<s16>)
    requires |samples| >= 2
    ensures Codes(st, samples)
         == [CodeFor(st, samples[0]), CodeFor(Follow(st, samples[0]), samples[1])]
            + Codes(Follow(Follow(st, samples[0]), samples[1]), samples[2..])
    ensures StateAfter(st, samples) == StateAfter(Follow(Follow(st, samples[0]), samples[1]), samples[2..])
  {
    hide StepAt, Follow, CodeFor;
    assert samples[1..][0] == samples[1] && samples[1..][1..] == samples[2..];
  }

  lemma PackTwo(lo: Code, hi: Code, rest: seq<Code>)
    ensures Pack([lo, hi] + rest) == [lo as int + 16 * hi as int] + Pack(rest)
  {
    var s := [lo, hi] + rest;
    assert s[0] == lo && s[1] == hi && s[2..] == rest;
  }

  /** The reference decoder. */
  method DecodeBlock(block: bytes) returns (out: seq<s16>)
    ensures out == DecodedBlock(block)
  {
    hide StepAt, Advance;
    if |block| < 5 {
      return [];
    }
    var st := State(FromBits(GetLE16(block, 0)), Clamp(block[2], 0, 88));
    out := [st.predictor];
    var i := 4;
    assert [st.predictor] + Decoded(st, Unpack(block[4..])) == DecodedBlock(block);
    while i < |block|
      invariant 4 <= i <= |block|
      invariant out + Decoded(st, Unpack(block[i..])) == DecodedBlock(block)
    {
      var lo, hi: Code := block[i] % 16, block[i] / 16;
      ghost var rest := Unpack(block[i + 1..]);
      assert block[i..][1..] == block[i + 1..];
      assert Unpack(block[i..]) == [lo, hi] + rest;
      ghost var a := Advance(st, lo);
      assert ([lo, hi] + rest)[1..] == [hi] + rest && ([hi] + rest)[1..] == rest;
      assert Decoded(st, [lo, hi] + rest)
          == [a.predictor] + ([Advance(a, hi).predictor] + Decoded(Advance(a, hi), rest));
      st := Advance(st, lo);
      out := out + [st.predictor];
      st := Advance(st, hi);
      out := out + [st.predictor];
      i := i + 1;
    }
    assert out + [] == out;
  }

  class TalkEncoder {
    const adpcm: ImaAdpcm
    var pending: bytes
    ghost var given: bytes // all PCM pushed so far
    ghost var sent: seq<bytes> // all blocks returned so far

    ghost function View(): Encoder
      reads this, adpcm
    {
      Encoder(adpcm.index, pending)
    }

    /** The object's whole life is one pass over everything it was given. */
    ghost predicate Valid()
      reads this, adpcm
    {
      Drain(adpcm.dataBytes, Encoder(0, given)) == (sent, View())
    }

    constructor (dataBytes: nat)
      ensures Valid() && fresh(adpcm)
      ensures adpcm.dataBytes == dataBytes
      ensures given == [] && sent == []
    {
      adpcm := new ImaAdpcm(dataBytes);
      pending, given, sent := [], [], [];
    }

    /** Append mono PCM; every block now complete is returned. */
    method Push(monoS16: bytes) returns (blocks: seq<bytes>)
      requires Valid()
      modifies this, adpcm
      ensures Valid() && given == old(given) + monoS16
      ensures sent == old(sent) + blocks
      ensures (blocks, View()) == Drain(adpcm.dataBytes, Given(old(View()), monoS16))
    {
      hide EncodedBlock, IndexAfter, FirstSamples, StateAfter;
      DrainIsSegmentationIndependent(adpcm.dataBytes, Encoder(0, given), monoS16);
      pending := pending + monoS16;
      ghost var goal := Drain(adpcm.dataBytes, View());
      blocks := [];
      assert [] + goal.0 == goal.0;
      while |pending| >= 2 * SamplesPerBlock(adpcm.dataBytes)
        invariant given == old(given) && sent == old(sent)
        invariant blocks + Drain(adpcm.dataBytes, View()).0 == goal.0 && Drain(adpcm.dataBytes, View()).1 == goal.1
        decreases |pending|
      {
        blocks := TakeBlock(blocks);
      }
      assert blocks + [] == blocks;
      given, sent := given + monoS16, sent + blocks;
    }

    method TakeBlock(blocks: seq<bytes>) returns (blocks': seq<bytes>)
      requires Ready(adpcm.dataBytes, View())
      modifies this`pending, adpcm
      ensures |pending| < |old(pending)|
      ensures blocks' + Drain(adpcm.dataBytes, View()).0 == blocks + Drain(adpcm.dataBytes, old(View())).0
      ensures Drain(adpcm.dataBytes, View()).1 == Drain(adpcm.dataBytes, old(View())).1
    {
      hide EncodedBlock, StateAfter;
      var n := SamplesPerBlock(adpcm.dataBytes);
      var block := adpcm.EncodeBlock(SamplesOf(pending, n));
      pending := pending[2 * n..];
      blocks' := blocks + [block];
      assert View() == old(Rest(adpcm.dataBytes, View()));
      assert blocks + ([block] + Drain(adpcm.dataBytes, View()).0) == blocks' + Drain(adpcm.dataBytes, View()).0;
    }
  }
}
