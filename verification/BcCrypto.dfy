/**
The two ciphers of the Baichuan protocol. AES itself is a parameter; what is modelled is how
CFB mode (NIST SP 800-38A, section 6.3, with a short last segment) and the XOR cipher use it.
 */
module BcCrypto {
  import opened Arithmetic
  import opened Sequences
  import opened Bytes

  type Block = b: bytes | |b| == 16 witness seq(16, _ => 0)

  /** The block cipher: a key and a block give a block. Nothing is assumed about it. */
  type BlockCipher = (bytes, Block) -> Block

  const XOR_KEY: bytes := [0x1F, 0x2D, 0x3C, 0x4B, 0x5A, 0x69, 0x78, 0xFF]

  /** ASCII "0123456789abcdef". */
  const AES_IV: Block :=
    [0x30, 0x31, 0x32, 0x33, 0x34, 0x35, 0x36, 0x37, 0x38, 0x39, 0x61, 0x62, 0x63, 0x64, 0x65, 0x66]

  // ---- the XOR cipher ----

  function XorCryptAt(b: byte, i: nat, offset: byte): byte {
    Xor(Xor(b, XOR_KEY[(offset as int + i) % 8]), offset)
  }

  function XorCrypt(input: bytes, offset: byte): (out: bytes)
    ensures |out| == |input|
  {
    seq(|input|, i requires 0 <= i < |input| => XorCryptAt(input[i], i, offset))
  }

  /** Encrypting and decrypting are the same operation, whatever the channel offset. */
  lemma XorCryptIsItsOwnInverse(input: bytes, offset: byte)
    ensures XorCrypt(XorCrypt(input, offset), offset) == input
  {
    forall i | 0 <= i < |input| ensures XorCryptAt(XorCryptAt(input[i], i, offset), i, offset) == input[i] {
      var key := XOR_KEY[(offset as int + i) % 8];
      XorSwaps(Xor(input[i], key), offset, key);
      XorUndoes(input[i], key);
      XorUndoes(input[i], offset);
    }
  }

  /** Each byte is combined with the byte of the eight-byte key at its position, counted from the channel offset, and
      with that offset: `half` is the value in between. */
  lemma XorCryptByByte(input: bytes, offset: byte, i: nat) returns (half: byte)
    requires i < |input|
    ensures IsXor(half, input[i], [0x1F, 0x2D, 0x3C, 0x4B, 0x5A, 0x69, 0x78, 0xFF][(offset as int + i) % 8])
    ensures IsXor(XorCrypt(input, offset)[i], half, offset)
  {
    hide IsXor, Xor;
    half := Xor(input[i], XOR_KEY[(offset as int + i) % 8]);
    XorIsBitByBit(input[i], XOR_KEY[(offset as int + i) % 8]);
    XorIsBitByBit(half, offset);
  }

  method XorCryptLoop(input: bytes, offset: byte) returns (out: bytes)
    ensures out == XorCrypt(input, offset)
  {
    var o := new byte[|input|];
    var i := 0;
    while i < |input|
      invariant 0 <= i <= |input|
      invariant forall k | 0 <= k < i :: o[k] == XorCryptAt(input[k], k, offset)
    {
      var key := XOR_KEY[(offset as int + i) % 8];
      o[i] := Xor(Xor(input[i], key), offset);
      i := i + 1;
    }
    out := o[..];
  }

  // ---- CFB ----

  function XorAll(a: bytes, b: bytes): (r: bytes)
    requires |a| <= |b|
    ensures |r| == |a|
  {
    seq(|a|, i requires 0 <= i < |a| => Xor(a[i], b[i]))
  }

  lemma XorAllUndoes(a: bytes, b: bytes)
    requires |a| <= |b|
    ensures XorAll(XorAll(a, b), b) == a
  {
    forall i | 0 <= i < |a| ensures Xor(Xor(a[i], b[i]), b[i]) == a[i] { XorUndoes(a[i], b[i]); }
  }

  /** The feedback register after one segment: the ciphertext, if the segment was a full block. */
  function NextFeedback(feedback: Block, segment: bytes, result: bytes, decrypt: bool): Block
    requires |segment| == |result| <= 16
  {
    if |segment| < 16 then feedback else if decrypt then segment else result
  }

  function Cfb(e: Block -> Block, feedback: Block, input: bytes, decrypt: bool): (out: bytes)
    ensures |out| == |input|
    decreases |input|
  {
    if input == [] then []
    else
      var segment := input[..Min(16, |input|)];
      var result := XorAll(segment, e(feedback));
      result + Cfb(e, NextFeedback(feedback, segment, result, decrypt), input[|segment|..], decrypt)
  }

  /** Each direction undoes the other, from the same register, for every length and every block function. */
  lemma {:induction false} CfbUndoes(e: Block -> Block, feedback: Block, input: bytes, decrypt: bool)
    ensures Cfb(e, feedback, Cfb(e, feedback, input, decrypt), !decrypt) == input
    decreases |input|
  {
    hide XorAll, Xor;
    if input != [] {
      var segment := input[..Min(16, |input|)];
      var result := XorAll(segment, e(feedback));
      var next := NextFeedback(feedback, segment, result, decrypt);
      var rest := Cfb(e, next, input[|segment|..], decrypt);
      var out := Cfb(e, feedback, input, decrypt);
      assert out[..Min(16, |out|)] == result && out[|result|..] == rest;
      XorAllUndoes(segment, e(feedback));
      CfbUndoes(e, next, input[|segment|..], decrypt);
      assert segment + input[|segment|..] == input;
    }
  }

  lemma XorAllOfPrefix(a: bytes, b: bytes, n: nat)
    requires n <= |a| <= |b|
    ensures XorAll(a[..n], b) == XorAll(a, b)[..n]
  {
    hide Xor;
  }

  lemma OneSegment(e: Block -> Block, feedback: Block, input: bytes, decrypt: bool)
    requires |input| <= 16
    ensures Cfb(e, feedback, input, decrypt) == XorAll(input, e(feedback))
  {
    hide XorAll;
    assert input[..|input|] == input && input[|input|..] == [];
  }

  lemma FrontOf(a: bytes, b: bytes, n: nat)
    requires n <= |a|
    ensures (a + b)[..n] == a[..n]
  {
  }

  lemma ShortPrefix(e: Block -> Block, feedback: Block, input: bytes, decrypt: bool, n: nat)
    requires n <= |input| && n <= 16
    ensures Cfb(e, feedback, input[..n], decrypt) == Cfb(e, feedback, input, decrypt)[..n]
  {
    hide XorAll;
    if n > 0 {
      var segment := input[..Min(16, |input|)];
      var result := XorAll(segment, e(feedback));
      OneSegment(e, feedback, input[..n], decrypt);
      assert segment[..n] == input[..n];
      XorAllOfPrefix(segment, e(feedback), n);
      FrontOf(result, Cfb(e, NextFeedback(feedback, segment, result, decrypt), input[|segment|..], decrypt), n);
    }
  }

  /** Causality: the transform of a prefix is the prefix of the transform. */
  lemma {:induction false} CfbOfPrefix(e: Block -> Block, feedback: Block, input: bytes, decrypt: bool, n: nat)
    requires n <= |input|
    ensures Cfb(e, feedback, input[..n], decrypt) == Cfb(e, feedback, input, decrypt)[..n]
    decreases |input|
  {
    hide XorAll;
    if n <= 16 {
      ShortPrefix(e, feedback, input, decrypt, n);
    } else {
      var segment := input[..16];
      var result := XorAll(segment, e(feedback));
      var next := NextFeedback(feedback, segment, result, decrypt);
      CfbOfPrefix(e, next, input[16..], decrypt, n - 16);
      assert input[..n][..16] == segment && input[..n][16..] == input[16..][..n - 16];
    }
  }

  /** The j-th segment, whole or, at the end, short. */
  function SegmentOf(data: bytes, j: nat): bytes
    requires 16 * j < |data|
  {
    data[16 * j..16 * j + Min(16, |data| - 16 * j)]
  }

  lemma {:induction false} CfbBySegment(e: Block -> Block, start: Block, input: bytes, decrypt: bool, j: nat)
    requires 16 * j < |input|
    ensures var out := Cfb(e, start, input, decrypt);
            var cipher := if decrypt then input else out;
            SegmentOf(out, j) == XorAll(SegmentOf(input, j), e(if j == 0 then start else SegmentOf(cipher, j - 1)))
    decreases j
  {
    hide Xor, XorAll;
    var out := Cfb(e, start, input, decrypt);
    var segment := input[..Min(16, |input|)];
    var result := XorAll(segment, e(start));
    if j == 0 {
      FrontOf(result, out[|segment|..], |segment|);
      assert out == result + out[|segment|..];
    } else {
      var next := NextFeedback(start, segment, result, decrypt);
      var rest := Cfb(e, next, input[16..], decrypt);
      CfbBySegment(e, next, input[16..], decrypt, j - 1);
      SegmentShifts(input, j);
      SegmentShifts(out, j);
      if j > 1 {
        SegmentShifts(input, j - 1);
        SegmentShifts(out, j - 1);
      } else {
        FrontOf(result, rest, 16);
      }
    }
  }

  /** The standard's equations, byte by byte: each is the exclusive or of the input byte and of the byte at its place in
      the enciphered previous ciphertext segment, the start value standing in for the one before the first. */
  lemma CfbMatchesTheStandard(e: Block -> Block, start: Block, input: bytes, decrypt: bool, i: nat)
    requires i < |input|
    ensures var out := Cfb(e, start, input, decrypt);
            var cipher := if decrypt then input else out;
            var first := i - i % 16;
            IsXor(out[i], input[i], e(if first == 0 then start else cipher[first - 16..first])[i % 16])
  {
    hide Xor, IsXor, Cfb;
    var j, out := i / 16, Cfb(e, start, input, decrypt);
    var cipher := if decrypt then input else out;
    CfbBySegment(e, start, input, decrypt, j);
    var stream := e(if j == 0 then start else SegmentOf(cipher, j - 1));
    assert SegmentOf(out, j)[i % 16] == out[i] && SegmentOf(input, j)[i % 16] == input[i];
    XorIsBitByBit(input[i], stream[i % 16]);
  }

  lemma SegmentShifts(data: bytes, j: nat)
    requires j > 0 && 16 * j < |data|
    ensures SegmentOf(data[16..], j - 1) == SegmentOf(data, j)
  {
  }

  /** AES-128-CFB with the fixed start register; a short key or an empty input leaves the input as it is. */
  function AesCfb(cipher: BlockCipher, key: bytes, input: bytes, decrypt: bool): (out: bytes)
    ensures |out| == |input|
  {
    if input == [] || |key| < 16 then input else Cfb(b => cipher(key, b), AES_IV, input, decrypt)
  }

  /** With a key of 16 bytes or more this is that mode, started from the ASCII digits 0 to 9 and letters a to f; with a
      shorter one the input comes back. */
  lemma AesCfbByByte(cipher: BlockCipher, key: bytes, input: bytes, decrypt: bool, i: nat)
    requires i < |input|
    ensures var out := AesCfb(cipher, key, input, decrypt);
            var sealed, first := if decrypt then input else out, i - i % 16;
            if |key| < 16 then out == input
            else IsXor(out[i], input[i],
                       cipher(key, if first == 0 then AES_IV else sealed[first - 16..first])[i % 16])
    ensures forall k | 0 <= k < 16 :: AES_IV[k] == "0123456789abcdef"[k] as int
  {
    hide IsXor, Cfb;
    if |key| >= 16 { CfbMatchesTheStandard(b => cipher(key, b), AES_IV, input, decrypt, i); }
  }

  lemma AesCfbUndoes(cipher: BlockCipher, key: bytes, input: bytes, decrypt: bool)
    ensures AesCfb(cipher, key, AesCfb(cipher, key, input, decrypt), !decrypt) == input
  {
    if input != [] && |key| >= 16 {
      CfbUndoes(b => cipher(key, b), AES_IV, input, decrypt);
    }
  }

  lemma AesCfbOfPrefix(cipher: BlockCipher, key: bytes, input: bytes, decrypt: bool, n: nat)
    requires n <= |input|
    ensures AesCfb(cipher, key, input[..n], decrypt) == AesCfb(cipher, key, input, decrypt)[..n]
  {
    if n > 0 && |key| >= 16 {
      CfbOfPrefix(b => cipher(key, b), AES_IV, input, decrypt, n);
    }
  }

  lemma CfbStep(e: Block -> Block, feedback: Block, input: bytes, decrypt: bool, done: bytes)
    requires input != []
    ensures var segment := input[..Min(16, |input|)];
            var result := XorAll(segment, e(feedback));
            var next := NextFeedback(feedback, segment, result, decrypt);
            done + Cfb(e, feedback, input, decrypt) == (done + result) + Cfb(e, next, input[|segment|..], decrypt)
  {
    hide XorAll;
    var segment := input[..Min(16, |input|)];
    var result := XorAll(segment, e(feedback));
    Associate(done, result, Cfb(e, NextFeedback(feedback, segment, result, decrypt), input[|segment|..], decrypt));
  }

  /** The inner loop: one segment against the keystream. */
  method XorSegment(input: bytes, off: nat, n: nat, keystream: Block, o: array<byte>)
    requires off + n <= |input| == o.Length && n <= 16
    modifies o
    ensures o[..off + n] == old(o[..off]) + XorAll(input[off..][..n], keystream)
  {
    var j := 0;
    while j < n
      invariant 0 <= j <= n
      invariant forall k | 0 <= k < off :: o[k] == old(o[k])
      invariant forall k | 0 <= k < j :: o[off + k] == Xor(input[off + k], keystream[k])
    {
      o[off + j] := Xor(input[off + j], keystream[j]);
      j := j + 1;
    }
  }

  lemma Slices(input: bytes, off: nat, n: nat)
    requires off + n <= |input|
    ensures input[off..][..n] == input[off..off + n]
    ensures input[off..][n..] == input[off + n..]
  {
  }

  /** One turn of the outer loop: the bytes up to off were done, now those up to off + n are. */
  lemma SegmentDone(e: Block -> Block, feedback: Block, input: bytes, decrypt: bool, off: nat, n: nat,
      done: bytes, now: bytes)
    requires off < |input| && n == Min(16, |input| - off) && |done| == off
    requires now == done + XorAll(input[off..][..n], e(feedback))
    ensures |now| == off + n
    ensures done + Cfb(e, feedback, input[off..], decrypt)
         == now + Cfb(e, NextFeedback(feedback, input[off..off + n], now[off..], decrypt), input[off + n..], decrypt)
  {
    hide Cfb, XorAll;
    CfbStep(e, feedback, input[off..], decrypt, done);
    Slices(input, off, n);
  }

  method AesCfbLoop(cipher: BlockCipher, key: bytes, input: bytes, decrypt: bool) returns (out: bytes)
    ensures out == AesCfb(cipher, key, input, decrypt)
  {
    hide Cfb, XorAll, Xor, XorBits;
    if input == [] || |key| < 16 {
      return input;
    }
    ghost var e := (b: Block) => cipher(key, b);
    var o := new byte[|input|];
    var feedback: Block := AES_IV;
    var off := 0;
    assert input[0..] == input && o[..0] == [];
    while off < |input|
      invariant 0 <= off <= |input|
      invariant o[..off] + Cfb(e, feedback, input[off..], decrypt) == Cfb(e, AES_IV, input, decrypt)
    {
      var keystream := cipher(key, feedback);
      var n := Min(16, |input| - off);
      ghost var done := o[..off];
      XorSegment(input, off, n, keystream, o);
      SegmentDone(e, feedback, input, decrypt, off, n, done, o[..off + n]);
      assert o[off..off + n] == o[..off + n][off..];
      if n == 16 {
        feedback := if decrypt then input[off..off + n] else o[off..off + n];
      }
      off := off + n;
    }
    out := o[..];
    assert out == o[..off];
  }
}
