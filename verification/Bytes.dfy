/** Byte strings, little-endian fields and the exclusive-or of bytes. */
module Bytes {
  import opened Arithmetic

  type byte = b: int | 0 <= b < 256
  type bytes = seq<byte>
  type u16 = v: int | 0 <= v < 0x1_0000
  type u32 = v: int | 0 <= v < 0x1_0000_0000

  function GetLE16(s: bytes, at: nat): u16
    requires at + 2 <= |s|
  {
    s[at] as int + 0x100 * s[at + 1] as int
  }

  function GetLE32(s: bytes, at: nat): u32
    requires at + 4 <= |s|
  {
    s[at] as int + 0x100 * s[at + 1] as int + 0x1_0000 * s[at + 2] as int + 0x100_0000 * s[at + 3] as int
  }

  function PutLE16(v: u16): (s: bytes)
    ensures |s| == 2 && GetLE16(s, 0) == v
  {
    [v % 256, v / 256]
  }

  function PutLE32(v: u32): (s: bytes)
    ensures |s| == 4 && GetLE32(s, 0) == v
  {
    PutLE16(v % 0x1_0000) + PutLE16(v / 0x1_0000)
  }

  // ---- fields inside longer byte strings ----

  lemma LE16UnchangedByMore(b: bytes, more: bytes, at: nat)
    requires at + 2 <= |b|
    ensures GetLE16(b + more, at) == GetLE16(b, at)
  {
  }

  lemma LE32UnchangedByMore(b: bytes, more: bytes, at: nat)
    requires at + 4 <= |b|
    ensures GetLE32(b + more, at) == GetLE32(b, at)
  {
  }

  lemma SliceUnchangedByMore(b: bytes, more: bytes, lo: nat, hi: nat)
    requires lo <= hi <= |b|
    ensures (b + more)[lo..hi] == b[lo..hi]
    ensures (b + more)[lo..] == b[lo..] + more
  {
  }

  lemma LE32Behind(front: bytes, b: bytes, at: nat)
    requires at + 4 <= |b|
    ensures GetLE32(front + b, |front| + at) == GetLE32(b, at)
  {
  }

  lemma LE16Behind(front: bytes, b: bytes, at: nat)
    requires at + 2 <= |b|
    ensures GetLE16(front + b, |front| + at) == GetLE16(b, at)
  {
  }

  /** Three 32-bit values in a row, and what follows them. */
  lemma ThreeLE32(x: u32, y: u32, z: u32, after: bytes)
    ensures var b := PutLE32(x) + (PutLE32(y) + (PutLE32(z) + after));
            |b| == 12 + |after| && GetLE32(b, 0) == x && GetLE32(b, 4) == y && GetLE32(b, 8) == z
  {
    hide PutLE32, GetLE32;
    var b2 := PutLE32(z) + after;
    var b1 := PutLE32(y) + b2;
    LE32UnchangedByMore(PutLE32(x), b1, 0);
    LE32UnchangedByMore(PutLE32(y), b2, 0);
    LE32UnchangedByMore(PutLE32(z), after, 0);
    LE32Behind(PutLE32(x), b1, 0);
    LE32Behind(PutLE32(x), b1, 4);
    LE32Behind(PutLE32(y), b2, 0);
  }

  lemma ThreeLE16(x: u16, y: u16, z: u16)
    ensures var b := PutLE16(x) + (PutLE16(y) + PutLE16(z));
            |b| == 6 && GetLE16(b, 0) == x && GetLE16(b, 2) == y && GetLE16(b, 4) == z
  {
    hide PutLE16, GetLE16;
    var b1 := PutLE16(y) + PutLE16(z);
    LE16UnchangedByMore(PutLE16(x), b1, 0);
    LE16UnchangedByMore(PutLE16(y), PutLE16(z), 0);
    LE16Behind(PutLE16(x), b1, 0);
    LE16Behind(PutLE16(x), b1, 2);
    LE16Behind(PutLE16(y), PutLE16(z), 0);
  }

  /** left(n): the first n bytes, or all of them. */
  function Left(s: bytes, n: nat): (r: bytes)
    ensures r <= s && |r| == if n < |s| then n else |s|
  {
    if n >= |s| then s else s[..n]
  }

  /** mid(n): everything from position n on. */
  function Mid(s: bytes, n: nat): (r: bytes)
    ensures Left(s, n) + r == s
  {
    if n >= |s| then [] else s[n..]
  }

  function Flatten<T>(parts: seq<seq<T>>): seq<T> {
    if parts == [] then [] else parts[0] + Flatten(parts[1..])
  }

  /** Exclusive or, bit by bit, of two numbers of n bits. */
  function XorBits(a: nat, b: nat, n: nat): nat {
    if n == 0 then 0
    else
      var rest := XorBits(a / 2, b / 2, n - 1);
      if a % 2 == b % 2 then 2 * rest else 2 * rest + 1
  }

  function Pow2(n: nat): nat { if n == 0 then 1 else 2 * Pow2(n - 1) }

  lemma XorBitsStep(a: nat, b: nat, n: nat)
    requires n > 0
    ensures XorBits(a, b, n) / 2 == XorBits(a / 2, b / 2, n - 1)
    ensures XorBits(a, b, n) % 2 == if a % 2 == b % 2 then 0 else 1
  {
  }

  lemma {:induction false} XorBitsUndoes(a: nat, b: nat, n: nat)
    requires a < Pow2(n)
    ensures XorBits(a, b, n) < Pow2(n)
    ensures XorBits(XorBits(a, b, n), b, n) == a
  {
    if n > 0 {
      XorBitsUndoes(a / 2, b / 2, n - 1);
      XorBitsStep(a, b, n);
    }
  }

  function Xor(a: byte, b: byte): byte {
    XorBitsUndoes(a, b, 8);
    XorBits(a, b, 8)
  }

  lemma {:induction false} XorBitsSwaps(a: nat, b: nat, d: nat, n: nat)
    ensures XorBits(XorBits(a, b, n), d, n) == XorBits(XorBits(a, d, n), b, n)
  {
    if n > 0 {
      XorBitsSwaps(a / 2, b / 2, d / 2, n - 1);
      XorBitsStep(a, b, n);
      XorBitsStep(a, d, n);
    }
  }

  lemma XorSwaps(a: byte, b: byte, d: byte)
    ensures Xor(Xor(a, b), d) == Xor(Xor(a, d), b)
  {
    XorBitsSwaps(a, b, d, 8);
  }

  lemma XorUndoes(a: byte, b: byte)
    ensures Xor(Xor(a, b), b) == a
  {
    XorBitsUndoes(a, b, 8);
  }

  /** Of the bits with this place value, that of r is one exactly if those of a and b differ. */
  predicate BitDiffers(r: byte, a: byte, b: byte, place: nat)
    requires place > 0
  {
    r / place % 2 == if a / place % 2 == b / place % 2 then 0 else 1
  }

  /** r is the exclusive or of a and b in each of its eight bits. */
  predicate IsXor(r: byte, a: byte, b: byte) {
    && BitDiffers(r, a, b, 1) && BitDiffers(r, a, b, 2) && BitDiffers(r, a, b, 4) && BitDiffers(r, a, b, 8)
    && BitDiffers(r, a, b, 16) && BitDiffers(r, a, b, 32) && BitDiffers(r, a, b, 64) && BitDiffers(r, a, b, 128)
  }

  /** Bit k of a number. */
  function BitAt(v: nat, k: nat): (bit: nat) {
    if k == 0 then v % 2 else BitAt(v / 2, k - 1)
  }

  lemma {:induction false} XorBitsAt(a: nat, b: nat, n: nat, k: nat)
    requires k < n
    ensures BitAt(XorBits(a, b, n), k) == if BitAt(a, k) == BitAt(b, k) then 0 else 1
  {
    XorBitsStep(a, b, n);
    if k > 0 { XorBitsAt(a / 2, b / 2, n - 1, k - 1); }
  }

  lemma HalfThenDivide(v: nat, d: nat)
    requires d > 0
    ensures v / 2 / d == v / (2 * d)
  {
    var q, r := v / 2 / d, v / 2 % d;
    assert v == q * (2 * d) + (2 * r + v % 2);
    DivisionIsUnique(v, 2 * d, q, 2 * r + v % 2);
  }

  lemma {:induction false} BitByPlace(v: nat, k: nat)
    ensures Pow2(k) > 0 && BitAt(v, k) == v / Pow2(k) % 2
  {
    if k > 0 {
      BitByPlace(v / 2, k - 1);
      HalfThenDivide(v, Pow2(k - 1));
    }
  }

  lemma XorAt(a: byte, b: byte, k: nat)
    requires k < 8
    ensures Pow2(k) > 0 && BitDiffers(Xor(a, b), a, b, Pow2(k))
  {
    hide XorBits;
    XorBitsAt(a, b, 8, k);
    BitByPlace(a, k);
    BitByPlace(b, k);
    BitByPlace(Xor(a, b), k);
  }

  /** What exclusive or means, bit by bit. */
  lemma XorIsBitByBit(a: byte, b: byte)
    ensures IsXor(Xor(a, b), a, b)
  {
    hide Xor, BitDiffers;
    assert Pow2(4) == 16;
    assert Pow2(7) == 128;
    forall k | 0 <= k < 8 ensures Pow2(k) > 0 && BitDiffers(Xor(a, b), a, b, Pow2(k)) { XorAt(a, b, k); }
    assert BitDiffers(Xor(a, b), a, b, Pow2(0)) && BitDiffers(Xor(a, b), a, b, Pow2(1));
    assert BitDiffers(Xor(a, b), a, b, Pow2(2)) && BitDiffers(Xor(a, b), a, b, Pow2(3));
    assert BitDiffers(Xor(a, b), a, b, Pow2(4)) && BitDiffers(Xor(a, b), a, b, Pow2(5));
    assert BitDiffers(Xor(a, b), a, b, Pow2(6)) && BitDiffers(Xor(a, b), a, b, Pow2(7));
  }
}
