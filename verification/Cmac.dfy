/** CMAC over 16-byte blocks (sections 2.3 and 2.4 of RFC 4493) with the block cipher left open:
    subkeys as products with x in the field, the chaining definition, and what the routine
    computes in its place. */
module Cmac {
  import opened Words

  type Block = s: seq<byte> | |s| == 16 witness [0, 0, 0, 0, 0, 0, 0, 0, 0, 0, 0, 0, 0, 0, 0, 0]
  type Cipher = Block -> Block

  const ZERO: Block := [0, 0, 0, 0, 0, 0, 0, 0, 0, 0, 0, 0, 0, 0, 0, 0]

  /** The constant a carry out of the top bit is folded back with. */
  const R128: Block := [0, 0, 0, 0, 0, 0, 0, 0, 0, 0, 0, 0, 0, 0, 0, 0x87]

  function XorByte(v: byte, w: byte): byte { v ^ w }

  function Xor(a: Block, b: Block): (c: Block)
    ensures forall i :: 0 <= i < 16 ==> c[i] == XorByte(a[i], b[i])
  {
    seq(16, i requires 0 <= i < 16 => XorByte(a[i], b[i]))
  }

  // ---------- doubling a block

  /** One byte of a block shifted left by one bit; `w` is the byte after it. */
  function ShiftByte(v: byte, w: byte): byte { (v << 1) | (w >> 7) }

  /** The byte after byte `i`; the last one is followed by zeros. */
  function After(b: Block, i: nat): byte
    requires i < 16
  {
    if i < 15 then b[i + 1] else 0
  }

  function Shifted(b: Block): (c: Block)
    ensures forall i :: 0 <= i < 16 ==> c[i] == ShiftByte(b[i], After(b, i))
  {
    seq(16, i requires 0 <= i < 16 => ShiftByte(b[i], After(b, i)))
  }

  function Double(b: Block): Block {
    if b[0] & 0x80 != 0 then Xor(Shifted(b), R128) else Shifted(b)
  }

  // ---------- blocks as polynomials over the two-element field

  function Mask(j: nat): byte
    requires j < 8
  {
    if j == 0 then 1 else if j == 1 then 2 else if j == 2 then 4 else if j == 3 then 8
    else if j == 4 then 16 else if j == 5 then 32 else if j == 6 then 64 else 128
  }

  predicate BitOf(b: byte, j: nat)
    requires j < 8
  {
    b & Mask(j) != 0
  }

  /** Coefficients, that of x^0 first. */
  type Poly = s: seq<bool> | |s| == 128 witness seq(128, i => false)

  /** The first byte holds the highest coefficients, and in each byte the top bit is the highest. */
  function PolyOf(b: Block): (p: Poly)
    ensures forall k :: 0 <= k < 128 ==> p[k] == BitOf(b[15 - k / 8], k % 8)
  {
    seq(128, k requires 0 <= k < 128 => BitOf(b[15 - k / 8], k % 8))
  }

  /** x^128 + x^7 + x^2 + x + 1 */
  predicate InModulus(k: nat) { k == 0 || k == 1 || k == 2 || k == 7 || k == 128 }

  /** The product with x, before reduction. */
  function Raised(p: Poly): (s: seq<bool>) { [false] + p }

  /** The product with x modulo x^128 + x^7 + x^2 + x + 1: when the product has degree 128 the
      modulus is subtracted from it. */
  function TimesX(p: Poly): (q: Poly) {
    var s := Raised(p);
    seq(128, k requires 0 <= k < 128 => if s[128] then s[k] != InModulus(k) else s[k])
  }

  lemma ShiftBits(v: byte, w: byte, j: nat)
    requires j < 8
    ensures BitOf(ShiftByte(v, w), j) == if j == 0 then BitOf(w, 7) else BitOf(v, j - 1)
  {
  }

  lemma ZeroBits(j: nat)
    requires j < 8
    ensures !BitOf(0, j)
  {
  }

  lemma XorBits(v: byte, w: byte, j: nat)
    requires j < 8
    ensures BitOf(XorByte(v, w), j) == (BitOf(v, j) != BitOf(w, j))
  {
  }

  lemma ModulusBits(k: nat)
    requires k < 128
    ensures PolyOf(R128)[k] == InModulus(k)
  {
    if k < 8 {
      assert R128[15 - k / 8] == 0x87;
      assert k % 8 == k;
    } else {
      assert R128[15 - k / 8] == 0;
      ZeroBits(k % 8);
    }
  }

  lemma BitBelow(k: nat)
    requires 0 < k < 128
    ensures k % 8 != 0 ==> (k - 1) / 8 == k / 8 && (k - 1) % 8 == k % 8 - 1
    ensures k % 8 == 0 ==> (k - 1) / 8 == k / 8 - 1 && (k - 1) % 8 == 7
  {
  }

  /** The coefficient below x^k sits one bit lower, or at the top of the byte after. */
  lemma ShiftedPoly(b: Block, k: nat)
    requires k < 128
    ensures PolyOf(Shifted(b))[k] == Raised(PolyOf(b))[k]
  {
    hide BitOf, ShiftByte, PolyOf, Shifted;
    var i, j := 15 - k / 8, k % 8;
    ShiftBits(b[i], After(b, i), j);
    if k == 0 {
      ZeroBits(7);
    } else {
      BitBelow(k);
      assert Raised(PolyOf(b))[k] == PolyOf(b)[k - 1];
    }
  }

  /** Doubling a block multiplies its polynomial by x modulo x^128 + x^7 + x^2 + x + 1. */
  lemma DoubleIsTimesX(b: Block)
    ensures PolyOf(Double(b)) == TimesX(PolyOf(b))
  {
    var p := PolyOf(b);
    assert Raised(p)[128] == p[127] == BitOf(b[0], 7) == (b[0] & 0x80 != 0);
    hide BitOf, XorByte;
    forall k | 0 <= k < 128 ensures PolyOf(Double(b))[k] == TimesX(p)[k] {
      ShiftedPoly(b, k);
      ModulusBits(k);
      XorBits(Shifted(b)[15 - k / 8], R128[15 - k / 8], k % 8);
    }
  }

  // ---------- the definition

  function K1(e: Cipher): Block { Double(e(ZERO)) }

  function K2(e: Cipher): Block { Double(K1(e)) }

  /** Section 2.3 of RFC 4493: the subkeys are x and x squared times the encryption of zero. */
  lemma SubkeysAreProducts(e: Cipher)
    ensures PolyOf(K1(e)) == TimesX(PolyOf(e(ZERO)))
    ensures PolyOf(K2(e)) == TimesX(TimesX(PolyOf(e(ZERO))))
  {
    hide Double, TimesX, PolyOf;
    DoubleIsTimesX(e(ZERO));
    DoubleIsTimesX(K1(e));
  }

  /** A short tail closed by a one bit and filled with zeros. */
  function Padded(m: seq<byte>): Block
    requires |m| < 16
  {
    m + [0x80] + ZERO[..15 - |m|]
  }

  /** The last block, full or not, with the subkey that belongs to it. */
  function Last(e: Cipher, m: seq<byte>): Block
    requires |m| <= 16
  {
    if |m| == 16 then Xor(m, K1(e)) else Xor(Padded(m), K2(e))
  }

  /** Section 2.4 of RFC 4493, block by block from the chaining value `x`. */
  function Chained(e: Cipher, x: Block, m: seq<byte>): Block
    decreases |m|
  {
    if |m| <= 16 then e(Xor(x, Last(e, m)))
    else Chained(e, e(Xor(x, m[..16])), m[16..])
  }

  function Rfc(e: Cipher, m: seq<byte>): Block { Chained(e, ZERO, m) }

  // ---------- what the routine computes

  /** The chaining value after the first `n` blocks. */
  function After16(e: Cipher, m: seq<byte>, n: nat): Block
    requires 16 * n <= |m|
  {
    if n == 0 then ZERO else e(Xor(After16(e, m, n - 1), m[16 * (n - 1)..16 * n]))
  }

  lemma StartChain(e: Cipher, m: seq<byte>)
    ensures After16(e, m, 0) == ZERO
  {
  }

  lemma NextChain(e: Cipher, m: seq<byte>, n: nat)
    requires 16 * (n + 1) <= |m|
    ensures After16(e, m, n + 1) == e(Xor(After16(e, m, n), m[16 * n..16 * (n + 1)]))
  {
  }

  /** Number of blocks; the rounding is done in 32 bits. */
  function BlockCount(len: nat): nat { (len + 15) % 0x1_0000_0000 / 16 }

  /** Blocks before the last one, and whether the last one is taken as full. */
  function Rounds(len: nat): nat { if BlockCount(len) != 0 then BlockCount(len) - 1 else 0 }

  predicate Full(len: nat) { BlockCount(len) != 0 && len % 16 == 0 }

  lemma RoundsFit(len: nat)
    requires len < 0x1_0000_0000
    ensures Full(len) ==> 16 * Rounds(len) + 16 == len
    ensures !Full(len) ==> 16 * Rounds(len) + len % 16 <= len
    ensures Full(len) <==> len > 0 && len % 16 == 0
  {
    var q, r := len / 16, len % 16;
    assert len == 16 * q + r;
    if len + 15 < 0x1_0000_0000 {
      assert (len + 15) / 16 == if r == 0 then q else q + 1;
    } else {
      assert BlockCount(len) == 0 && r != 0;
    }
  }

  /** The result of the routine. A last block that is not full is padded into the second subkey
      and then combined with itself, so what is masked into the chain is zero. */
  function Computed(e: Cipher, m: seq<byte>): Block
    requires |m| < 0x1_0000_0000
  {
    RoundsFit(|m|);
    var n := Rounds(|m|);
    var last := if Full(|m|) then Xor(m[16 * n..16 * n + 16], K1(e)) else ZERO;
    e(Xor(After16(e, m, n), last))
  }

  // ---------- conformance

  lemma ByteZeroLeft(v: byte)
    ensures XorByte(0, v) == v
  {
  }

  lemma XorZeroLeft(b: Block)
    ensures Xor(ZERO, b) == b
  {
    forall i | 0 <= i < 16 ensures Xor(ZERO, b)[i] == b[i] {
      ByteZeroLeft(b[i]);
    }
  }

  /** A full last block is combined with x times the encryption of zero; a short one is closed by a one
      bit and combined with x squared times it. */
  lemma LastBlocks(e: Cipher, m: seq<byte>)
    requires |m| <= 16
    ensures |m| == 16 ==> Rfc(e, m) == e(Xor(m, Double(e(ZERO))))
    ensures |m| < 16 ==> Rfc(e, m) == e(Xor(Padded(m), Double(Double(e(ZERO)))))
    ensures |m| < 16 ==> forall i :: 0 <= i < 16 ==> Padded(m)[i] == if i < |m| then m[i] else if i == |m| then 0x80 else 0
  {
    hide Double;
    if |m| == 16 {
      XorZeroLeft(Xor(m, K1(e)));
    } else {
      XorZeroLeft(Xor(Padded(m), K2(e)));
    }
  }

  /** What the routine computes for one block and for two. */
  lemma OneBlock(e: Cipher, a: Block)
    ensures Computed(e, a) == e(Xor(a, Double(e(ZERO))))
  {
    hide Double, After16, XorByte, Xor;
    StartChain(e, a);
    assert Rounds(16) == 0 && Full(16) && a[16 * 0..16 * 0 + 16] == a;
    XorZeroLeft(Xor(a, K1(e)));
  }

  lemma TwoBlocks(e: Cipher, a: Block, b: Block)
    ensures Computed(e, a + b) == e(Xor(e(a), Xor(b, Double(e(ZERO)))))
  {
    hide Double, After16, XorByte, Xor;
    var m := a + b;
    StartChain(e, m);
    NextChain(e, m, 0);
    assert Rounds(32) == 1 && Full(32) && m[16 * 0..16 * (0 + 1)] == a && m[16 * 1..16 * 1 + 16] == b;
    XorZeroLeft(a);
  }

  /** Chaining whole blocks one by one and going on with the rest is chaining the message. */
  lemma {:induction false} ChainedFrom(e: Cipher, m: seq<byte>, n: nat)
    requires 16 * n < |m|
    ensures Rfc(e, m) == Chained(e, After16(e, m, n), m[16 * n..])
  {
    hide Last;
    if n == 0 {
      assert m[0..] == m;
    } else {
      ChainedFrom(e, m, n - 1);
      var rest := m[16 * (n - 1)..];
      assert rest[..16] == m[16 * (n - 1)..16 * n];
      assert rest[16..] == m[16 * n..];
    }
  }

  /** For whole blocks the routine computes the MAC of RFC 4493. */
  lemma WholeBlocksConform(e: Cipher, m: seq<byte>)
    requires 0 < |m| < 0x1_0000_0000 && |m| % 16 == 0
    ensures Computed(e, m) == Rfc(e, m)
  {
    hide Rfc, K1, K2;
    RoundsFit(|m|);
    var n := Rounds(|m|);
    ChainedFrom(e, m, n);
    assert m[16 * n..] == m[16 * n..16 * n + 16];
  }

  /** A short last block does not enter the result: whatever it is, and however long, the routine
      computes the same. */
  lemma TailIgnored(e: Cipher, m: seq<byte>, s: seq<byte>, t: seq<byte>)
    requires |m| % 16 == 0 && 0 < |s| < 16 && 0 < |t| < 16
    requires |m| + 16 < 0x1_0000_0000
    ensures Computed(e, m + s) == Computed(e, m + t) == e(After16(e, m, |m| / 16))
  {
    hide Computed, After16;
    ShortTail(e, m, s);
    ShortTail(e, m, t);
  }

  lemma ShortTail(e: Cipher, m: seq<byte>, s: seq<byte>)
    requires |m| % 16 == 0 && 0 < |s| < 16 && |m| + 16 < 0x1_0000_0000
    ensures Computed(e, m + s) == e(After16(e, m, |m| / 16))
  {
    hide XorByte, Xor, After16, K1, Rounds, Full, Computed;
    var n := |m| / 16;
    assert |m| == 16 * n && |m + s| == 16 * n + |s|;
    RoundsShort(n, |s|);
    NothingMasked(e, m + s);
    SameChain(e, m, m + s, n);
    XorZeroRight(After16(e, m, n));
  }

  lemma NothingMasked(e: Cipher, m: seq<byte>)
    requires |m| < 0x1_0000_0000 && !Full(|m|)
    ensures 16 * Rounds(|m|) <= |m| && Computed(e, m) == e(Xor(After16(e, m, Rounds(|m|)), ZERO))
  {
    hide XorByte, Xor, After16, K1, Rounds, Full;
    RoundsFit(|m|);
  }

  lemma RoundsShort(n: nat, k: nat)
    requires 0 < k < 16 && 16 * n + 16 < 0x1_0000_0000
    ensures Rounds(16 * n + k) == n && !Full(16 * n + k)
  {
  }

  lemma XorZeroRight(b: Block)
    ensures Xor(b, ZERO) == b
  {
    forall i | 0 <= i < 16 ensures Xor(b, ZERO)[i] == b[i] {
      ByteZeroRight(b[i]);
    }
  }

  lemma ByteZeroRight(v: byte)
    ensures XorByte(v, 0) == v
  {
  }

  lemma {:induction false} SameChain(e: Cipher, m: seq<byte>, l: seq<byte>, n: nat)
    requires 16 * n <= |m| <= |l| && l[..|m|] == m
    ensures After16(e, m, n) == After16(e, l, n)
  {
    hide Xor;
    if n > 0 {
      SameChain(e, m, l, n - 1);
      assert m[16 * (n - 1)..16 * n] == l[16 * (n - 1)..16 * n];
    }
  }

  const IDENTITY: Cipher := (b: Block) => b

  lemma ZeroBytes()
    ensures XorByte(0, 0) == 0 && ShiftByte(0, 0) == 0
  {
  }

  lemma XorZero()
    ensures Xor(ZERO, ZERO) == ZERO
  {
    hide XorByte;
    ZeroBytes();
  }

  lemma ShiftedZeroAt(i: nat)
    requires i < 16
    ensures Shifted(ZERO)[i] == 0
  {
    ZeroBytes();
    hide ShiftByte, XorByte;
    assert After(ZERO, i) == 0;
  }

  lemma ShiftedZero()
    ensures Shifted(ZERO) == ZERO
  {
    hide ShiftByte, XorByte, Shifted, After;
    forall i: nat | i < 16 ensures Shifted(ZERO)[i] == ZERO[i] {
      ShiftedZeroAt(i);
    }
  }

  lemma DoubleZero()
    ensures Double(ZERO) == ZERO
  {
    hide ShiftByte, After, Shifted, Xor;
    ShiftedZero();
    assert ZERO[0] & 0x80 == 0;
  }

  predicate AllZero(m: seq<byte>) { forall i :: 0 <= i < |m| ==> m[i] == 0 }

  lemma {:induction false} ZeroChain(m: seq<byte>, n: nat)
    requires AllZero(m) && 16 * n <= |m|
    ensures After16(IDENTITY, m, n) == ZERO
  {
    if n > 0 {
      hide Xor;
      ZeroChain(m, n - 1);
      XorZero();
      assert m[16 * (n - 1)..16 * n] == ZERO;
    }
  }

  /** A cipher and a message of each length that is not whole blocks, or is empty, on which the
      routine departs from the RFC. */
  lemma OtherLengthsFail(m: seq<byte>)
    requires |m| < 0x1_0000_0000 && (|m| == 0 || |m| % 16 != 0)
    requires AllZero(m)
    ensures Computed(IDENTITY, m) != Rfc(IDENTITY, m)
  {
    RoundsFit(|m|);
    XorZero();
    DoubleZero();
    ZeroChain(m, Rounds(|m|));
    assert Computed(IDENTITY, m) == ZERO;
    var n := |m| / 16;
    var tail := m[16 * n..];
    ZeroChain(m, n);
    if n == 0 {
      assert m == tail;
    } else {
      ChainedFrom(IDENTITY, m, n);
    }
    assert Rfc(IDENTITY, m) == Xor(ZERO, Xor(Padded(tail), ZERO));
    assert Padded(tail)[|tail|] == 0x80;
    assert Rfc(IDENTITY, m)[|tail|] == XorByte(0, XorByte(0x80, 0));
  }

  ghost predicate ConformsAt(len: nat)
    requires len < 0x1_0000_0000
  {
    forall e: Cipher, m: seq<byte> :: |m| == len ==> Computed(e, m) == Rfc(e, m)
  }

  function Zeros(len: nat): (m: seq<byte>)
    ensures |m| == len && AllZero(m)
  {
    if len == 0 then [] else Zeros(len - 1) + [0]
  }

  /** The routine is the MAC of RFC 4493 for every cipher and message of a length exactly when
      that length is a positive number of whole blocks. */
  lemma ConformsIff(len: nat)
    requires len < 0x1_0000_0000
    ensures ConformsAt(len) <==> len > 0 && len % 16 == 0
  {
    hide Computed, Rfc;
    if len > 0 && len % 16 == 0 {
      forall e: Cipher, m: seq<byte> | |m| == len ensures Computed(e, m) == Rfc(e, m) {
        WholeBlocksConform(e, m);
      }
    } else {
      OtherLengthsFail(Zeros(len));
    }
  }
}
