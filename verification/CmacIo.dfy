/** The CMAC routine over byte arrays: loops, word loads and stores, and buffers that are written
    while they are read. */
module CmacIo {
  import opened Words
  import opened Cmac

  // ---------- words

  function Word(a: byte, b: byte, c: byte, d: byte): bv32 {
    (a as bv32) | ((b as bv32) << 8) | ((c as bv32) << 16) | ((d as bv32) << 24)
  }

  function Down(w: bv32, i: nat): bv32
    requires i < 4
  {
    if i == 0 then w else if i == 1 then w >> 8 else if i == 2 then w >> 16 else w >> 24
  }

  function Low(w: bv32): byte { (w & 0xFF) as byte }

  function ByteAt(w: bv32, i: nat): byte
    requires i < 4
  {
    Low(Down(w, i))
  }

  function XorWide(v: bv32, w: bv32): bv32 { v ^ w }

  lemma WordBytes(a: byte, b: byte, c: byte, d: byte)
    ensures ByteAt(Word(a, b, c, d), 0) == a && ByteAt(Word(a, b, c, d), 1) == b
    ensures ByteAt(Word(a, b, c, d), 2) == c && ByteAt(Word(a, b, c, d), 3) == d
  {
  }

  lemma XorLow(v: bv32, w: bv32)
    ensures Low(XorWide(v, w)) == XorByte(Low(v), Low(w))
  {
  }

  lemma XorDown(v: bv32, w: bv32, i: nat)
    requires i < 4
    ensures Down(XorWide(v, w), i) == XorWide(Down(v, i), Down(w, i))
  {
    if i == 1 {
      assert (v ^ w) >> 8 == (v >> 8) ^ (w >> 8);
    } else if i == 2 {
      assert (v ^ w) >> 16 == (v >> 16) ^ (w >> 16);
    } else if i == 3 {
      assert (v ^ w) >> 24 == (v >> 24) ^ (w >> 24);
    }
  }

  /** Combining words is combining their bytes. */
  lemma WordXor(a: seq<byte>, b: seq<byte>, i: nat)
    requires |a| == |b| == 4 && i < 4
    ensures ByteAt(XorWide(Word(a[0], a[1], a[2], a[3]), Word(b[0], b[1], b[2], b[3])), i) == XorByte(a[i], b[i])
  {
    hide Word, Low, Down, XorByte, XorWide;
    var v, w := Word(a[0], a[1], a[2], a[3]), Word(b[0], b[1], b[2], b[3]);
    XorDown(v, w, i);
    XorLow(Down(v, i), Down(w, i));
    WordBytes(a[0], a[1], a[2], a[3]);
    WordBytes(b[0], b[1], b[2], b[3]);
  }

  method Load(a: array<byte>, off: nat) returns (w: bv32)
    requires off + 4 <= a.Length
    ensures w == Word(a[off], a[off + 1], a[off + 2], a[off + 3])
  {
    w := Word(a[off], a[off + 1], a[off + 2], a[off + 3]);
  }

  method Store(a: array<byte>, off: nat, w: bv32)
    requires off + 4 <= a.Length
    modifies a
    ensures forall i :: 0 <= i < 4 ==> a[off + i] == ByteAt(w, i)
    ensures forall i :: 0 <= i < a.Length && !(off <= i < off + 4) ==> a[i] == old(a[i])
  {
    a[off], a[off + 1], a[off + 2], a[off + 3] := ByteAt(w, 0), ByteAt(w, 1), ByteAt(w, 2), ByteAt(w, 3);
  }

  /** One word of the combination. */
  method XorWord(a: array<byte>, ao: nat, b: array<byte>, bo: nat, out: array<byte>, k: nat)
    requires k < 4 && ao + 4 * k + 4 <= a.Length && bo + 4 * k + 4 <= b.Length && out.Length == 16
    modifies out
    ensures forall i :: 4 * k <= i < 4 * k + 4 ==> out[i] == XorByte(old(a[ao + i]), old(b[bo + i]))
    ensures forall i :: 0 <= i < 16 && !(4 * k <= i < 4 * k + 4) ==> out[i] == old(out[i])
  {
    hide Word, ByteAt, XorByte, XorWide;
    var v := Load(a, ao + 4 * k);
    var w := Load(b, bo + 4 * k);
    ghost var s, t := a[ao + 4 * k..ao + 4 * k + 4], b[bo + 4 * k..bo + 4 * k + 4];
    forall i | 0 <= i < 4 ensures ByteAt(XorWide(v, w), i) == XorByte(s[i], t[i]) { WordXor(s, t, i); }
    Store(out, 4 * k, XorWide(v, w));
    forall i | 4 * k <= i < 4 * k + 4 ensures out[i] == XorByte(old(a[ao + i]), old(b[bo + i])) {
      assert out[4 * k + (i - 4 * k)] == XorByte(s[i - 4 * k], t[i - 4 * k]);
    }
  }

  /** The word-by-word combination is the byte-by-byte one, also when the output is an operand. */
  method XorBlocks(a: array<byte>, ao: nat, b: array<byte>, bo: nat, out: array<byte>)
    requires ao + 16 <= a.Length && bo + 16 <= b.Length && out.Length == 16
    requires (a == out ==> ao == 0) && (b == out ==> bo == 0)
    modifies out
    ensures out[..] == Xor(old(a[ao..ao + 16]), old(b[bo..bo + 16]))
  {
    hide XorByte;
    ghost var s, t := a[ao..ao + 16], b[bo..bo + 16];
    var k := 0;
    while k < 4
      invariant 0 <= k <= 4
      invariant forall i :: 0 <= i < 4 * k ==> out[i] == XorByte(s[i], t[i])
      invariant forall i :: 4 * k <= i < 16 ==> a[ao + i] == s[i] && b[bo + i] == t[i]
    {
      XorWord(a, ao, b, bo, out, k);
      k := k + 1;
    }
  }

  /** The carry loop is a shift of the whole block, also in place. */
  method ShiftLOne(src: array<byte>, dst: array<byte>)
    requires src.Length == dst.Length == 16
    modifies dst
    ensures dst[..] == Shifted(old(src[..]))
  {
    hide ShiftByte;
    ghost var s: Block := src[..];
    var carry: byte := 0;
    assert CarryOf(0) == 0;
    var i := 15;
    while i >= 0
      invariant -1 <= i <= 15
      invariant i >= 0 ==> carry == CarryOf(After(s, i))
      invariant forall j :: 0 <= j <= i ==> src[j] == s[j]
      invariant forall j :: i < j < 16 ==> dst[j] == ShiftByte(s[j], After(s, j))
    {
      var val := src[i];
      ShiftCarry(val, After(s, i));
      dst[i] := (val << 1) | carry;
      carry := CarryOf(val);
      i := i - 1;
    }
  }

  /** The top bit, handed to the byte before. */
  function CarryOf(w: byte): byte { (w >> 7) & 1 }

  lemma ShiftCarry(v: byte, w: byte)
    ensures (v << 1) | CarryOf(w) == ShiftByte(v, w)
  {
  }

  /** Copies the short tail and closes it. */
  method Padding(src: array<byte>, off: nat, pad: array<byte>, length: nat)
    requires length < 16 && off + length <= src.Length && pad.Length == 16 && src != pad
    modifies pad
    ensures pad[..] == Padded(src[off..off + length])
  {
    forall i | 0 <= i < length { pad[i] := src[off + i]; }
    pad[length] := 0x80;
    forall i | length < i < 16 { pad[i] := 0; }
    assert pad[..] == src[off..off + length] + [0x80] + ZERO[..15 - length];
  }

  /** The cipher at work on whole buffers; the kernel call may be given one buffer twice. */
  method Encrypt(e: Cipher, src: array<byte>, dst: array<byte>)
    requires src.Length == dst.Length == 16
    modifies dst
    ensures dst[..] == e(old(src[..]))
  {
    var r: Block := e(src[..]);
    forall i | 0 <= i < 16 { dst[i] := r[i]; }
  }

  /** Shift, and fold the carry back. */
  method DoubleInto(src: array<byte>, base: array<byte>, dst: array<byte>)
    requires src.Length == dst.Length == base.Length == 16 && src != dst && base != dst
    requires base[..] == R128
    modifies dst
    ensures dst[..] == Double(src[..])
  {
    ShiftLOne(src, dst);
    if src[0] & 0x80 != 0 {
      assert dst[0..0 + 16] == dst[..] && base[0..0 + 16] == base[..];
      XorBlocks(dst, 0, base, 0, dst);
    }
  }

  method GenSubKey(e: Cipher, base: array<byte>, subkey1: array<byte>, subkey2: array<byte>)
    requires subkey1.Length == subkey2.Length == base.Length == 16
    requires subkey1 != subkey2 && base != subkey1 && base != subkey2
    requires base[..] == R128
    modifies subkey1, subkey2
    ensures subkey1[..] == K1(e) && subkey2[..] == K2(e)
  {
    hide Double;
    var tmp := new byte[16](i => 0);
    assert tmp[..] == ZERO;
    Encrypt(e, tmp, tmp);
    DoubleInto(tmp, base, subkey1);
    DoubleInto(subkey1, base, subkey2);
  }

  lemma XorSelf(a: Block)
    ensures Xor(a, a) == ZERO
  {
    assert forall i :: 0 <= i < 16 ==> XorByte(a[i], a[i]) == 0;
  }

  /** What is masked into the last round. */
  function MaskOf(e: Cipher, m: seq<byte>): Block
    requires |m| < 0x1_0000_0000
  {
    RoundsFit(|m|);
    if Full(|m|) then Xor(m[16 * Rounds(|m|)..16 * Rounds(|m|) + 16], K1(e)) else ZERO
  }

  method LastMask(e: Cipher, src: array<byte>, n: nat, flag: bool, subkey1: array<byte>, subkey2: array<byte>, mask: array<byte>)
    requires src.Length < 0x1_0000_0000
    requires n == Rounds(src.Length) && flag == Full(src.Length)
    requires subkey1.Length == subkey2.Length == mask.Length == 16
    requires src != subkey2 && src != mask && subkey1 != mask && subkey2 != mask
    requires subkey1[..] == K1(e)
    modifies subkey2, mask
    ensures mask[..] == MaskOf(e, src[..])
  {
    hide K1, Rounds, Full;
    RoundsFit(src.Length);
    if flag {
      assert src[..][16 * n..16 * n + 16] == src[16 * n..16 * n + 16];
      assert subkey1[0..0 + 16] == subkey1[..];
      XorBlocks(src, 16 * n, subkey1, 0, mask);
    } else {
      Padding(src, 16 * n, subkey2, src.Length % 16);
      assert subkey2[0..0 + 16] == subkey2[..];
      XorSelf(subkey2[..]);
      XorBlocks(subkey2, 0, subkey2, 0, mask);
    }
  }

  /** How many blocks go before the last one, and whether that one is full. */
  method BlockTotals(len: nat) returns (n: nat, flag: bool)
    requires len < 0x1_0000_0000
    ensures n == Rounds(len) && flag == Full(len)
  {
    flag := false;
    n := BlockCount(len);
    if n != 0 {
      flag := len % 16 == 0;
      n := n - 1;
    }
  }

  /** The rounds before the last one. */
  method Rounding(e: Cipher, src: array<byte>, n: nat, x: array<byte>)
    requires 16 * n <= src.Length && x.Length == 16 && x != src
    requires x[..] == ZERO
    modifies x
    ensures x[..] == After16(e, src[..], n)
  {
    hide XorByte, After16, Xor;
    StartChain(e, src[..]);
    var i := 0;
    while i < n
      invariant 0 <= i <= n
      invariant x[..] == After16(e, src[..], i)
    {
      assert x[0..0 + 16] == x[..];
      assert src[16 * i..16 * i + 16] == src[..][16 * i..16 * (i + 1)];
      NextChain(e, src[..], i);
      XorBlocks(x, 0, src, 16 * i, x);
      Encrypt(e, x, x);
      i := i + 1;
    }
  }

  /** The rounds, and the last one with its mask. */
  method Finish(e: Cipher, src: array<byte>, n: nat, mask: array<byte>, cmac: array<byte>)
    requires src.Length < 0x1_0000_0000 && n == Rounds(src.Length)
    requires mask.Length == cmac.Length == 16
    requires mask[..] == MaskOf(e, src[..])
    modifies cmac
    ensures cmac[..] == Computed(e, old(src[..]))
  {
    hide Computed, K1, Rounds, Full, XorByte, After16, MaskOf;
    ghost var m := src[..];
    RoundsFit(src.Length);
    var x := new byte[16](i => 0);
    assert x[..] == ZERO;
    Rounding(e, src, n, x);
    assert mask[0..0 + 16] == mask[..] && x[0..0 + 16] == x[..];
    XorBlocks(x, 0, mask, 0, x);
    Encrypt(e, x, x);
    LastStep(e, m, x[..]);
    forall k | 0 <= k < 16 { cmac[k] := x[k]; }
    assert cmac[..] == x[..];
  }

  /** The routine leaves `Computed` in `cmac`, for a message of any length a size can hold; for
      whole blocks that is the MAC of RFC 4493. */
  method Aes256cmac(e: Cipher, src: array<byte>, cmac: array<byte>)
    requires src.Length < 0x1_0000_0000 && cmac.Length == 16
    modifies cmac
    ensures cmac[..] == Computed(e, old(src[..]))
    ensures src.Length > 0 && src.Length % 16 == 0 ==> cmac[..] == Rfc(e, old(src[..]))
  {
    hide Computed, Rfc, K1, K2, Rounds, Full, MaskOf;
    var base, subkey1, subkey2, mask := new byte[16](i => 0), new byte[16], new byte[16], new byte[16];
    base[15] := 0x87;
    assert base[..] == R128;
    GenSubKey(e, base, subkey1, subkey2);
    var n, flag := BlockTotals(src.Length);
    LastMask(e, src, n, flag, subkey1, subkey2, mask);
    if src.Length > 0 && src.Length % 16 == 0 {
      WholeBlocksConform(e, src[..]);
    }
    Finish(e, src, n, mask, cmac);
  }

  lemma LastStep(e: Cipher, m: seq<byte>, r: Block)
    requires |m| < 0x1_0000_0000 && 16 * Rounds(|m|) <= |m|
    requires r == e(Xor(After16(e, m, Rounds(|m|)), MaskOf(e, m)))
    ensures r == Computed(e, m)
  {
    hide After16, Rounds, K1, Full, XorByte;
    RoundsFit(|m|);
  }
}
