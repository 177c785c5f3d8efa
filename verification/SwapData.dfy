/** Reversal of a buffer word by word: pairs of words change places and each has its bytes turned
    round, in place or into another buffer. */
module SwapData {
  import opened Words

  /** A 32-bit word by its bytes, in memory order. */
  datatype Word = Word(b0: byte, b1: byte, b2: byte, b3: byte)

  function Bswap(w: Word): Word { Word(w.b3, w.b2, w.b1, w.b0) }

  /** Word `i` of the result is word `n - 1 - i` of the source, turned round. */
  function Swapped(s: seq<Word>): (r: seq<Word>)
    ensures |r| == |s|
    ensures forall i :: 0 <= i < |s| ==> r[i] == Bswap(s[|s| - 1 - i])
  {
    seq(|s|, i requires 0 <= i < |s| => Bswap(s[|s| - 1 - i]))
  }

  function ByteOf(w: Word, j: nat): byte
    requires j < 4
  {
    if j == 0 then w.b0 else if j == 1 then w.b1 else if j == 2 then w.b2 else w.b3
  }

  /** The buffer as memory holds it. */
  function Bytes(s: seq<Word>): (r: seq<byte>)
    ensures |r| == 4 * |s|
    ensures forall k :: 0 <= k < 4 * |s| ==> r[k] == ByteOf(s[k / 4], k % 4)
  {
    seq(4 * |s|, k requires 0 <= k < 4 * |s| => ByteOf(s[k / 4], k % 4))
  }

  function Reverse(s: seq<byte>): (r: seq<byte>)
    ensures |r| == |s|
    ensures forall i :: 0 <= i < |s| ==> r[i] == s[|s| - 1 - i]
  {
    if s == [] then [] else Reverse(s[1..]) + [s[0]]
  }

  lemma MirroredIndex(n: nat, k: nat)
    requires k < 4 * n
    ensures (4 * n - 1 - k) / 4 == n - 1 - k / 4
    ensures (4 * n - 1 - k) % 4 == 3 - k % 4
  {
  }

  /** Swapping words and turning each round is the reversal of the whole buffer, byte by byte. */
  lemma SwappedIsReversal(s: seq<Word>)
    ensures Bytes(Swapped(s)) == Reverse(Bytes(s))
  {
    hide Bytes, Swapped, Reverse;
    var n := |s|;
    forall k | 0 <= k < 4 * n ensures Bytes(Swapped(s))[k] == Bytes(s)[4 * n - 1 - k] {
      MirroredIndex(n, k);
      assert Swapped(s)[k / 4] == Bswap(s[n - 1 - k / 4]);
    }
  }

  /** Word by word: each comes from its mirror position, its last byte first. */
  lemma SwappedWords(s: seq<Word>, i: nat)
    requires i < |s|
    ensures var w := s[|s| - 1 - i]; Swapped(s)[i] == Word(w.b3, w.b2, w.b1, w.b0)
    ensures forall j :: 0 <= j < 4 ==> Bytes(s)[4 * i + j] == ByteOf(s[i], j)
  {
    forall j | 0 <= j < 4 ensures Bytes(s)[4 * i + j] == ByteOf(s[i], j) {
      assert (4 * i + j) / 4 == i && (4 * i + j) % 4 == j;
    }
  }

  /** Doing it twice gives the buffer back. */
  lemma SwappedTwice(s: seq<Word>)
    ensures Swapped(Swapped(s)) == s
  {
    forall i | 0 <= i < |s| ensures Swapped(Swapped(s))[i] == s[i] {
      assert Swapped(s)[|s| - 1 - i] == Bswap(s[i]);
    }
  }

  /** How far the loop has come: `i` words at each end are done, those between are untouched. */
  ghost predicate Done(d: seq<Word>, s: seq<Word>, i: nat) {
    && |d| >= |s| && 2 * i <= |s|
    && (forall k :: 0 <= k < i ==> d[k] == Bswap(s[|s| - 1 - k]))
    && (forall k :: |s| - i <= k < |s| ==> d[k] == Bswap(s[|s| - 1 - k]))
  }

  lemma NoneDone(d: seq<Word>, s: seq<Word>)
    requires |d| >= |s|
    ensures Done(d, s, 0)
  {
  }

  /** With every pair done, and then the word in the middle of an odd number of them, all is done. */
  lemma AllDone(d: seq<Word>, s: seq<Word>)
    requires Done(d, s, |s| / 2)
    ensures d[..|s|] == Swapped(s) || |s| % 2 != 0
    ensures |s| % 2 != 0 ==> d[|s| / 2 := Bswap(s[|s| / 2])][..|s|] == Swapped(s)
  {
    hide Swapped, Bswap;
    var r := if |s| % 2 != 0 then d[|s| / 2 := Bswap(s[|s| / 2])] else d;
    forall k | 0 <= k < |s| ensures r[k] == Swapped(s)[k] {
      if |s| / 2 <= k < |s| - |s| / 2 {
        assert k == |s| / 2 == |s| - 1 - k;
      }
    }
  }

  /** The words between are as they were. */
  ghost predicate Untouched(c: seq<Word>, s: seq<Word>, i: nat) {
    |c| >= |s| && forall k :: i <= k < |s| - i ==> c[k] == s[k]
  }

  /** One turn of the loop: both ends are read before either is written. */
  method SwapPair(dst: array<Word>, src: array<Word>, n: nat, i: nat)
    requires 2 * i + 1 < n <= src.Length && n <= dst.Length
    modifies dst
    ensures dst[..] == old(dst[..])[n - i - 1 := Bswap(old(src[i]))][i := Bswap(old(src[n - i - 1]))]
  {
    var val := Bswap(src[n - i - 1]);
    dst[n - i - 1] := Bswap(src[i]);
    dst[i] := val;
  }

  lemma OneMore(d: seq<Word>, s: seq<Word>, i: nat)
    requires Done(d, s, i) && 2 * i + 1 < |s|
    ensures Done(d[|s| - i - 1 := Bswap(s[i])][i := Bswap(s[|s| - i - 1])], s, i + 1)
  {
    hide Bswap;
  }

  /** `len` bytes are swapped, whatever the two buffers hold beyond; a length that is not whole
      words leaves its last bytes out. With one buffer for both, the reversal is in place. */
  method SwapData32(dst: array<Word>, src: array<Word>, len: nat)
    requires len / 4 <= src.Length && len / 4 <= dst.Length
    modifies dst
    ensures dst[..len / 4] == Swapped(old(src[..len / 4]))
    ensures Bytes(dst[..len / 4]) == Reverse(Bytes(old(src[..len / 4])))
    ensures dst[len / 4..] == old(dst[len / 4..])
  {
    hide Bswap, Swapped, Done, Bytes, Reverse;
    var n := len / 4;
    ghost var s := src[..n];
    NoneDone(dst[..], s);
    var i := 0;
    while i < len / 8
      invariant 0 <= i <= len / 8
      invariant Untouched(src[..], s, i)
      invariant Done(dst[..], s, i)
      invariant dst[n..] == old(dst[n..])
    {
      assert src[..][i] == s[i] && src[..][n - i - 1] == s[n - i - 1];
      OneMore(dst[..], s, i);
      SwapPair(dst, src, n, i);
      i := i + 1;
    }
    AllDone(dst[..], s);
    if len / 4 % 2 != 0 {
      assert src[..][len / 8] == s[len / 8];
      dst[len / 8] := Bswap(src[len / 8]);
    }
    assert dst[..][..n] == dst[..n];
    SwappedIsReversal(s);
  }
}
