/** `my_memcpy`, instruction by instruction: registers are 32-bit words, the flags steer every
    branch, and the counter in r2 runs biased by 0x20, then by 4.  It is shown to be a byte copy. */
module ArmMemcpy {
  import opened Words
  import opened Arm

  // ---------- the biased counter and the way to the next boundary

  /** A count that is kept `k` too low, in 32 bits. */
  ghost function Biased(count: nat, k: nat): u32 {
    (count - k) % WORD
  }

  lemma BiasedFits(count: nat, k: nat)
    requires k <= count < WORD
    ensures Biased(count, k) == count - k
  {
  }

  /** Stepping a biased counter down: it borrows when fewer than `k` are left. */
  lemma StepDown(count: nat, k: nat)
    requires k <= count < WORD && k < HALF
    ensures SubS(count - k, k).0 == Biased(count - k, k)
    ensures SubS(count - k, k).1.c <==> count - k >= k
    ensures count < HALF ==> (SubS(count - k, k).1.Ge() <==> count - k >= k)
  {
    SubFacts(count - k, k);
  }

  /** From a bias of 32 to a bias of 4, once fewer than 32 bytes are left. */
  lemma Rebias(count: nat)
    requires count < 32
    ensures AddS(Biased(count, 32), 0x1c).0 == Biased(count, 4)
    ensures AddS(Biased(count, 32), 0x1c).1.Lt() <==> count < 4
  {
  }

  lemma LowBits(count: nat, v: bool)
    requires count < 4
    ensures LslS(Biased(count, 4), 0x1f, v).1.c <==> count >= 2
    ensures LslS(Biased(count, 4), 0x1f, v).1.n <==> count % 2 == 1
  {
  }

  predicate Aligned(a: nat, n: nat)
    requires n > 0
  {
    a % n == 0
  }

  /** How far it is to the next multiple of `n`. */
  function Gap(a: nat, n: nat): nat
    requires n > 0
  {
    (n - a % n) % n
  }

  lemma GapIs(a: nat)
    ensures Gap(a, 4) == if a % 4 == 0 then 0 else 4 - a % 4
    ensures Gap(a, 32) == if a % 32 == 0 then 0 else 32 - a % 32
  {
  }

  lemma Mod4Is(x: nat, q: nat, r: nat)
    requires x == 4 * q + r && r < 4
    ensures x % 4 == r
  {
  }

  lemma Mod32Is(x: nat, q: nat, r: nat)
    requires x == 32 * q + r && r < 32
    ensures x % 32 == r
  {
  }

  lemma InWord(a: nat)
    ensures (a + 1) % 4 == if a % 4 == 3 then 0 else a % 4 + 1
    ensures a % 4 == 0 ==> (a + 4) % 4 == 0
  {
    var q, r := a / 4, a % 4;
    Mod4Is(a + 1, if r == 3 then q + 1 else q, if r == 3 then 0 else r + 1);
    Mod4Is(a + 4, q + 1, r);
  }

  lemma InLine(a: nat)
    ensures (a + 1) % 32 == if a % 32 == 31 then 0 else a % 32 + 1
  {
    var q, r := a / 32, a % 32;
    Mod32Is(a + 1, if r == 31 then q + 1 else q, if r == 31 then 0 else r + 1);
  }

  lemma WordInLine(a: nat)
    ensures a % 32 % 4 == a % 4
    ensures a % 4 == 0 ==> (a + 4) % 32 == if a % 32 == 28 then 0 else a % 32 + 4
  {
    var q, r := a / 32, a % 32;
    var k, l := r / 4, r % 4;
    Mod4Is(a, 8 * q + k, l);
    if l == 0 {
      Mod32Is(a + 4, if k == 7 then q + 1 else q, if k == 7 then 0 else r + 4);
    }
  }

  lemma GapOne(a: nat)
    ensures Gap(a, 4) < 4 && (Gap(a, 4) == 0 <==> a % 4 == 0)
    ensures a % 4 != 0 ==> Gap(a + 1, 4) == Gap(a, 4) - 1
    ensures Gap(a, 4) <= Gap(a, 32)
    ensures a % 4 != 0 ==> Gap(a + 1, 32) == Gap(a, 32) - 1
  {
    hide Gap;
    GapIs(a);
    GapIs(a + 1);
    InWord(a);
    InLine(a);
    WordInLine(a);
  }

  lemma GapFour(a: nat)
    requires a % 4 == 0
    ensures Gap(a, 32) < 32 && (Gap(a, 32) == 0 <==> a % 32 == 0)
    ensures a % 32 != 0 ==> (a + 4) % 4 == 0 && Gap(a, 32) >= 4 && Gap(a + 4, 32) == Gap(a, 32) - 4
  {
    hide Gap;
    GapIs(a);
    GapIs(a + 4);
    InWord(a);
    WordInLine(a);
  }

  // ---------- memory

  /** Memory after the first `i` bytes have been copied. */
  ghost function Copied(orig: seq<byte>, dst: nat, src: nat, i: nat): (m: seq<byte>)
    requires dst + i <= |orig| && src + i <= |orig|
    ensures |m| == |orig|
  {
    orig[..dst] + orig[src..src + i] + orig[dst + i..]
  }

  /** The two ranges do not make the copy read what it has written. */
  predicate Apart(dst: nat, src: nat, len: nat) {
    dst <= src || src + len <= dst
  }

  /** Memory with `d` written at an address. */
  function Overwritten(m: seq<byte>, at: nat, d: seq<byte>): (r: seq<byte>)
    requires at + |d| <= |m|
    ensures |r| == |m|
  {
    m[..at] + d + m[at + |d|..]
  }

  /** The bytes not yet copied are still the original ones. */
  lemma Unread(orig: seq<byte>, dst: nat, src: nat, len: nat, i: nat, n: nat)
    requires i + n <= len && dst + len <= |orig| && src + len <= |orig| && Apart(dst, src, len)
    ensures Copied(orig, dst, src, i)[src + i..src + i + n] == orig[src + i..src + i + n]
  {
    var m := Copied(orig, dst, src, i);
    forall k | src + i <= k < src + i + n ensures m[k] == orig[k] {
    }
  }

  /** Writing what stands at the source to the destination copies `n` more bytes. */
  lemma CopiedMore(orig: seq<byte>, dst: nat, src: nat, len: nat, i: nat, n: nat)
    requires i + n <= len && dst + len <= |orig| && src + len <= |orig| && Apart(dst, src, len)
    ensures var m := Copied(orig, dst, src, i);
            Overwritten(m, dst + i, m[src + i..src + i + n]) == Copied(orig, dst, src, i + n)
  {
    Unread(orig, dst, src, len, i, n);
    assert orig[src..src + i + n] == orig[src..src + i] + orig[src + i..src + i + n];
  }

  /** A load of `n` bytes: one register or a few. */
  method Load(mem: array<byte>, at: u32, n: nat) returns (d: seq<byte>)
    requires at + n <= mem.Length
    ensures d == mem[..][at..at + n]
  {
    d := mem[at..at + n];
  }

  method Store(mem: array<byte>, at: u32, d: seq<byte>)
    requires at + |d| <= mem.Length
    modifies mem
    ensures mem[..] == Overwritten(old(mem[..]), at, d)
  {
    forall i | 0 <= i < |d| {
      mem[at + i] := d[i];
    }
  }

  /** Multiple-register transfers fault on an address that is not a multiple of four. */
  method LoadMultiple(mem: array<byte>, at: u32, n: nat) returns (d: seq<byte>)
    requires at % 4 == 0 && at + n <= mem.Length
    ensures d == mem[..][at..at + n]
  {
    d := mem[at..at + n];
  }

  method StoreMultiple(mem: array<byte>, at: u32, d: seq<byte>)
    requires at % 4 == 0 && at + |d| <= mem.Length
    modifies mem
    ensures mem[..] == Overwritten(old(mem[..]), at, d)
  {
    Store(mem, at, d);
  }

  // ---------- the routine

  /** What is being copied: the call's arguments and the memory at entry. */
  datatype Job = Job(orig: seq<byte>, dst: u32, src: u32, len: u32) {
    ghost predicate Ok() {
      && |orig| <= WORD
      && dst + len <= |orig| && src + len <= |orig|
      && Apart(dst, src, len)
    }

    /** `i` bytes have been copied, and r0, r1 point behind them. */
    ghost predicate At(m: seq<byte>, r0: u32, r1: u32, i: nat) {
      && Ok() && i <= len
      && m == Copied(orig, dst, src, i)
      && r0 == (dst + i) % WORD && r1 == (src + i) % WORD
    }

    lemma Done(m: seq<byte>, r0: u32, r1: u32)
      requires At(m, r0, r1, len)
      ensures Ok() && m == Copied(orig, dst, src, len)
    {
    }

    lemma Here(m: seq<byte>, r0: u32, r1: u32, i: nat, n: nat)
      requires At(m, r0, r1, i) && 0 < n && i + n <= len
      ensures Ok() && m == Copied(orig, dst, src, i)
      ensures r0 == dst + i && r1 == src + i && dst + i + n <= |m| && src + i + n <= |m|
    {
      BumpFrom(dst, i, n);
      BumpFrom(src, i, n);
    }

    lemma There(m: seq<byte>, i: nat, n: nat)
      requires Ok() && 0 < n && i + n <= len && m == Copied(orig, dst, src, i + n)
      ensures dst + i < WORD && src + i < WORD && At(m, Bump(dst + i, n), Bump(src + i, n), i + n)
    {
      BumpFrom(dst, i, n);
      BumpFrom(src, i, n);
    }
  }

  /** One load and store of `n` bytes through plain registers, with post-increment. */
  method Move(mem: array<byte>, r0: u32, r1: u32, n: nat, ghost job: Job, ghost i: nat) returns (s0: u32, s1: u32)
    requires job.At(mem[..], r0, r1, i) && 0 < n && i + n <= job.len
    modifies mem
    ensures job.At(mem[..], s0, s1, i + n)
  {
    hide Bump, Copied, Job.At, Apart, Overwritten;
    job.Here(mem[..], r0, r1, i, n);
    CopiedMore(job.orig, job.dst, job.src, job.len, i, n);
    var d := Load(mem, r1, n);
    Store(mem, r0, d);
    job.There(mem[..], i, n);
    s0, s1 := Bump(r0, n), Bump(r1, n);
  }

  /** Eight words and four double words: both multiple loads come before the stores. */
  method BlockTransfer(mem: array<byte>, r0: u32, r1: u32)
    requires r0 % 4 == 0 && r1 % 4 == 0 && r0 + 32 <= mem.Length && r1 + 32 <= mem.Length && mem.Length <= WORD
    modifies mem
    ensures mem[..] == Overwritten(old(mem[..]), r0, old(mem[..])[r1..r1 + 32])
  {
    hide Overwritten;
    ghost var m := mem[..];
    var low := LoadMultiple(mem, r1, 16);
    var high := LoadMultiple(mem, r1 + 16, 16);
    TwoStores(m, r0, low, high);
    TwoLoads(m, r1);
    StoreMultiple(mem, r0, low);
    StoreMultiple(mem, r0 + 16, high);
  }

  lemma TwoStores(m: seq<byte>, a: nat, low: seq<byte>, high: seq<byte>)
    requires a + |low| + |high| <= |m|
    ensures Overwritten(Overwritten(m, a, low), a + |low|, high) == Overwritten(m, a, low + high)
  {
  }

  lemma TwoLoads(m: seq<byte>, a: nat)
    requires a + 32 <= |m|
    ensures m[a..a + 16] + m[a + 16..a + 32] == m[a..a + 32]
  {
  }

  /** The block transfer with an aligned source: both multiple loads come before the stores. */
  method MoveBlock(mem: array<byte>, r0: u32, r1: u32, ghost job: Job, ghost i: nat) returns (s0: u32, s1: u32)
    requires job.At(mem[..], r0, r1, i) && i + 32 <= job.len && Aligned(r0, 32) && Aligned(r1, 4)
    modifies mem
    ensures job.At(mem[..], s0, s1, i + 32) && s0 == Bump(r0, 32) && s1 == Bump(r1, 32)
  {
    hide Bump, Copied, Job.At, Apart, Overwritten;
    WordInLine(r0);
    job.Here(mem[..], r0, r1, i, 32);
    CopiedMore(job.orig, job.dst, job.src, job.len, i, 32);
    BlockTransfer(mem, r0, r1);
    job.There(mem[..], i, 32);
    s0, s1 := Bump(r0, 32), Bump(r1, 32);
  }

  /** The block transfer with any source: the vector load takes any address. */
  method MoveVector(mem: array<byte>, r0: u32, r1: u32, ghost job: Job, ghost i: nat) returns (s0: u32, s1: u32)
    requires job.At(mem[..], r0, r1, i) && i + 32 <= job.len && Aligned(r0, 32)
    modifies mem
    ensures job.At(mem[..], s0, s1, i + 32) && s0 == Bump(r0, 32) && s1 == Bump(r1, 32)
  {
    hide Bump, Copied, Job.At, Apart, Overwritten;
    WordInLine(r0);
    job.Here(mem[..], r0, r1, i, 32);
    CopiedMore(job.orig, job.dst, job.src, job.len, i, 32);
    var d := Load(mem, r1, 32);
    StoreMultiple(mem, r0, d);
    job.There(mem[..], i, 32);
    s0, s1 := Bump(r0, 32), Bump(r1, 32);
  }

  /** Bytes until the destination is a multiple of 4, then words until it is one of 32. */
  method AlignHead(mem: array<byte>, dst: u32, src: u32, ghost job: Job) returns (r0: u32, r1: u32, ghost i: nat)
    requires job.At(mem[..], dst, src, 0) && job.dst == dst && 32 <= job.len && dst + job.len <= WORD
    modifies mem
    ensures i < 32 && job.At(mem[..], r0, r1, i) && r0 == dst + i && Aligned(r0, 32)
  {
    hide Copied, Job.At, LslS, Gap;
    r0, r1, i := dst, src, 0;
    GapOne(dst);
    ghost var head := Gap(dst, 32);
    GapBound(dst);
    TestLow2(r0, false);
    var f := LslS(r0, 0x1e, false).1;
    while !f.Eq()
      invariant i + Gap(r0, 32) == head && Gap(r0, 4) <= Gap(r0, 32) && job.At(mem[..], r0, r1, i) && r0 == dst + i
      invariant f.z <==> r0 % 4 == 0
      decreases Gap(r0, 4)
    {
      GapOne(r0);
      r0, r1 := Step(mem, r0, r1, 1, job, i);
      i := i + 1;
      GapOne(r0);
      TestLow2(r0, f.v);
      f := LslS(r0, 0x1e, f.v).1;
    }
    TestLow5(r0, f.v);
    f := LslS(r0, 0x1b, f.v).1;
    while !f.Eq()
      invariant i + Gap(r0, 32) == head && job.At(mem[..], r0, r1, i) && r0 == dst + i && r0 % 4 == 0
      invariant f.z <==> r0 % 32 == 0
      decreases Gap(r0, 32)
    {
      GapFour(r0);
      r0, r1 := Step(mem, r0, r1, 4, job, i);
      i := i + 4;
      TestLow5(r0, f.v);
      f := LslS(r0, 0x1b, f.v).1;
    }
  }

  lemma GapBound(a: nat)
    ensures Gap(a, 32) < 32
  {
  }

  /** A move in the part before the last byte of memory, where pointers do not wrap. */
  method Step(mem: array<byte>, r0: u32, r1: u32, n: nat, ghost job: Job, ghost i: nat) returns (s0: u32, s1: u32)
    requires job.At(mem[..], r0, r1, i) && 0 < n && i + n < job.len && job.dst + job.len <= WORD && r0 == job.dst + i
    modifies mem
    ensures job.At(mem[..], s0, s1, i + n) && s0 == job.dst + i + n
  {
    s0, s1 := Move(mem, r0, r1, n, job, i);
  }

  /** Blocks of 32 bytes while the biased counter does not borrow. */
  method Blocks(mem: array<byte>, p0: u32, p1: u32, count: u32, ghost job: Job, ghost start: nat)
    returns (r0: u32, r1: u32, r2: u32, ghost i: nat)
    requires job.At(mem[..], p0, p1, start) && Aligned(p0, 32) && start <= job.len && count == job.len - start - 32
    modifies mem
    ensures i <= job.len < i + 32 && job.At(mem[..], r0, r1, i)
    ensures r2 == Biased(job.len - i, 32)
  {
    TestLow2(p1, false);
    if LslS(p1, 0x1e, false).1.Eq() {
      r0, r1, r2, i := AlignedBlocks(mem, p0, p1, count, job, start);
    } else {
      r0, r1, r2, i := VectorBlocks(mem, p0, p1, count, job, start);
    }
  }

  method AlignedBlocks(mem: array<byte>, p0: u32, p1: u32, count: u32, ghost job: Job, ghost start: nat)
    returns (r0: u32, r1: u32, r2: u32, ghost i: nat)
    requires job.At(mem[..], p0, p1, start) && Aligned(p0, 32) && Aligned(p1, 4)
    requires start <= job.len && count == job.len - start - 32
    modifies mem
    ensures i <= job.len < i + 32 && job.At(mem[..], r0, r1, i)
    ensures r2 == Biased(job.len - i, 32)
  {
    hide Job.At, Biased, SubS, Bump, Aligned;
    r0, r1, r2, i := p0, p1, count, start;
    var more := true;
    while more
      invariant i <= job.len && job.At(mem[..], r0, r1, i) && Aligned(r0, 32) && Aligned(r1, 4)
      invariant more ==> i + 32 <= job.len && r2 == job.len - i - 32
      invariant !more ==> job.len < i + 32 && r2 == Biased(job.len - i, 32)
      decreases more, job.len - i
    {
      StepDown(job.len - i, 32);
      BumpAligned(r0);
      BumpAligned(r1);
      r0, r1 := MoveBlock(mem, r0, r1, job, i);
      i := i + 32;
      var (r, g) := SubS(r2, 0x20);
      r2, more := r, g.Hs();
      if more {
        BiasedFits(job.len - i, 32);
      }
    }
  }

  lemma BumpAligned(a: u32)
    ensures Aligned(a, 32) ==> Aligned(Bump(a, 32), 32)
    ensures Aligned(a, 4) ==> Aligned(Bump(a, 32), 4)
  {
    BumpIs(a);
    var b := Bump(a, 32);
    hide Bump;
    if a % 32 == 0 {
      Mod32Is(b, if a + 32 < WORD then a / 32 + 1 else 0, 0);
    }
    if a % 4 == 0 {
      Mod4Is(b, if a + 32 < WORD then a / 4 + 8 else (a / 4 + 8) - WORD / 4, 0);
    }
  }

  lemma BumpIs(a: u32)
    ensures Bump(a, 32) == if a + 32 < WORD then a + 32 else a + 32 - WORD
  {
  }

  method VectorBlocks(mem: array<byte>, p0: u32, p1: u32, count: u32, ghost job: Job, ghost start: nat)
    returns (r0: u32, r1: u32, r2: u32, ghost i: nat)
    requires job.At(mem[..], p0, p1, start) && Aligned(p0, 32)
    requires start <= job.len && count == job.len - start - 32
    modifies mem
    ensures i <= job.len < i + 32 && job.At(mem[..], r0, r1, i)
    ensures r2 == Biased(job.len - i, 32)
  {
    hide Job.At, Biased, SubS, Bump, Aligned;
    r0, r1, r2, i := p0, p1, count, start;
    var more := true;
    while more
      invariant i <= job.len && job.At(mem[..], r0, r1, i) && Aligned(r0, 32)
      invariant more ==> i + 32 <= job.len && r2 == job.len - i - 32
      invariant !more ==> job.len < i + 32 && r2 == Biased(job.len - i, 32)
      decreases more, job.len - i
    {
      StepDown(job.len - i, 32);
      BumpAligned(r0);
      r0, r1 := MoveVector(mem, r0, r1, job, i);
      i := i + 32;
      var (r, g) := SubS(r2, 0x20);
      r2, more := r, g.Hs();
      if more {
        BiasedFits(job.len - i, 32);
      }
    }
  }

  /** The last words, then a half-word and a byte as the two low bits of the counter say. */
  method Tail(mem: array<byte>, p0: u32, p1: u32, count: u32, ghost job: Job, ghost start: nat)
    requires job.At(mem[..], p0, p1, start) && start <= job.len < start + 32 && count == Biased(job.len - start, 32)
    modifies mem
    ensures job.Ok() && mem[..] == Copied(job.orig, job.dst, job.src, job.len)
  {
    hide Copied, Biased, SubS, AddS, LslS, Bump, Job.At;
    var r0, r1 := p0, p1;
    ghost var i := start;
    Rebias(job.len - i);
    var (r2, f) := AddS(count, 0x1c);
    if !f.Lt() {
      r0, r1, r2, i := TailWords(mem, r0, r1, r2, job, i);
    }
    LowBits(job.len - i, f.v);
    f := LslS(r2, 0x1f, f.v).1;
    if !f.Lo() {
      r0, r1 := Move(mem, r0, r1, 2, job, i);
      i := i + 2;
    }
    if !f.Pl() {
      r0, r1 := Move(mem, r0, r1, 1, job, i);
      i := i + 1;
    }
    job.Done(mem[..], r0, r1);
  }

  method TailWords(mem: array<byte>, p0: u32, p1: u32, count: u32, ghost job: Job, ghost start: nat)
    returns (r0: u32, r1: u32, r2: u32, ghost i: nat)
    requires job.At(mem[..], p0, p1, start) && start + 4 <= job.len < start + 32 && count == Biased(job.len - start, 4)
    modifies mem
    ensures start <= i <= job.len < i + 4 && job.At(mem[..], r0, r1, i) && r2 == Biased(job.len - i, 4)
  {
    hide Job.At, Biased, SubS;
    r0, r1, r2, i := p0, p1, count, start;
    var more := true;
    while more
      invariant start <= i <= job.len && job.At(mem[..], r0, r1, i) && r2 == Biased(job.len - i, 4)
      invariant more ==> i + 4 <= job.len
      invariant !more ==> job.len < i + 4
      decreases more, job.len - i
    {
      BiasedFits(job.len - i, 4);
      StepDown(job.len - i, 4);
      r0, r1 := Move(mem, r0, r1, 4, job, i);
      i := i + 4;
      var (r, g) := SubS(r2, 4);
      r2, more := r, g.Ge();
    }
  }

  /** For every alignment of source and destination and every length that does not run past the end
      of memory: exactly the `len` bytes at `dst` change, they become the bytes that were at `src`,
      and the original destination is returned. */
  method MyMemcpy(mem: array<byte>, dst: u32, src: u32, len: u32) returns (ret: u32)
    requires mem.Length <= WORD && dst + len <= mem.Length && src + len <= mem.Length
    requires Apart(dst, src, len)
    modifies mem
    ensures mem[..] == old(mem[..dst]) + old(mem[src..src + len]) + old(mem[dst + len..])
    ensures ret == dst
  {
    hide SubS, AddS, Biased, Copied, Aligned, Job.At;
    ghost var job := Job(mem[..], dst, src, len);
    ghost var i := 0;
    JobStart(job);
    Lead(dst, len);
    var r0, r1 := dst, src;
    var (r2, f) := SubS(len, 0x20);
    if !f.Lo() {
      r2 := AddS(r2, r0).0;
      r0, r1, i := AlignHead(mem, r0, r1, job);
      Trail(dst, len, i);
      r2, f := SubS(r2, r0).0, SubS(r2, r0).1;
      if !f.Lo() {
        r0, r1, r2, i := Blocks(mem, r0, r1, r2, job, i);
      }
    }
    Tail(mem, r0, r1, r2, job, i);
    CopiedAll(job);
    return dst;
  }

  lemma JobStart(job: Job)
    requires job.Ok()
    ensures job.At(job.orig, job.dst, job.src, 0)
  {
    assert Copied(job.orig, job.dst, job.src, 0) == job.orig;
  }

  lemma CopiedAll(job: Job)
    requires job.Ok()
    ensures Copied(job.orig, job.dst, job.src, job.len) ==
            job.orig[..job.dst] + job.orig[job.src..job.src + job.len] + job.orig[job.dst + job.len..]
  {
  }

  /** The counter at entry: 32 too low, or the address 32 before the end. */
  lemma Lead(dst: u32, len: u32)
    requires dst + len <= WORD
    ensures SubS(len, 0x20).0 == Biased(len, 32) && (SubS(len, 0x20).1.c <==> len >= 32)
    ensures len >= 32 ==> AddS(SubS(len, 0x20).0, dst).0 == dst + len - 32
  {
  }

  /** The counter after the head: 32 less than what is left. */
  lemma Trail(dst: u32, len: u32, i: nat)
    requires dst + len <= WORD && 32 <= len && i < 32 && dst + i < WORD
    ensures SubS(dst + len - 32, dst + i).0 == Biased(len - i, 32)
    ensures SubS(dst + len - 32, dst + i).1.c <==> len - i >= 32
    ensures len - i >= 32 ==> Biased(len - i, 32) == len - i - 32
  {
  }
}
