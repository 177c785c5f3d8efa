/** The copy into executable memory: copy, then clean, flush and invalidate every line that the
    copied range touches, in the order that makes the new bytes visible to instruction fetch. */
module MemcpyRx {
  import opened Words
  import opened Arm
  import opened ArmMemcpy
  import opened CacheLines
  import opened CacheStates

  const CALLER_FLAGS: u32 := 0x20
  const ALL_ACCESS: u32 := 0xFFFF_0000

  lemma TestBit5(flags: u32, v: bool)
    ensures LslS(flags, 0x1a, v).1.n <==> flags / 32 % 2 == 1
  {
    Bit5(flags);
    assert LslS(flags, 0x1a, v).1.n <==> flags % 64 >= 32;
  }

  lemma Bit5(flags: nat)
    ensures flags / 32 % 2 == 1 <==> flags % 64 >= 32
  {
    assert flags / 32 == 2 * (flags / 64) + flags % 64 / 32;
  }

  /** What the memory attributes that a translation reports stand for. */
  function MemoryType(par: u32): (r: int)
    ensures r in {2, 8, 0x40, 0x80, 0xD0} || r == 0x8002_2007 - 0x1_0000_0000
  {
    var kind := par % 0x80 / 0x10;
    if kind == 1 then 2
    else if kind == 0 then 0x80
    else if kind == 3 then 8
    else if kind != 5 then UNKNOWN_TYPE
    else if par % 0x10 / 4 == 0 then 0x40
    else if par % 0x10 / 4 == 1 then 0xD0
    else UNKNOWN_TYPE
  }

  const UNKNOWN_TYPE := 0x8002_2007 - WORD

  /** The test of those types: compared signed, the smaller ones first. */
  function IsVaddrMapped(par: u32): (r: bool)
    ensures r <==> par % 0x80 / 0x10 in {0, 1, 3} || (par % 0x80 / 0x10 == 5 && par % 0x10 / 4 == 0)
  {
    var t := MemoryType(par);
    if t == 8 then true else if t <= 8 then t == 2 else t == 0x40 || t == 0x80
  }

  /** Parts of the address space that bit 0 of the flags leaves out. */
  predicate Left(addr: u32, par: u32) {
    if 0x1800_0000 <= addr < 0x2000_0000 then IsVaddrMapped(par)
    else 0x2000_0000 <= addr < 0x4000_0000 || 0x6000_0000 <= addr < 0x8100_0000
  }

  predicate Skips(addr: u32, flags: u32, par: u32) {
    flags % 2 == 1 && Left(addr, par)
  }

  /** The two range tests by unsigned differences that wrap. */
  lemma LeftIs(addr: u32, par: u32)
    ensures SubS(addr, 0x1800_0000).0 < 0x800_0000 <==> 0x1800_0000 <= addr < 0x2000_0000
    ensures SubS(addr, 0x2000_0000).0 < 0x2000_0000 || SubS(addr, 0x6000_0000).0 < 0x2100_0000 <==>
              0x2000_0000 <= addr < 0x4000_0000 || 0x6000_0000 <= addr < 0x8100_0000
  {
  }

  /** Cleans the data cache; unless bit 5 of the flags is set, also writes the range out of the
      second-level cache.  With bit 0 set some parts of the address space are left alone; `par` is what
      translating the address reports. */
  method WritebackRange(cpu: Cpu, addr: u32, size: u32, flags: u32, par: u32) returns (ok: bool)
    requires addr + size <= WORD
    modifies cpu`trace
    ensures size == 0 || Skips(addr, flags, par) ==> ok && cpu.trace == old(cpu.trace)
    ensures size >= 1 && !Skips(addr, flags, par) ==> (ok <==> flags / 32 % 2 == 1 || Mapped(cpu.pages, addr, size))
    ensures size >= 1 && !Skips(addr, flags, par) && ok ==>
              cpu.trace == old(cpu.trace) + WrittenBack(cpu.pages, addr, size, flags)
    ensures forall i :: |old(cpu.trace)| <= i < |cpu.trace| ==>
                          cpu.trace[i].DClean? || (flags / 32 % 2 == 0 && (cpu.trace[i].L2Clean? || cpu.trace[i] == L2Sync))
  {
    if size == 0 {
      return true;
    }
    TestLow1(flags, false);
    TestBit5(flags, false);
    LeftIs(addr, par);
    if !LslS(flags, 0x1f, false).1.Pl() {
      var skip: bool;
      if SubS(addr, 0x1800_0000).0 < 0x800_0000 {
        skip := IsVaddrMapped(par);
      } else {
        skip := SubS(addr, 0x2000_0000).0 < 0x2000_0000 || SubS(addr, 0x6000_0000).0 < 0x2100_0000;
      }
      if skip {
        return true;
      }
    }
    hide LslS, SubS, IsVaddrMapped, OnLines, RangeLines, Left, Mapped, PhysRange;
    ok := WritebackLines(cpu, addr, size, LslS(flags, 0x1a, false).1.Pl());
  }

  /** The part of it that follows the tests of the address. */
  method WritebackLines(cpu: Cpu, addr: u32, size: u32, both: bool) returns (ok: bool)
    requires addr + size <= WORD && size >= 1
    modifies cpu`trace
    ensures ok <==> !both || Mapped(cpu.pages, addr, size)
    ensures ok ==> cpu.trace == old(cpu.trace) + OnLines(DataClean, RangeLines(addr, size)) +
                                if both then OnLines(L2Write, PhysRange(cpu.pages, addr, size)) + [L2Sync] else []
    ensures forall i :: |old(cpu.trace)| <= i < |cpu.trace| ==>
                          cpu.trace[i].DClean? || (both && (cpu.trace[i].L2Clean? || cpu.trace[i] == L2Sync))
  {
    RoundsIff(addr, size);
    hide RangeLines, Rounds, WrappedLines, Mapped, PhysRange, OnLines, OnLine;
    cpu.DcacheCleanRange(addr, size);
    ok := true;
    if both {
      ok := WriteOut(cpu, addr, size);
    }
  }

  method WriteOut(cpu: Cpu, addr: u32, size: u32) returns (ok: bool)
    requires addr + size <= WORD && size >= 1
    modifies cpu`trace
    ensures ok <==> Mapped(cpu.pages, addr, size)
    ensures ok ==> cpu.trace == old(cpu.trace) + OnLines(L2Write, PhysRange(cpu.pages, addr, size)) + [L2Sync]
    ensures old(cpu.trace) <= cpu.trace
    ensures forall i :: |old(cpu.trace)| <= i < |cpu.trace| ==> cpu.trace[i].L2Clean? || cpu.trace[i] == L2Sync
  {
    hide RangeLines, Mapped, PhysRange;
    ok := cpu.ByPages(L2Write, addr, size);
    if !ok {
      ghost var off :| StoppedAt(cpu.pages, L2Write, addr, size, off, old(cpu.trace), cpu.trace);
    }
  }

  /** What writing a range back issues where nothing is left out. */
  ghost function WrittenBack(pages: PageMap, addr: nat, size: nat, flags: u32): seq<Event>
    requires flags / 32 % 2 == 0 ==> Mapped(pages, addr, size)
  {
    OnLines(DataClean, RangeLines(addr, size)) +
    if flags / 32 % 2 == 1 then [] else OnLines(L2Write, PhysRange(pages, addr, size)) + [L2Sync]
  }

  method IcacheAndL2WritebackInvalidateRange(cpu: Cpu, addr: u32, size: u32) returns (ok: bool)
    requires addr + size <= WORD
    modifies cpu`trace
    ensures size == 0 ==> ok && cpu.trace == old(cpu.trace)
    ensures size >= 1 ==> (ok <==> Mapped(cpu.pages, addr, size))
    ensures size >= 1 && ok ==>
              cpu.trace == old(cpu.trace) + OnLines(L2WriteInv, PhysRange(cpu.pages, addr, size)) + [L2Sync]
                           + OnLines(InstrInv, RangeLines(addr, size))
  {
    if size == 0 {
      return true;
    }
    RoundsIff(addr, size);
    ok := cpu.ByPages(L2WriteInv, addr, size);
    if ok {
      cpu.IcacheInvalidateRange(addr, size);
    }
  }

  /** The start of the first line, and the size from there in whole lines, in 32 bits. */
  function Rounded(addr: u32, size: u32): (u32, u32) {
    var nonAlign := addr % LINE;
    var grown: u32 := if nonAlign != 0 then (size + nonAlign) % WORD else size;
    (addr - nonAlign, (grown + 0x1F) % WORD / LINE * LINE)
  }

  /** The rounded range has the same lines and lies in the same pages.  The sum does not wrap as
      long as the range ends 32 bytes short of a full turn of the address space. */
  lemma RoundedSame(pages: PageMap, addr: u32, size: u32)
    requires addr + size <= WORD && addr % LINE + size <= WORD - LINE
    ensures var (a, n) := Rounded(addr, size);
            && a + n <= WORD
            && (size >= 1 ==> n >= 1 && RangeLines(a, n) == RangeLines(addr, size))
            && (size >= 1 ==> (Mapped(pages, a, n) <==> Mapped(pages, addr, size)))
            && (size >= 1 && Mapped(pages, addr, size) ==> PhysRange(pages, a, n) == PhysRange(pages, addr, size))
  {
    var (a, n) := Rounded(addr, size);
    RoundedEnd(addr, size);
    if size >= 1 {
      assert a / LINE == addr / LINE && (a + n - 1) / LINE == (addr + size - 1) / LINE;
      LinePage(a, addr);
      LinePage(a + n - 1, addr + size - 1);
    }
  }

  lemma RoundedEnd(addr: u32, size: u32)
    requires addr + size <= WORD && addr % LINE + size <= WORD - LINE
    ensures var (a, n) := Rounded(addr, size);
            a == addr / LINE * LINE && (size >= 1 ==> a + n == (addr + size - 1) / LINE * LINE + LINE) && a + n <= WORD
  {
    var q, r := addr / LINE, addr % LINE;
    assert addr == LINE * q + r;
    Upwards(q, r + size);
  }

  lemma LineIs(x: nat, q: nat, r: nat)
    requires x == LINE * q + r && r < LINE
    ensures x / LINE == q
  {
  }

  /** Rounding up from a line boundary. */
  lemma Upwards(q: nat, n: nat)
    requires LINE * q + n <= WORD && n <= WORD - LINE
    ensures (n + 0x1F) % WORD / LINE * LINE + LINE * q <= WORD
    ensures n >= 1 ==> (n + 0x1F) % WORD / LINE * LINE + LINE * q == (LINE * q + n - 1) / LINE * LINE + LINE
  {
    assert (n + 0x1F) % WORD == n + 0x1F;
    if n >= 1 {
      var k, m := (n - 1) / LINE, (n - 1) % LINE;
      LineIs(n + 0x1F, k + 1, m);
      LineIs(LINE * q + n - 1, q + k, m);
    }
  }

  lemma LinePage(a: nat, b: nat)
    requires a / LINE == b / LINE
    ensures a / PAGE == b / PAGE
  {
    assert a / PAGE == a / LINE / 128;
    assert b / PAGE == b / LINE / 128;
  }

  /** A range of no bytes is rounded to the line of its address, or to nothing at a line's start. */
  lemma RoundedEmpty(addr: u32)
    ensures addr % LINE == 0 ==> Rounded(addr, 0) == (addr, 0)
    ensures addr % LINE != 0 ==> var (a, n) := Rounded(addr, 0); n == LINE && a + n <= WORD && RangeLines(a, n) == [addr / LINE]
  {
  }

  /** Without bytes the line loop does not stop at once: it goes through the whole address space, 32
      times over unless it starts at 0. */
  lemma EmptyRounds(addr: u32)
    requires addr % LINE == 0
    ensures Rounds(addr, 0) == if addr == 0 then WORD / LINE else WORD
  {
  }

  /** What the flush of a range of whole lines issues. */
  ghost function Flushed(pages: PageMap, addr: nat, size: nat): seq<Event>
    requires Mapped(pages, addr, size)
  {
    OnLines(DataCleanInv, RangeLines(addr, size)) + OnLines(L2WriteInv, PhysRange(pages, addr, size)) + [L2Sync]
    + OnLines(InstrInv, RangeLines(addr, size))
  }

  method CacheFlush(cpu: Cpu, addr: u32, size: u32) returns (ok: bool)
    requires addr + size <= WORD && addr % LINE + size <= WORD - LINE
    modifies cpu`trace
    ensures size >= 1 ==> (ok <==> Mapped(cpu.pages, addr, size))
    ensures size >= 1 && ok ==> cpu.trace == old(cpu.trace) + Flushed(cpu.pages, addr, size)
    ensures size == 0 && addr % LINE != 0 ==> (ok <==> Mapped(cpu.pages, addr / LINE * LINE, LINE))
    ensures size == 0 && addr % LINE != 0 && ok ==> cpu.trace == old(cpu.trace) + Flushed(cpu.pages, addr / LINE * LINE, LINE)
    ensures size == 0 && addr % LINE == 0 ==>
              ok && cpu.trace == old(cpu.trace) + OnLines(DataCleanInv, WrappedLines(addr, Rounds(addr, 0)))
  {
    hide RangeLines, PhysRange, Mapped, OnLines, WrappedLines, Rounds;
    RoundedSame(cpu.pages, addr, size);
    RoundedEmpty(addr);
    RoundedEnd(addr, size);
    var (a, n) := Rounded(addr, size);
    hide Rounded;
    if n >= 1 {
      RoundsIff(a, n);
    }
    cpu.DcacheWritebackInvalidateRange(a, n);
    ok := IcacheAndL2WritebackInvalidateRange(cpu, a, n);
  }

  /** The lines that the copying routine cleans: those of the range, and for an empty range the line it
      starts inside. */
  function CleanedLines(dst: nat, len: nat): seq<nat> {
    if len == 0 && dst % LINE != 0 then [dst / LINE] else RangeLines(dst, len)
  }

  method UnrestrictedMemcpy(cpu: Cpu, mem: array<byte>, dst: u32, src: u32, len: u32)
    requires mem.Length <= WORD && dst + len <= mem.Length && src + len <= mem.Length && Apart(dst, src, len)
    requires dst % LINE + len <= WORD - LINE
    modifies cpu`trace, cpu`dacr, mem
    ensures mem[..] == old(mem[..dst]) + old(mem[src..src + len]) + old(mem[dst + len..])
    ensures cpu.dacr == old(cpu.dacr)
    ensures cpu.trace == old(cpu.trace) + [SetDacr(0xFFFF_0000)] + OnLines(DataClean, CleanedLines(dst, len)) + [SetDacr(cpu.dacr)]
  {
    RoundedEmpty(dst);
    NoLines(DataClean);
    hide RangeLines, OnLines, Mapped, PhysRange;
    var prev := cpu.dacr;
    cpu.dacr := ALL_ACCESS;
    cpu.Issue(SetDacr(ALL_ACCESS));
    var _ := MyMemcpy(mem, dst, src, len);
    RoundedSame(cpu.pages, dst, len);
    var (a, n) := Rounded(dst, len);
    hide Rounded;
    var _ := WritebackRange(cpu, a, n, CALLER_FLAGS, 0);
    cpu.dacr := prev;
    cpu.Issue(SetDacr(prev));
  }

  lemma NoLines(kind: Kind)
    ensures OnLines(kind, []) == [] && forall addr: nat :: RangeLines(addr, 0) == []
  {
  }

  /** The whole copy.  It issues exactly what the lines of its range call for if and only if there is
      a byte to copy. */
  method Copy(cpu: Cpu, mem: array<byte>, dst: u32, src: u32, len: u32) returns (ok: bool)
    requires mem.Length <= WORD && dst + len <= mem.Length && src + len <= mem.Length && Apart(dst, src, len)
    requires dst % LINE + len <= WORD - LINE
    modifies cpu`trace, cpu`dacr, mem
    ensures mem[..] == old(mem[..dst]) + old(mem[src..src + len]) + old(mem[dst + len..])
    ensures cpu.dacr == old(cpu.dacr)
    ensures ok <==> if len >= 1 then Mapped(cpu.pages, dst, len) else dst % LINE == 0 || Mapped(cpu.pages, dst / LINE * LINE, LINE)
    ensures ok && len == 0 ==> cpu.trace == old(cpu.trace) + IssuedEmpty(cpu.pages, cpu.dacr, dst)
    ensures ok ==> Mapped(cpu.pages, dst, len) && (cpu.trace == old(cpu.trace) + Issued(cpu.pages, cpu.dacr, dst, len) <==> len >= 1)
  {
    if len == 0 && (dst % LINE != 0 ==> Mapped(cpu.pages, dst / LINE * LINE, LINE)) {
      EmptyDiffers(cpu.pages, cpu.dacr, dst);
    }
    hide RangeLines, OnLines, PhysRange, Mapped, Issued, IssuedEmpty, Flushed;
    ghost var was := cpu.trace;
    UnrestrictedMemcpy(cpu, mem, dst, src, len);
    ok := CacheFlush(cpu, dst, len);
    if ok {
      Together(cpu.pages, cpu.dacr, dst, len, was);
    }
  }

  lemma Regroup(w: seq<Event>, a: seq<Event>, b: seq<Event>, c: seq<Event>, d: seq<Event>)
    ensures w + a + b + c + d == w + (a + b + c + d)
  {
  }

  /** The two parts of a copy are what it issues. */
  lemma Together(pages: PageMap, dacr: u32, dst: u32, len: u32, was: seq<Event>)
    requires if len >= 1 then Mapped(pages, dst, len) else dst % LINE != 0 ==> Mapped(pages, dst / LINE * LINE, LINE)
    ensures var first := was + [SetDacr(ALL_ACCESS)] + OnLines(DataClean, CleanedLines(dst, len)) + [SetDacr(dacr)];
            && (len >= 1 ==> first + Flushed(pages, dst, len) == was + Issued(pages, dacr, dst, len))
            && (len == 0 && dst % LINE != 0 ==> first + Flushed(pages, dst / LINE * LINE, LINE) == was + IssuedEmpty(pages, dacr, dst))
            && (len == 0 && dst % LINE == 0 ==>
                  first + OnLines(DataCleanInv, WrappedLines(dst, Rounds(dst, 0))) == was + IssuedEmpty(pages, dacr, dst))
  {
    NoLines(DataClean);
    hide OnLines, PhysRange, RangeLines, Mapped, WrappedLines, Rounds, Flushed;
    var s, c, e := [SetDacr(ALL_ACCESS)], OnLines(DataClean, CleanedLines(dst, len)), [SetDacr(dacr)];
    if len >= 1 {
      Regroup(was, s, c, e, Flushed(pages, dst, len));
    } else if dst % LINE != 0 {
      Regroup(was, s, c, e, Flushed(pages, dst / LINE * LINE, LINE));
    } else {
      Regroup(was, s, c, e, OnLines(DataCleanInv, WrappedLines(dst, Rounds(dst, 0))));
      assert was + s + [] == was + s && s + [] == s;
    }
  }

  lemma EmptyDiffers(pages: PageMap, dacr: u32, dst: u32)
    requires dst % LINE != 0 ==> Mapped(pages, dst / LINE * LINE, LINE)
    ensures Mapped(pages, dst, 0) && IssuedEmpty(pages, dacr, dst) != Issued(pages, dacr, dst, 0)
  {
    NoLines(DataClean);
    assert |Issued(pages, dacr, dst, 0)| == 3;
    if dst % LINE == 0 {
      EmptyRounds(dst);
    }
    assert |IssuedEmpty(pages, dacr, dst)| > 3;
  }

  /** What a copy to a mapped range issues. */
  ghost function Issued(pages: PageMap, dacr: u32, dst: nat, len: nat): seq<Event>
    requires Mapped(pages, dst, len)
  {
    [SetDacr(ALL_ACCESS)] + OnLines(DataClean, RangeLines(dst, len)) + [SetDacr(dacr)] + Flushed(pages, dst, len)
  }

  /** What a copy of nothing issues: inside a line it treats that line as copied to, and at the start
      of one it cleans every data line there is. */
  ghost function IssuedEmpty(pages: PageMap, dacr: u32, dst: u32): seq<Event>
    requires dst % LINE != 0 ==> Mapped(pages, dst / LINE * LINE, LINE)
  {
    if dst % LINE != 0 then
      [SetDacr(ALL_ACCESS)] + OnLines(DataClean, [dst / LINE]) + [SetDacr(dacr)] + Flushed(pages, dst / LINE * LINE, LINE)
    else [SetDacr(ALL_ACCESS)] + [SetDacr(dacr)] + OnLines(DataCleanInv, WrappedLines(dst, Rounds(dst, 0)))
  }

  // ---------- what it does to the caches

  /** After the flush of a range, whatever the caches held before: no line of it is held in the data
      cache, no physical line of it in the second-level cache, and none is stale for instructions.  No
      data is lost, and no other line is dropped or written out. */
  lemma FlushDrops(pages: PageMap, addr: nat, size: nat, s: Caches)
    requires size >= 1 && Mapped(pages, addr, size)
    ensures var r := SetOf(RangeLines(addr, size));
            && AllMapped(pages, r)
            && Replay(pages, s, Flushed(pages, addr, size)) == Dropped(pages, s, r)
  {
    var lines, phys := RangeLines(addr, size), PhysRange(pages, addr, size);
    var r := SetOf(lines);
    PhysSetOf(pages, addr, size);
    SetsAfter(pages, s, r);
    var t := AfterCleans(pages, s, r, true);
    var u := t.(heldL2 := t.heldL2 - PhysSet(pages, r), dirtyL2 := t.dirtyL2 - PhysSet(pages, r));
    LinesClean(pages, lines, u);
    hide RangeLines, PhysRange, SetOf, PhysSet, Replay;
    ReplayCleans(pages, s, DataCleanInv, lines);
    ReplayL2(pages, t, L2WriteInv, phys);
    ReplayInstr(pages, u, lines);
    hide OnLines;
    var first := OnLines(DataCleanInv, lines);
    ReplayThen(pages, s, first, OnLines(L2WriteInv, phys), t);
    ReplayIdle(pages, u, L2Sync);
    ReplayThen(pages, s, first + OnLines(L2WriteInv, phys), [L2Sync], u);
    ReplayThen(pages, s, first + OnLines(L2WriteInv, phys) + [L2Sync], OnLines(InstrInv, lines), u);
  }

  /** The same line by line: what was dirty has been written out, and nothing of the range is held. */
  lemma FlushHoldsNone(pages: PageMap, addr: nat, size: nat, s: Caches, line: nat)
    requires size >= 1 && Mapped(pages, addr, size) && Meets(line, addr, size)
    ensures line / 128 in pages
    ensures var t := Replay(pages, s, Flushed(pages, addr, size));
            && line !in t.held && line !in t.dirty && line !in t.stale
            && PhysLine(pages, line) !in t.heldL2 && PhysLine(pages, line) !in t.dirtyL2
  {
    FlushDrops(pages, addr, size, s);
    RangeLinesMeet(addr, size);
    hide RangeLines, Replay, Flushed;
    assert line in SetOf(RangeLines(addr, size));
  }

  /** Writing a range back drops no line from either cache, whatever they held and whatever the flags:
      lines only become clean.  The data reaches memory unless bit 5 of the flags keeps it in the
      second-level cache. */
  lemma WritebackDropsNone(pages: PageMap, addr: nat, size: nat, flags: u32, s: Caches)
    requires size >= 1 && Mapped(pages, addr, size)
    ensures var r, t := SetOf(RangeLines(addr, size)), Replay(pages, s, WrittenBack(pages, addr, size, flags));
            && AllMapped(pages, r)
            && t.held == s.held && t.heldL2 >= s.heldL2 && t.dirty == s.dirty - r && t.stale == s.stale
            && t.heldL2 == s.heldL2 + PhysSet(pages, s.dirty * r)
            && (flags / 32 % 2 == 1 ==> t.dirtyL2 == s.dirtyL2 + PhysSet(pages, s.dirty * r))
            && (flags / 32 % 2 == 0 ==> t.dirtyL2 == s.dirtyL2 - PhysSet(pages, r))
  {
    var lines, phys := RangeLines(addr, size), PhysRange(pages, addr, size);
    var r := SetOf(lines);
    PhysSetOf(pages, addr, size);
    SetsAfter(pages, s, r);
    hide RangeLines, PhysRange, SetOf, PhysSet, Replay;
    var t := AfterCleans(pages, s, r, false);
    ReplayCleans(pages, s, DataClean, lines);
    if flags / 32 % 2 == 0 {
      ReplayL2(pages, t, L2Write, phys);
      var u := t.(dirtyL2 := t.dirtyL2 - PhysSet(pages, r));
      hide OnLines;
      ReplayIdle(pages, u, L2Sync);
      ReplayThen(pages, t, OnLines(L2Write, phys), [L2Sync], u);
      ReplayThen(pages, s, OnLines(DataClean, lines), OnLines(L2Write, phys) + [L2Sync], t);
    } else {
      assert WrittenBack(pages, addr, size, flags) == OnLines(DataClean, lines);
    }
  }

  /** After the copy, whatever the caches held before: no line of the copied range is held or dirty in
      the data cache or in the second-level cache, none is stale in the instruction cache, and no
      other line has been affected.  The order of the three steps matters: each level is emptied
      only after everything above it has been. */
  lemma CopyIsCoherent(pages: PageMap, dacr: u32, dst: nat, len: nat, s: Caches)
    requires len >= 1 && Mapped(pages, dst, len)
    ensures var r := SetOf(RangeLines(dst, len));
            && AllMapped(pages, r)
            && Replay(pages, s, Issued(pages, dacr, dst, len)) == Dropped(pages, s, r)
  {
    var lines := RangeLines(dst, len);
    var r := SetOf(lines);
    PhysSetOf(pages, dst, len);
    SetsAfter(pages, s, r);
    var t := AfterCleans(pages, s, r, false);
    FlushDrops(pages, dst, len, t);
    hide RangeLines, SetOf, PhysSet, Replay, Flushed;
    assert Dropped(pages, t, r) == Dropped(pages, s, r);
    ReplayCleans(pages, s, DataClean, lines);
    hide OnLines;
    var a, c, b := [SetDacr(ALL_ACCESS)], OnLines(DataClean, lines), [SetDacr(dacr)];
    ReplayIdle(pages, s, SetDacr(ALL_ACCESS));
    ReplayThen(pages, s, a, c, s);
    ReplayIdle(pages, t, SetDacr(dacr));
    ReplayThen(pages, s, a + c, b, t);
    ReplayThen(pages, s, a + c + b, Flushed(pages, dst, len), t);
  }
}
