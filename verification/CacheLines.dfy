/** Cache maintenance by 32-byte lines and 4 KiB pages.  Every maintenance operation is recorded in the
    order in which it is issued; `CacheStates` says what such a record means for the caches.  Barrier
    instructions are not recorded. */
module CacheLines {
  import opened Words
  import opened Arm

  const LINE: int := 32
  const PAGE: int := 0x1000

  /** Cache operations, with the line they act on: a virtual line for the first-level caches, a
      physical line for the second-level cache. */
  datatype Event =
    | DClean(line: nat)
    | DCleanInv(line: nat)
    | IInv(line: nat)
    | L2Clean(line: nat)
    | L2CleanInv(line: nat)
    | L2Sync
    | SetDacr(value: u32)

  datatype Kind = DataClean | DataCleanInv | InstrInv | L2Write | L2WriteInv

  function OnLine(kind: Kind, line: nat): Event {
    match kind
    case DataClean => DClean(line)
    case DataCleanInv => DCleanInv(line)
    case InstrInv => IInv(line)
    case L2Write => L2Clean(line)
    case L2WriteInv => L2CleanInv(line)
  }

  // ---------- which lines

  /** Some byte of [addr, addr + size) lies on the line. */
  ghost predicate Meets(line: nat, addr: nat, size: nat) {
    exists a :: addr <= a < addr + size && a / LINE == line
  }

  /** `count` consecutive lines from `first` on. */
  function Lines(first: nat, count: nat): (s: seq<nat>)
    ensures |s| == count && forall i :: 0 <= i < count ==> s[i] == first + i
  {
    seq(count, i requires 0 <= i => first + i)
  }

  /** The lines of a range, in order. */
  function RangeLines(addr: nat, size: nat): (s: seq<nat>) {
    if size == 0 then [] else Lines(addr / LINE, (addr + size - 1) / LINE - addr / LINE + 1)
  }

  /** The lines of a range are the lines that some byte of it lies on, each once. */
  lemma RangeLinesMeet(addr: nat, size: nat)
    ensures forall line: nat :: line in RangeLines(addr, size) <==> Meets(line, addr, size)
    ensures forall i, j :: 0 <= i < j < |RangeLines(addr, size)| ==> RangeLines(addr, size)[i] != RangeLines(addr, size)[j]
  {
    forall line: nat
      ensures line in RangeLines(addr, size) <==> Meets(line, addr, size)
    {
      if line in RangeLines(addr, size) {
        var a := if line == addr / LINE then addr else line * LINE;
        assert addr <= a < addr + size && a / LINE == line;
      }
      if Meets(line, addr, size) {
        var a :| addr <= a < addr + size && a / LINE == line;
        assert addr / LINE <= line <= (addr + size - 1) / LINE;
        assert RangeLines(addr, size)[line - addr / LINE] == line;
      }
    }
  }

  /** How often the line loop runs: its counter is a 32-bit difference of line numbers, tested for
      borrow after the operation. */
  function Rounds(addr: u32, size: u32): (n: nat)
    requires addr + size <= WORD
  {
    var last := SubS(AddS(addr, size).0, 1).0 / LINE;
    SubS(last, addr / LINE).0 + 1
  }

  /** The lines of `count` addresses 32 apart, in 32 bits. */
  function WrappedLines(addr: u32, count: nat): (s: seq<nat>)
    ensures |s| == count && forall i :: 0 <= i < count ==> s[i] == (addr + LINE * i) % WORD / LINE
  {
    seq(count, i requires 0 <= i => (addr + LINE * i) % WORD / LINE)
  }

  /** The line loop acts on exactly the lines of its range, in order, if and only if the range is
      not empty. */
  lemma RoundsIff(addr: u32, size: u32)
    requires addr + size <= WORD
    ensures WrappedLines(addr, Rounds(addr, size)) == RangeLines(addr, size) <==> size >= 1
  {
    if size >= 1 {
      assert SubS(AddS(addr, size).0, 1).0 == addr + size - 1;
      var w, r := WrappedLines(addr, Rounds(addr, size)), RangeLines(addr, size);
      forall i | 0 <= i < |r| ensures w[i] == r[i] {
        LineStep(addr, i, addr + size);
      }
    }
  }

  lemma LineStep(addr: nat, i: nat, end: nat)
    requires addr < end <= WORD && addr / LINE + i <= (end - 1) / LINE
    ensures (addr + LINE * i) % WORD / LINE == addr / LINE + i
  {
    assert addr + LINE * i < WORD;
  }

  ghost function OnLines(kind: Kind, lines: seq<nat>): (s: seq<Event>)
    ensures |s| == |lines| && forall i :: 0 <= i < |lines| ==> s[i] == OnLine(kind, lines[i])
  {
    seq(|lines|, i requires 0 <= i < |lines| => OnLine(kind, lines[i]))
  }

  lemma OnLinesConcat(kind: Kind, a: seq<nat>, b: seq<nat>)
    ensures OnLines(kind, a + b) == OnLines(kind, a) + OnLines(kind, b)
  {
  }

  // ---------- translation

  /** Virtual page numbers that are mapped, with the physical page behind each. */
  type PageMap = m: map<nat, nat> | forall p :: p in m ==> m[p] < 0x10_0000 witness map[]

  ghost predicate Mapped(pages: PageMap, addr: nat, size: nat) {
    forall p :: addr / PAGE <= p <= (addr + size - 1) / PAGE && size > 0 ==> p in pages
  }

  /** The physical line behind a virtual one. */
  function PhysLine(pages: PageMap, line: nat): nat
    requires line / 128 in pages
  {
    pages[line / 128] * 128 + line % 128
  }

  ghost function PhysLines(pages: PageMap, lines: seq<nat>): (s: seq<nat>)
    requires forall i :: 0 <= i < |lines| ==> lines[i] / 128 in pages
    ensures |s| == |lines| && forall i :: 0 <= i < |lines| ==> s[i] == PhysLine(pages, lines[i])
  {
    seq(|lines|, i requires 0 <= i < |lines| => PhysLine(pages, lines[i]))
  }

  class Cpu {
    var trace: seq<Event>
    var dacr: u32
    const pages: PageMap

    constructor (pages: PageMap)
      ensures trace == [] && this.pages == pages
    {
      this.pages := pages;
      trace, dacr := [], 0;
    }

    method Issue(ev: Event)
      modifies this`trace
      ensures trace == old(trace) + [ev]
    {
      trace := trace + [ev];
    }

    /** The loop over the lines of a range. */
    method ByLines(kind: Kind, addr: u32, size: u32)
      requires addr + size <= WORD
      modifies this`trace
      ensures trace == old(trace) + OnLines(kind, WrappedLines(addr, Rounds(addr, size)))
    {
      var r0: u32 := addr;
      var r2: u32 := AddS(addr, size).0;
      r2 := SubS(r2, 1).0;
      r2 := r2 / LINE;
      r2 := SubS(r2, addr / LINE).0;
      ghost var n := r2 + 1;
      assert n == Rounds(addr, size);
      ghost var i := 0;
      var more := true;
      hide SubS, AddS, OnLine, Rounds;
      while more
        invariant 0 <= i <= n && r0 == (addr + LINE * i) % WORD
        invariant trace == old(trace) + OnLines(kind, WrappedLines(addr, i))
        invariant more ==> i + r2 + 1 == n
        invariant !more ==> i == n
        decreases more, n - i
      {
        Issue(OnLine(kind, r0 / LINE));
        OneMoreLine(kind, addr, i);
        NextLine(r0, addr, i);
        CountDown(r2);
        r0 := AddS(r0, 0x20).0;
        i := i + 1;
        var (r, f) := SubS(r2, 1);
        r2, more := r, f.Hs();
      }
    }

    method DcacheCleanRange(addr: u32, size: u32)
      requires addr + size <= WORD
      modifies this`trace
      ensures trace == old(trace) + OnLines(DataClean, WrappedLines(addr, Rounds(addr, size)))
      ensures forall i :: |old(trace)| <= i < |trace| ==> trace[i].DClean?
    {
      ByLines(DataClean, addr, size);
    }

    method DcacheWritebackInvalidateRange(addr: u32, size: u32)
      requires addr + size <= WORD
      modifies this`trace
      ensures trace == old(trace) + OnLines(DataCleanInv, WrappedLines(addr, Rounds(addr, size)))
      ensures forall i :: |old(trace)| <= i < |trace| ==> trace[i].DCleanInv?
    {
      ByLines(DataCleanInv, addr, size);
    }

    method IcacheInvalidateRange(addr: u32, size: u32)
      requires addr + size <= WORD
      modifies this`trace
      ensures trace == old(trace) + OnLines(InstrInv, WrappedLines(addr, Rounds(addr, size)))
      ensures forall i :: |old(trace)| <= i < |trace| ==> trace[i].IInv?
    {
      ByLines(InstrInv, addr, size);
    }

    /** Writes the physical lines of a range to a second-level cache register.  Here the counter is
        in bytes, signed, and starts from the beginning of the first line. */
    method WriteL2(kind: Kind, paddr: u32, size: u32)
      requires paddr + size <= WORD && size + 0x1f < HALF
      modifies this`trace
      ensures trace == old(trace) + OnLines(kind, RangeLines(paddr, size))
    {
      if size == 0 {
        return;
      }
      ghost var was := trace;
      var r3: u32 := paddr % LINE;
      var r0: u32 := paddr - r3;
      var r1: u32 := AddS(size, r3).0;
      ghost var first, n := paddr / LINE, |RangeLines(paddr, size)|;
      ghost var i := 0;
      L2Count(paddr, size);
      var more := true;
      hide SubS, AddS, OnLine, RangeLines;
      while more
        invariant 0 <= i <= n && r0 == (LINE * (first + i)) % WORD
        invariant trace == was + OnLines(kind, Lines(first, i))
        invariant more ==> i < n && LINE * (n - i - 1) < r1 <= LINE * (n - i) && r1 < HALF && first + i < WORD / LINE
        invariant !more ==> i == n
        decreases more, n - i
      {
        Issue(OnLine(kind, r0 / LINE));
        OneMoreConsecutive(kind, first, i);
        L2Step(r0, r1, first + i);
        r0 := AddS(r0, 0x20).0;
        i := i + 1;
        var (r, f) := SubS(r1, 0x20);
        r1, more := r, f.Gt();
      }
    }

    /** Virtual to physical, keeping the position in the page. */
    method GetPaddr(va: u32) returns (ok: bool, pa: u32)
      ensures ok <==> va / PAGE in pages
      ensures ok ==> pa == pages[va / PAGE] * PAGE + va % PAGE
    {
      if va / PAGE !in pages {
        return false, 0;
      }
      return true, pages[va / PAGE] * PAGE + va % PAGE;
    }

    /** Splits a range at page boundaries, translates each part and writes its lines; gives up at
        the first part that is not mapped.  The parts cover the range, and every line of it is
        written exactly once, at its physical place. */
    method ByPages(kind: Kind, addr: u32, size: u32) returns (ok: bool)
      requires addr + size <= WORD && size >= 1
      modifies this`trace
      ensures ok <==> Mapped(pages, addr, size)
      ensures ok ==> trace == old(trace) + OnLines(kind, PhysRange(pages, addr, size)) + [L2Sync]
      ensures !ok ==> exists off :: StoppedAt(pages, kind, addr, size, off, old(trace), trace)
    {
      hide OnLine, PhysRange, RangeLines, AddS, SubS, Mapped, OnLines;
      ghost var was := trace;
      var r6: u32, r5: u32, r4: u32 := addr, size, PAGE - addr % PAGE;
      ghost var off: nat := 0;
      var more := true;
      EmptyRange(pages, kind, addr);
      while more
        invariant off <= size && Mapped(pages, addr, off) && was <= trace
        invariant trace == was + OnLines(kind, PhysRange(pages, addr, off))
        invariant more ==> r6 == addr + off && r5 == size - off > 0 && r4 == PAGE - r6 % PAGE
        invariant more ==> off == 0 || r6 % PAGE == 0
        invariant !more ==> off == size
        decreases more, size - off
      {
        var mapped, paddr := GetPaddr(r6);
        if !mapped {
          NotMapped(pages, addr, size, r6);
          assert StoppedAt(pages, kind, addr, size, off, was, trace);
          return false;
        }
        if r4 >= r5 {
          r4 := r5;
        }
        OnePage(pages, r6, r4, paddr);
        Continues(pages, kind, addr, off, r4);
        WriteL2(kind, paddr, r4);
        off := off + r4;
        r5 := r5 - r4;
        more := r5 != 0;
        if more {
          r6 := r6 + r4;
          r4 := PAGE;
        }
      }
      Issue(L2Sync);
      return true;
    }
  }

  /** The physical lines of a mapped range, in order. */
  ghost function PhysRange(pages: PageMap, addr: nat, size: nat): seq<nat>
    requires Mapped(pages, addr, size)
  {
    LinesMapped(pages, addr, size);
    PhysLines(pages, RangeLines(addr, size))
  }

  /** The lines before the first unmapped page have been written, and nothing after them. */
  ghost predicate StoppedAt(pages: PageMap, kind: Kind, addr: nat, size: nat, off: nat, was: seq<Event>, now: seq<Event>) {
    && off < size && Mapped(pages, addr, off) && (addr + off) / PAGE !in pages
    && now == was + OnLines(kind, PhysRange(pages, addr, off))
  }

  lemma LinesMapped(pages: PageMap, addr: nat, size: nat)
    requires Mapped(pages, addr, size)
    ensures forall i :: 0 <= i < |RangeLines(addr, size)| ==> RangeLines(addr, size)[i] / 128 in pages
  {
    var s := RangeLines(addr, size);
    forall i | 0 <= i < |s| ensures s[i] / 128 in pages {
      assert addr / PAGE <= s[i] / 128 <= (addr + size - 1) / PAGE;
    }
  }

  lemma EmptyRange(pages: PageMap, kind: Kind, addr: nat)
    ensures Mapped(pages, addr, 0) && OnLines(kind, PhysRange(pages, addr, 0)) == []
  {
  }

  lemma NotMapped(pages: PageMap, addr: nat, size: nat, va: nat)
    requires addr <= va < addr + size && va / PAGE !in pages
    ensures !Mapped(pages, addr, size)
  {
    assert addr / PAGE <= va / PAGE <= (addr + size - 1) / PAGE;
  }

  /** Inside one page the physical lines are consecutive. */
  lemma OnePage(pages: PageMap, va: nat, size: nat, pa: nat)
    requires va / PAGE in pages && pa == pages[va / PAGE] * PAGE + va % PAGE
    requires 1 <= size && va % PAGE + size <= PAGE
    ensures pa + size <= WORD && Mapped(pages, va, size) && RangeLines(pa, size) == PhysRange(pages, va, size)
  {
    assert (va + size - 1) / PAGE == va / PAGE;
    LinesMapped(pages, va, size);
    var v, p := RangeLines(va, size), RangeLines(pa, size);
    assert pa / LINE == pages[va / PAGE] * 128 + va % PAGE / LINE;
    assert va / LINE == va / PAGE * 128 + va % PAGE / LINE;
    assert |v| == |p|;
    forall i | 0 <= i < |v| ensures p[i] == PhysLine(pages, v[i]) {
    }
  }

  lemma JoinRanges(addr: nat, off: nat, n: nat)
    requires 1 <= n && (off == 0 || (addr + off) % LINE == 0)
    ensures RangeLines(addr, off + n) == RangeLines(addr, off) + RangeLines(addr + off, n)
  {
    if off > 0 {
      assert (addr + off - 1) / LINE + 1 == (addr + off) / LINE;
    }
  }

  /** A range grows by a part that begins on a page boundary. */
  lemma Continues(pages: PageMap, kind: Kind, addr: nat, off: nat, n: nat)
    requires Mapped(pages, addr, off) && Mapped(pages, addr + off, n) && 1 <= n
    requires off == 0 || (addr + off) % PAGE == 0
    ensures Mapped(pages, addr, off + n)
    ensures OnLines(kind, PhysRange(pages, addr, off + n)) ==
            OnLines(kind, PhysRange(pages, addr, off)) + OnLines(kind, PhysRange(pages, addr + off, n))
  {
    hide RangeLines, Mapped, PhysLines, PhysRange, OnLines;
    MappedJoin(pages, addr, off, n);
    PhysJoin(pages, addr, off, n);
    OnLinesConcat(kind, PhysRange(pages, addr, off), PhysRange(pages, addr + off, n));
  }

  lemma PhysJoin(pages: PageMap, addr: nat, off: nat, n: nat)
    requires Mapped(pages, addr, off) && Mapped(pages, addr + off, n) && Mapped(pages, addr, off + n) && 1 <= n
    requires off == 0 || (addr + off) % PAGE == 0
    ensures PhysRange(pages, addr, off + n) == PhysRange(pages, addr, off) + PhysRange(pages, addr + off, n)
  {
    hide RangeLines, Mapped, PhysLines;
    PageIsLine(addr + off);
    JoinRanges(addr, off, n);
    LinesMapped(pages, addr, off);
    LinesMapped(pages, addr + off, n);
    PhysConcat(pages, RangeLines(addr, off), RangeLines(addr + off, n));
  }

  lemma PageIsLine(a: nat)
    ensures a % PAGE == 0 ==> a % LINE == 0
  {
  }

  lemma PhysConcat(pages: PageMap, a: seq<nat>, b: seq<nat>)
    requires forall i :: 0 <= i < |a| ==> a[i] / 128 in pages
    requires forall i :: 0 <= i < |b| ==> b[i] / 128 in pages
    ensures forall i :: 0 <= i < |a + b| ==> (a + b)[i] / 128 in pages
    ensures PhysLines(pages, a + b) == PhysLines(pages, a) + PhysLines(pages, b)
  {
  }

  lemma MappedJoin(pages: PageMap, addr: nat, off: nat, n: nat)
    requires Mapped(pages, addr, off) && Mapped(pages, addr + off, n) && 1 <= n
    requires off == 0 || (addr + off) % PAGE == 0
    ensures Mapped(pages, addr, off + n)
  {
    if off > 0 {
      assert (addr + off - 1) / PAGE + 1 == (addr + off) / PAGE;
    }
  }

  lemma OneMoreLine(kind: Kind, addr: u32, i: nat)
    ensures OnLines(kind, WrappedLines(addr, i + 1)) ==
            OnLines(kind, WrappedLines(addr, i)) + [OnLine(kind, (addr + LINE * i) % WORD / LINE)]
  {
  }

  lemma OneMoreConsecutive(kind: Kind, first: nat, i: nat)
    ensures OnLines(kind, Lines(first, i + 1)) == OnLines(kind, Lines(first, i)) + [OnLine(kind, first + i)]
  {
  }

  lemma NextLine(r0: u32, addr: u32, i: nat)
    requires r0 == (addr + LINE * i) % WORD
    ensures AddS(r0, 0x20).0 == (addr + LINE * (i + 1)) % WORD
  {
  }

  lemma CountDown(r2: u32)
    ensures SubS(r2, 1).1.c <==> r2 >= 1
    ensures r2 >= 1 ==> SubS(r2, 1).0 == r2 - 1
  {
  }

  /** The byte counter of the second-level loop covers exactly the lines of the range. */
  lemma L2Count(paddr: u32, size: u32)
    requires paddr + size <= WORD && 1 <= size && size + 0x1f < HALF
    ensures var n := |RangeLines(paddr, size)|; var r1 := AddS(size, paddr % LINE).0;
            && RangeLines(paddr, size) == Lines(paddr / LINE, n)
            && LINE * (n - 1) < r1 <= LINE * n && r1 < HALF && paddr / LINE + n <= WORD / LINE
  {
  }

  lemma L2Step(r0: u32, r1: u32, line: nat)
    requires r0 == (LINE * line) % WORD && line < WORD / LINE && 0 < r1 < HALF
    ensures r0 / LINE == line && AddS(r0, 0x20).0 == (LINE * (line + 1)) % WORD
    ensures SubS(r1, 0x20).1.Gt() <==> r1 > 0x20
    ensures r1 > 0x20 ==> SubS(r1, 0x20).0 == r1 - 0x20
  {
  }
}
