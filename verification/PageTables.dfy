/** Two readings of the ARM short-descriptor translation tables (section B3.5 of the ARMv7-A
    Architecture Reference Manual, DDI 0406C): the walker that reads one byte at a virtual address,
    and the dumper that prints every mapping of a table.  They agree on every address. */
module PageTables {
  import opened Words
  import opened PathTree

  const SPLIT: int := 0x4000_0000
  const MIB: int := 0x10_0000
  const SMALL: int := 0x1000
  const LARGE: int := 0x1_0000
  const SKIPPED: int := 0x1E0

  type u8 = x: int | 0 <= x < 0x100
  type Table = t: seq<u32> | |t| == 0x1000 witness seq(0x1000, i => 0)

  /** The two first-level tables and the bytes at physical addresses. */
  datatype Image = Image(ttbr0: Table, ttbr1: Table, mem: nat -> u8)

  /** A word in memory, low byte first. */
  function Word(img: Image, pa: nat): u32 {
    img.mem(pa) + 0x100 * img.mem(pa + 1) + 0x1_0000 * img.mem(pa + 2) + 0x100_0000 * img.mem(pa + 3)
  }

  function TableFor(img: Image, a: u32): Table {
    if a < SPLIT then img.ttbr0 else img.ttbr1
  }

  /** The address without its low `size` part. */
  function Base(x: u32, size: nat): nat
    requires size > 0
  {
    x - x % size
  }

  /** Entry `i` of the second-level table that a first-level entry points to. */
  function Second(img: Image, entry: u32, i: nat): u32 {
    Word(img, Base(entry, 0x400) + 4 * i)
  }

  // ---------- the walker

  /** The physical address behind a virtual one; none where the walker stops. */
  function Walk(img: Image, a: u32): Option<nat> {
    var entry := TableFor(img, a)[a / MIB];
    if entry % 4 == 1 then
      var s := Second(img, entry, a / SMALL % 0x100);
      if s % 4 == 1 then Some(Base(s, LARGE) + a % LARGE)
      else if s / 2 % 2 == 1 then Some(Base(s, SMALL) + a % SMALL)
      else None
    else if entry % 4 == 2 then
      if entry == SKIPPED then None else Some(Base(entry, MIB) + a % MIB)
    else None
  }

  /** The byte at a virtual address; addresses wrap at the end of the space. */
  function ByteAt(img: Image, a: nat): Option<u8> {
    match Walk(img, a % WORD) case Some(pa) => Some(img.mem(pa)) case None => None
  }

  /** There is a byte exactly if the table lists a record that covers the address, and then it is the
      one that the record sends the address to. */
  ghost predicate ReadsThrough(img: Image, t: Table, a: u32, r: Option<u8>) {
    && (r.Some? <==> exists rec :: Listed(Dump(img, t), rec) && Covers(rec, a))
    && (forall rec :: Listed(Dump(img, t), rec) && Covers(rec, a) ==> r == Some(img.mem(Sends(rec, a))))
  }

  /** Reads through the tables.  The reader finds a byte exactly where the dump of the table chosen for
      the address lists a record that covers it, and then the byte that the record sends it to. */
  method MmuRead8(img: Image, a: u32) returns (r: Option<u8>)
    ensures r == ByteAt(img, a)
    ensures r.Some? <==> exists rec :: Listed(Dump(img, TableFor(img, a)), rec) && Covers(rec, a)
    ensures forall rec :: Listed(Dump(img, TableFor(img, a)), rec) && Covers(rec, a) ==> r == Some(img.mem(Sends(rec, a)))
    ensures a < 0x4000_0000 ==> ReadsThrough(img, img.ttbr0, a, r)
    ensures a >= 0x4000_0000 ==> ReadsThrough(img, img.ttbr1, a, r)
  {
    ByteIsListed(img, a);
    FirstIndex(a);
    hide Word, Base, Dump, Listed, Covers, Sends;
    var table := TableFor(img, a);
    var entry := table[a / MIB % 0x1000];
    if entry % 4 == 1 {
      var s := Second(img, entry, a / SMALL % 0x100);
      if s % 4 == 1 {
        return Some(img.mem(Base(s, LARGE) + a % LARGE));
      } else if s / 2 % 2 != 0 {
        return Some(img.mem(Base(s, SMALL) + a % SMALL));
      }
    } else if entry % 4 == 2 {
      if entry != SKIPPED {
        return Some(img.mem(Base(entry, MIB) + a % MIB));
      }
    }
    return None;
  }

  lemma FirstIndex(a: u32)
    ensures a / MIB % 0x1000 == a / MIB && a % WORD == a
  {
  }

  lemma ByteIsListed(img: Image, a: u32)
    ensures ByteAt(img, a).Some? <==> exists rec :: Listed(Dump(img, TableFor(img, a)), rec) && Covers(rec, a)
    ensures forall rec :: Listed(Dump(img, TableFor(img, a)), rec) && Covers(rec, a) ==>
              ByteAt(img, a) == Some(img.mem(Sends(rec, a)))
  {
    FirstIndex(a);
    hide Walk, Dump, Listed, Covers, Sends, TableFor;
    if Walk(img, a).Some? {
      WalkerAgreesWithDump(img, a, Walk(img, a).value);
    }
    forall rec | Listed(Dump(img, TableFor(img, a)), rec) && Covers(rec, a)
      ensures ByteAt(img, a) == Some(img.mem(Sends(rec, a)))
    {
      WalkerAgreesWithDump(img, a, Sends(rec, a));
    }
  }

  /** `n` bytes from `a` on, low byte first, each translated by itself: a value may cross any page
      boundary, and there is none if some byte has no translation. */
  function ValueAt(img: Image, a: nat, n: nat): Option<nat>
    decreases n
  {
    if n == 0 then Some(0)
    else match (ByteAt(img, a), ValueAt(img, a + 1, n - 1))
      case (Some(low), Some(rest)) => Some(low + 0x100 * rest)
      case _ => None
  }

  method MmuRead16(img: Image, a: u32) returns (r: Option<nat>)
    ensures r == ValueAt(img, a, 2)
    ensures r.Some? ==> r.value < 0x1_0000
    ensures r.Some? <==> ByteAt(img, a).Some? && ByteAt(img, a + 1).Some?
    ensures r.Some? ==> r.value == ByteAt(img, a).value + 0x100 * ByteAt(img, a + 1).value
  {
    hide ByteAt, ValueAt, Dump, Listed, Covers, Sends, TableFor;
    OneValue(img, a, 2);
    OneValue(img, a + 1, 1);
    OneValue(img, a + 2, 0);
    var low := MmuRead8(img, a);
    if low.None? {
      return None;
    }
    var high := MmuRead8(img, (a + 1) % WORD);
    SameByte(img, (a + 1) % WORD, a + 1);
    if high.None? {
      return None;
    }
    var b0: nat, b1: nat := low.value, high.value;
    return Some(b0 + b1 * 0x100);
  }

  lemma SameByte(img: Image, a: nat, b: nat)
    requires a % WORD == b % WORD
    ensures ByteAt(img, a) == ByteAt(img, b)
  {
    hide Walk;
  }

  lemma NextSame(a: nat, b: nat)
    requires a % WORD == b % WORD
    ensures (a + 1) % WORD == (b + 1) % WORD
  {
  }

  lemma {:induction false} SameValue(img: Image, a: nat, b: nat, n: nat)
    requires a % WORD == b % WORD
    ensures ValueAt(img, a, n) == ValueAt(img, b, n)
    decreases n
  {
    hide ByteAt;
    if n > 0 {
      SameByte(img, a, b);
      NextSame(a, b);
      SameValue(img, a + 1, b + 1, n - 1);
    }
  }

  /** A value is its low part and its high part. */
  lemma FourIsTwoTwos(img: Image, a: nat)
    ensures ValueAt(img, a, 4) == match (ValueAt(img, a, 2), ValueAt(img, a + 2, 2))
                                  case (Some(low), Some(high)) => Some(low + 0x1_0000 * high)
                                  case _ => None
  {
    hide ByteAt, ValueAt;
    OneValue(img, a + 1, 1);
    OneValue(img, a + 1, 3);
    OneValue(img, a + 2, 2);
    OneValue(img, a, 2);
    OneValue(img, a, 4);
    OneValue(img, a + 2, 0);
  }

  lemma OneValue(img: Image, a: nat, n: nat)
    ensures ValueAt(img, a, n) == if n == 0 then Some(0)
                                  else if ByteAt(img, a).Some? && ValueAt(img, a + 1, n - 1).Some? then
                                    Some(ByteAt(img, a).value + 0x100 * ValueAt(img, a + 1, n - 1).value)
                                  else None
  {
  }

  lemma FourBytes(img: Image, a: nat)
    ensures ValueAt(img, a, 4).Some? <==> ByteAt(img, a).Some? && ByteAt(img, a + 1).Some? && ByteAt(img, a + 2).Some? && ByteAt(img, a + 3).Some?
    ensures ValueAt(img, a, 4).Some? ==>
              ValueAt(img, a, 4).value == ByteAt(img, a).value + 0x100 * ByteAt(img, a + 1).value
                                          + 0x1_0000 * ByteAt(img, a + 2).value + 0x100_0000 * ByteAt(img, a + 3).value
  {
    hide ByteAt, ValueAt;
    OneValue(img, a, 4);
    OneValue(img, a + 1, 3);
    OneValue(img, a + 2, 2);
    OneValue(img, a + 3, 1);
    OneValue(img, a + 4, 0);
  }

  method MmuRead32(img: Image, a: u32) returns (r: Option<nat>)
    ensures r == ValueAt(img, a, 4)
    ensures r.Some? <==> ByteAt(img, a).Some? && ByteAt(img, a + 1).Some? && ByteAt(img, a + 2).Some? && ByteAt(img, a + 3).Some?
    ensures r.Some? ==>
              r.value == ByteAt(img, a).value + 0x100 * ByteAt(img, a + 1).value
                         + 0x1_0000 * ByteAt(img, a + 2).value + 0x100_0000 * ByteAt(img, a + 3).value
  {
    hide ByteAt, ValueAt;
    FourBytes(img, a);
    FourIsTwoTwos(img, a);
    var low := MmuRead16(img, a);
    if low.None? {
      return None;
    }
    var high := MmuRead16(img, (a + 2) % WORD);
    SameValue(img, (a + 2) % WORD, a + 2, 2);
    if high.None? {
      return None;
    }
    return Some(low.value + high.value * 0x1_0000);
  }

  // ---------- the dumper

  datatype Kind = Section | LargePage | SmallPage

  /** One mapping as the dumper finds it.  The printed line gives `entry`, `vaddr` and `paddr`, and
      tells sections from pages but not large pages from small ones. */
  datatype Record = Record(kind: Kind, entry: u32, vaddr: nat, paddr: nat)

  datatype Line = Mapping(rec: Record) | Fault | SuperSection

  /** What the second-level entry `i` contributes. */
  function PageLines(img: Image, idx: nat, entry: u32, i: nat): seq<Line> {
    var s := Second(img, entry, i);
    if s == 0 then []
    else if s % 4 == 1 then [Mapping(Record(LargePage, entry, idx * MIB + i * SMALL, Base(s, LARGE)))]
    else if s / 2 % 2 == 1 then [Mapping(Record(SmallPage, entry, idx * MIB + i * SMALL, Base(s, SMALL)))]
    else []
  }

  function TableLines(img: Image, idx: nat, entry: u32, n: nat): seq<Line> {
    if n == 0 then [] else TableLines(img, idx, entry, n - 1) + PageLines(img, idx, entry, n - 1)
  }

  /** What the first-level entry `idx` contributes. */
  function EntryLines(img: Image, idx: nat, entry: u32): seq<Line> {
    if entry == SKIPPED then []
    else if entry % 4 == 0 then [Fault]
    else if entry % 4 == 1 then TableLines(img, idx, entry, 0x100)
    else if entry % 4 == 2 then [Mapping(Record(Section, entry, idx * MIB, Base(entry, MIB)))]
    else [SuperSection]
  }

  function Dump(img: Image, t: seq<u32>): seq<Line> {
    if t == [] then [] else Dump(img, t[..|t| - 1]) + EntryLines(img, |t| - 1, t[|t| - 1])
  }

  method ParsePageTable(img: Image, idx: nat, entry: u32) returns (out: seq<Line>)
    ensures out == TableLines(img, idx, entry, 0x100)
  {
    out := [];
    var i := 0;
    while i < 0x100
      invariant 0 <= i <= 0x100 && out == TableLines(img, idx, entry, i)
    {
      var s := Second(img, entry, i);
      if s != 0 {
        if s % 4 == 1 {
          out := out + [Mapping(Record(LargePage, entry, idx * MIB + i * SMALL, Base(s, LARGE)))];
        } else if s / 2 % 2 != 0 {
          out := out + [Mapping(Record(SmallPage, entry, idx * MIB + i * SMALL, Base(s, SMALL)))];
        }
      }
      i := i + 1;
    }
  }

  method ParseTtbr(img: Image, t: Table) returns (out: seq<Line>)
    ensures out == Dump(img, t)
  {
    out := [];
    var i := 0;
    while i < 0x1000
      invariant 0 <= i <= 0x1000 && out == Dump(img, t[..i])
    {
      var entry := t[i];
      assert t[..i + 1][..i] == t[..i];
      if entry != SKIPPED {
        if entry % 4 == 0 {
          out := out + [Fault];
        } else if entry % 4 == 1 {
          var lines := ParsePageTable(img, i, entry);
          out := out + lines;
        } else if entry % 4 == 2 {
          out := out + [Mapping(Record(Section, entry, i * MIB, Base(entry, MIB)))];
        } else {
          out := out + [SuperSection];
        }
      }
      i := i + 1;
    }
    assert t[..0x1000] == t;
  }

  // ---------- agreement

  function Extent(k: Kind): nat {
    if k == Section then MIB else SMALL
  }

  predicate Covers(r: Record, a: int) {
    r.vaddr <= a < r.vaddr + Extent(r.kind)
  }

  /** Where a record sends an address it covers. */
  function Sends(r: Record, a: nat): nat {
    r.paddr + match r.kind case Section => a % MIB case LargePage => a % LARGE case SmallPage => a % SMALL
  }

  ghost predicate Listed(lines: seq<Line>, r: Record) {
    Mapping(r) in lines
  }

  lemma {:induction false} TableLists(img: Image, idx: nat, entry: u32, n: nat, r: Record)
    ensures Listed(TableLines(img, idx, entry, n), r) <==> exists i: nat :: i < n && Listed(PageLines(img, idx, entry, i), r)
  {
    hide PageLines;
    if n > 0 {
      TableLists(img, idx, entry, n - 1, r);
    }
  }

  lemma {:induction false} DumpLists(img: Image, t: seq<u32>, r: Record)
    ensures Listed(Dump(img, t), r) <==> exists i: nat :: i < |t| && Listed(EntryLines(img, i, t[i]), r)
    decreases |t|
  {
    hide EntryLines;
    if t != [] {
      var u := t[..|t| - 1];
      DumpLists(img, u, r);
      assert forall i: nat :: i < |u| ==> u[i] == t[i];
    }
  }

  /** A record comes from the entries that its addresses select, and sends them where the walker
      sends them. */
  lemma PageSends(img: Image, idx: nat, entry: u32, i: nat, r: Record, a: nat)
    requires i < 0x100 && entry % 4 == 1 && Listed(PageLines(img, idx, entry, i), r) && Covers(r, a)
    ensures a / MIB == idx && a / SMALL % 0x100 == i
    ensures var s := Second(img, entry, i);
            Sends(r, a) == if s % 4 == 1 then Base(s, LARGE) + a % LARGE else Base(s, SMALL) + a % SMALL
    ensures var s := Second(img, entry, i); s % 4 == 1 || s / 2 % 2 == 1
  {
    hide Word;
    PageSplit(idx, i, a);
  }

  lemma PageSplit(idx: nat, i: nat, a: nat)
    requires i < 0x100
    ensures idx * MIB + i * SMALL <= a < idx * MIB + i * SMALL + SMALL <==> a / MIB == idx && a / SMALL % 0x100 == i
  {
    assert a / MIB == a / SMALL / 0x100;
    assert a / SMALL == a / MIB * 0x100 + a / SMALL % 0x100;
  }

  lemma EntrySends(img: Image, idx: nat, entry: u32, r: Record, a: u32)
    requires Listed(EntryLines(img, idx, entry), r) && Covers(r, a)
    ensures a / MIB == idx
    ensures TableFor(img, a)[a / MIB] == entry ==> Walk(img, a) == Some(Sends(r, a))
  {
    hide Word;
    if entry % 4 == 1 {
      TableLists(img, idx, entry, 0x100, r);
      var i: nat :| i < 0x100 && Listed(PageLines(img, idx, entry, i), r);
      PageSends(img, idx, entry, i, r, a);
    }
  }

  /** The record for an address that the walker can translate. */
  lemma WalkRecord(img: Image, a: u32) returns (r: Record)
    requires Walk(img, a).Some?
    ensures Covers(r, a) && Listed(EntryLines(img, a / MIB, TableFor(img, a)[a / MIB]), r)
  {
    hide Word;
    var entry := TableFor(img, a)[a / MIB];
    if entry % 4 == 1 {
      var i := a / SMALL % 0x100;
      var s := Second(img, entry, i);
      PageSplit(a / MIB, i, a);
      var kind := if s % 4 == 1 then LargePage else SmallPage;
      r := Record(kind, entry, a / MIB * MIB + i * SMALL, if s % 4 == 1 then Base(s, LARGE) else Base(s, SMALL));
      assert Listed(PageLines(img, a / MIB, entry, i), r);
      TableLists(img, a / MIB, entry, 0x100, r);
    } else {
      r := Record(Section, entry, a / MIB * MIB, Base(entry, MIB));
    }
  }

  /** For every address: the walker reaches memory exactly when the dump of the table chosen for
      the address lists a record that covers it, and it reads where that record sends the
      address. */
  lemma WalkerAgreesWithDump(img: Image, a: u32, pa: nat)
    ensures Walk(img, a) == Some(pa) <==>
            exists r :: Listed(Dump(img, TableFor(img, a)), r) && Covers(r, a) && Sends(r, a) == pa
  {
    hide Walk, EntryLines, Dump, Covers, Sends;
    var t := TableFor(img, a);
    if Walk(img, a) == Some(pa) {
      var r := WalkRecord(img, a);
      DumpLists(img, t, r);
      EntrySends(img, a / MIB, t[a / MIB], r, a);
    }
    forall r | Listed(Dump(img, t), r) && Covers(r, a)
      ensures Walk(img, a) == Some(Sends(r, a))
    {
      DumpLists(img, t, r);
      var i: nat :| i < |t| && Listed(EntryLines(img, i, t[i]), r);
      EntrySends(img, i, t[i], r, a);
    }
  }

  /** An entry lists one record for an address. */
  lemma OneOfEntry(img: Image, idx: nat, entry: u32, a: u32, r: Record, q: Record)
    requires Listed(EntryLines(img, idx, entry), r) && Covers(r, a)
    requires Listed(EntryLines(img, idx, entry), q) && Covers(q, a)
    ensures r == q
  {
    hide Word;
    if entry % 4 == 1 {
      TableLists(img, idx, entry, 0x100, r);
      TableLists(img, idx, entry, 0x100, q);
      hide TableLines;
      var k: nat :| k < 0x100 && Listed(PageLines(img, idx, entry, k), r);
      var l: nat :| l < 0x100 && Listed(PageLines(img, idx, entry, l), q);
      PageSends(img, idx, entry, k, r, a);
      PageSends(img, idx, entry, l, q, a);
    }
  }

  /** No address is listed twice. */
  lemma OneRecordEach(img: Image, a: u32, r: Record, q: Record)
    requires Listed(Dump(img, TableFor(img, a)), r) && Covers(r, a)
    requires Listed(Dump(img, TableFor(img, a)), q) && Covers(q, a)
    ensures r == q
  {
    hide Dump, Walk, EntryLines;
    var t := TableFor(img, a);
    DumpLists(img, t, r);
    DumpLists(img, t, q);
    var i: nat :| i < |t| && Listed(EntryLines(img, i, t[i]), r);
    var j: nat :| j < |t| && Listed(EntryLines(img, j, t[j]), q);
    EntrySends(img, i, t[i], r, a);
    EntrySends(img, j, t[j], q, a);
    OneOfEntry(img, i, t[i], a, r, q);
  }

  /** The printed base taken as the base of a 4 KiB page gives the right address exactly for small
      pages, sections and the first of the sixteen records of a large page. */
  lemma PrintedBaseIff(img: Image, a: u32, r: Record)
    requires Listed(Dump(img, TableFor(img, a)), r) && Covers(r, a)
    ensures Walk(img, a) == Some(r.paddr + (a - r.vaddr)) <==> (r.kind == LargePage ==> r.vaddr % LARGE == 0)
  {
    hide Dump, Walk, Word, EntryLines;
    var t := TableFor(img, a);
    DumpLists(img, t, r);
    var i: nat :| i < |t| && Listed(EntryLines(img, i, t[i]), r);
    EntrySends(img, i, t[i], r, a);
    Aligned(img, i, t[i], r);
    if r.kind == Section {
      assert a % MIB == a - r.vaddr;
    } else {
      PageOffsets(r.vaddr, a);
    }
  }

  lemma Aligned(img: Image, idx: nat, entry: u32, r: Record)
    requires Listed(EntryLines(img, idx, entry), r)
    ensures r.vaddr % (if r.kind == Section then MIB else SMALL) == 0
  {
    hide Word;
    if entry % 4 == 1 {
      TableLists(img, idx, entry, 0x100, r);
      var k: nat :| k < 0x100 && Listed(PageLines(img, idx, entry, k), r);
      Multiples(idx, k);
    } else {
      Multiples(idx, 0);
    }
  }

  lemma Multiples(idx: nat, k: nat)
    ensures idx * MIB % MIB == 0 && (idx * MIB + k * SMALL) % SMALL == 0
  {
    assert idx * MIB + k * SMALL == (idx * 0x100 + k) * SMALL;
  }

  lemma ModSmall(x: nat, q: nat, r: nat)
    requires x == SMALL * q + r && r < SMALL
    ensures x % SMALL == r
  {
  }

  lemma ModLarge(x: nat, q: nat, r: nat)
    requires x == LARGE * q + r && r < LARGE
    ensures x % LARGE == r
  {
  }

  lemma PageOffsets(v: nat, a: nat)
    requires v % SMALL == 0 && v <= a < v + SMALL
    ensures a % SMALL == a - v && a % LARGE == v % LARGE + (a - v)
  {
    ModSmall(a, v / SMALL, a - v);
    var p, r := v / LARGE, v % LARGE;
    var k := v / SMALL - 16 * p;
    assert r == SMALL * k;
    ModLarge(a, p, r + (a - v));
  }

  /** If the sixteen second-level entries of a large page are the same, the whole 64 KiB map to one
      contiguous block. */
  lemma LargePageIsContiguous(img: Image, a: u32, b: u32)
    requires a / LARGE == b / LARGE
    requires var entry := TableFor(img, a)[a / MIB];
             && entry % 4 == 1
             && Second(img, entry, a / SMALL % 0x100) % 4 == 1
             && Second(img, entry, b / SMALL % 0x100) == Second(img, entry, a / SMALL % 0x100)
    ensures Walk(img, a).Some? && Walk(img, b).Some?
    ensures Walk(img, b).value - Walk(img, a).value == b - a
  {
    assert a / MIB == a / LARGE / 16 && b / MIB == b / LARGE / 16;
    assert a / (SPLIT / LARGE * LARGE) == a / LARGE / (SPLIT / LARGE);
    assert b / (SPLIT / LARGE * LARGE) == b / LARGE / (SPLIT / LARGE);
    hide Word;
  }

  // ---------- mappings put there are read

  /** Memory holds a word at an address, its low byte first. */
  predicate HoldsWord(img: Image, pa: nat, w: u32) {
    && img.mem(pa) == w % 0x100 && img.mem(pa + 1) == w / 0x100 % 0x100
    && img.mem(pa + 2) == w / 0x1_0000 % 0x100 && img.mem(pa + 3) == w / 0x100_0000
  }

  lemma HeldIsWord(img: Image, pa: nat, w: u32)
    requires HoldsWord(img, pa, w)
    ensures Word(img, pa) == w
  {
    assert w / 0x1_0000 == w / 0x100_0000 * 0x100 + w / 0x1_0000 % 0x100;
    assert w / 0x100 == w / 0x1_0000 * 0x100 + w / 0x100 % 0x100;
    assert w == w / 0x100 * 0x100 + w % 0x100;
  }

  /** The first-level entry for an address. */
  function EntryFor(img: Image, a: u32): u32 {
    if a < 0x4000_0000 then img.ttbr0[a / 0x10_0000] else img.ttbr1[a / 0x10_0000]
  }

  lemma ModTable(x: nat, q: nat, r: nat)
    requires x == 0x400 * q + r && r < 0x400
    ensures x % 0x400 == r
  {
  }

  lemma ModSection(x: nat, q: nat, r: nat)
    requires x == MIB * q + r && r < MIB
    ensures x % MIB == r
  {
  }

  /** Low bits of a word made of a base and low bits. */
  lemma Low2(base: nat, low: nat)
    requires base % 4 == 0
    ensures (base + low) % 4 == low % 4 && (base + low) / 2 % 2 == low / 2 % 2
  {
    var q := base / 4;
    assert base + low == 4 * (q + low / 4) + low % 4;
    assert (base + low) / 2 == 2 * q + low / 2;
  }

  lemma WholeWords(base: nat)
    ensures base % 0x400 == 0 ==> base % 4 == 0
    ensures base % SMALL == 0 ==> base % 4 == 0
    ensures base % LARGE == 0 ==> base % 4 == 0
    ensures base % MIB == 0 ==> base % 4 == 0
  {
    FourFold(base, base / 4);
    if base % 0x400 == 0 { FourFold(base, 0x100 * (base / 0x400)); }
    if base % SMALL == 0 { FourFold(base, 0x400 * (base / SMALL)); }
    if base % LARGE == 0 { FourFold(base, 0x4000 * (base / LARGE)); }
    if base % MIB == 0 { FourFold(base, 0x4_0000 * (base / MIB)); }
  }

  lemma FourFold(x: nat, q: nat)
    ensures x == 4 * q ==> x % 4 == 0
  {
  }

  /** A section put into the first-level table is read: the 1 MiB at `base`. */
  lemma SectionIsRead(img: Image, a: u32, base: nat, low: nat)
    requires base % 0x10_0000 == 0 && low < 0x10_0000 && low % 4 == 2
    requires EntryFor(img, a) == base + low
    ensures ByteAt(img, a) == Some(img.mem(base + a % 0x10_0000))
  {
    ModSection(base + low, base / MIB, low);
    WholeWords(base);
    Low2(base, low);
    FirstIndex(a);
    hide Word;
  }

  lemma ReadsPage(img: Image, a: u32, entry: u32, s: u32)
    requires EntryFor(img, a) == entry && entry % 4 == 1 && Second(img, entry, a / 0x1000 % 0x100) == s
    ensures s % 4 == 1 ==> ByteAt(img, a) == Some(img.mem(Base(s, LARGE) + a % LARGE))
    ensures s % 4 != 1 && s / 2 % 2 == 1 ==> ByteAt(img, a) == Some(img.mem(Base(s, SMALL) + a % SMALL))
  {
    FirstIndex(a);
    hide Word, Second, Base;
  }

  lemma SecondIs(img: Image, entry: u32, l2: nat, k: nat, i: nat, w: u32)
    requires l2 % 0x400 == 0 && k < 0x400 && k % 4 == 1 && entry == l2 + k && HoldsWord(img, l2 + 4 * i, w)
    ensures entry % 4 == 1 && Second(img, entry, i) == w
  {
    ModTable(entry, l2 / 0x400, k);
    WholeWords(l2);
    Low2(l2, k);
    HeldIsWord(img, l2 + 4 * i, w);
    hide Word, HoldsWord;
  }

  /** A small page put into the second-level table at `l2` is read: the 4 KiB at `page`. */
  lemma SmallPageIsRead(img: Image, a: u32, l2: nat, k: nat, page: nat, low: nat)
    requires l2 % 0x400 == 0 && k < 0x400 && k % 4 == 1 && EntryFor(img, a) == l2 + k
    requires page % 0x1000 == 0 && low < 0x1000 && low / 2 % 2 == 1 && page + low < 0x1_0000_0000
    requires HoldsWord(img, l2 + 4 * (a / 0x1000 % 0x100), page + low)
    ensures ByteAt(img, a) == Some(img.mem(page + a % 0x1000))
  {
    hide Word, HoldsWord, Second, ByteAt, EntryFor;
    SecondIs(img, l2 + k, l2, k, a / 0x1000 % 0x100, page + low);
    ReadsPage(img, a, l2 + k, page + low);
    ModSmall(page + low, page / SMALL, low);
    WholeWords(page);
    Low2(page, low);
  }

  /** A large page likewise: the 64 KiB at `page`. */
  lemma LargePageIsRead(img: Image, a: u32, l2: nat, k: nat, page: nat, low: nat)
    requires l2 % 0x400 == 0 && k < 0x400 && k % 4 == 1 && EntryFor(img, a) == l2 + k
    requires page % 0x1_0000 == 0 && low < 0x1_0000 && low % 4 == 1 && page + low < 0x1_0000_0000
    requires HoldsWord(img, l2 + 4 * (a / 0x1000 % 0x100), page + low)
    ensures ByteAt(img, a) == Some(img.mem(page + a % 0x1_0000))
  {
    hide Word, HoldsWord, Second, ByteAt, EntryFor;
    SecondIs(img, l2 + k, l2, k, a / 0x1000 % 0x100, page + low);
    ReadsPage(img, a, l2 + k, page + low);
    ModLarge(page + low, page / LARGE, low);
    WholeWords(page);
    Low2(page, low);
  }

  // ---------- the order of the listing

  /** The records of a listing have ascending addresses from `from` to below `to`. */
  ghost predicate Ascending(lines: seq<Line>, from: nat, to: nat) {
    && (forall i :: 0 <= i < |lines| && lines[i].Mapping? ==> from <= lines[i].rec.vaddr < to)
    && (forall i, j :: 0 <= i < j < |lines| && lines[i].Mapping? && lines[j].Mapping? ==>
          lines[i].rec.vaddr < lines[j].rec.vaddr)
  }

  lemma AscendingJoin(a: seq<Line>, b: seq<Line>, from: nat, mid: nat, to: nat)
    requires Ascending(a, from, mid) && Ascending(b, mid, to) && from <= mid <= to
    ensures Ascending(a + b, from, to)
  {
  }

  lemma {:induction false} TableAscends(img: Image, idx: nat, entry: u32, n: nat)
    ensures Ascending(TableLines(img, idx, entry, n), idx * MIB, idx * MIB + n * SMALL)
  {
    hide Second, Ascending, PageLines;
    if n == 0 {
      NoneAscends(idx * MIB);
    } else {
      TableAscends(img, idx, entry, n - 1);
      PageAscends(img, idx, entry, n - 1);
      AscendingJoin(TableLines(img, idx, entry, n - 1), PageLines(img, idx, entry, n - 1),
                    idx * MIB, idx * MIB + (n - 1) * SMALL, idx * MIB + n * SMALL);
    }
  }

  lemma NoneAscends(from: nat)
    ensures Ascending([], from, from)
  {
  }

  lemma PageAscends(img: Image, idx: nat, entry: u32, i: nat)
    ensures Ascending(PageLines(img, idx, entry, i), idx * MIB + i * SMALL, idx * MIB + (i + 1) * SMALL)
  {
    hide Second, Base;
  }

  /** A dump lists its records in the order of their addresses, each address once. */
  lemma {:induction false} DumpAscends(img: Image, t: seq<u32>)
    ensures Ascending(Dump(img, t), 0, |t| * MIB)
    decreases |t|
  {
    if t != [] {
      var n := |t| - 1;
      DumpAscends(img, t[..n]);
      EntryAscends(img, n, t[n]);
      hide Ascending, EntryLines;
      AscendingJoin(Dump(img, t[..n]), EntryLines(img, n, t[n]), 0, n * MIB, |t| * MIB);
    }
  }

  lemma EntryAscends(img: Image, idx: nat, entry: u32)
    ensures Ascending(EntryLines(img, idx, entry), idx * MIB, (idx + 1) * MIB)
  {
    hide TableLines, Base;
    TableAscends(img, idx, entry, 0x100);
    if entry % 4 == 1 && entry != SKIPPED {
      hide Ascending;
      assert idx * MIB + 0x100 * SMALL == (idx + 1) * MIB;
    }
  }

  /** A record shows the first-level entry it was found through. */
  ghost predicate Shows(lines: seq<Line>, idx: nat, entry: u32) {
    forall i :: 0 <= i < |lines| && lines[i].Mapping? ==> lines[i].rec.vaddr / MIB == idx && lines[i].rec.entry == entry
  }

  lemma {:induction false} TableShows(img: Image, idx: nat, entry: u32, n: nat)
    requires n <= 0x100
    ensures Shows(TableLines(img, idx, entry, n), idx, entry)
  {
    hide Second, Base;
    if n > 0 {
      TableShows(img, idx, entry, n - 1);
      assert (idx * MIB + (n - 1) * SMALL) / MIB == idx;
    }
  }

  /** In a dump every record shows the entry of the table that its address belongs to. */
  lemma {:induction false} EntriesShown(img: Image, t: seq<u32>, i: nat)
    requires i < |Dump(img, t)| && Dump(img, t)[i].Mapping?
    ensures var r := Dump(img, t)[i].rec; r.vaddr / 0x10_0000 < |t| && r.entry == t[r.vaddr / 0x10_0000]
    decreases |t|
  {
    var n := |t| - 1;
    var d, l := Dump(img, t[..n]), EntryLines(img, n, t[n]);
    if i < |d| {
      EntriesShown(img, t[..n], i);
    } else {
      TableShows(img, n, t[n], 0x100);
      hide TableLines, Base;
      assert Shows(l, n, t[n]);
      assert Dump(img, t)[i] == l[i - |d|];
    }
  }

  /** What is printed for entries that map nothing: a fault for each with low bits 00 but 0x1E0, a
      super section for each with low bits 11. */
  lemma {:induction false} OthersListed(img: Image, t: seq<u32>)
    ensures Fault in Dump(img, t) <==> HasFault(t)
    ensures SuperSection in Dump(img, t) <==> HasSuper(t)
    decreases |t|
  {
    if t != [] {
      var n := |t| - 1;
      OthersListed(img, t[..n]);
      OthersOfEntry(img, n, t[n]);
      hide EntryLines;
      assert Dump(img, t) == Dump(img, t[..n]) + EntryLines(img, n, t[n]);
      hide Dump;
      OneMore(t, n);
    }
  }

  /** Some entry with low bits 00 but 0x1E0. */
  ghost predicate HasFault(t: seq<u32>) {
    exists i :: 0 <= i < |t| && t[i] % 4 == 0 && t[i] != 0x1E0
  }

  ghost predicate HasSuper(t: seq<u32>) {
    exists i :: 0 <= i < |t| && t[i] % 4 == 3
  }

  lemma OneMore(t: seq<u32>, n: nat)
    requires |t| == n + 1
    ensures HasFault(t) <==> HasFault(t[..n]) || (t[n] % 4 == 0 && t[n] != 0x1E0)
    ensures HasSuper(t) <==> HasSuper(t[..n]) || t[n] % 4 == 3
  {
    assert forall i :: 0 <= i < n ==> t[..n][i] == t[i];
  }

  lemma OthersOfEntry(img: Image, idx: nat, entry: u32)
    ensures Fault in EntryLines(img, idx, entry) <==> entry % 4 == 0 && entry != 0x1E0
    ensures SuperSection in EntryLines(img, idx, entry) <==> entry % 4 == 3
  {
    OnlyMappings(img, idx, entry, 0x100);
    hide TableLines, Base;
  }

  lemma {:induction false} OnlyMappings(img: Image, idx: nat, entry: u32, n: nat)
    ensures forall l :: l in TableLines(img, idx, entry, n) ==> l.Mapping?
  {
    hide Second, Base;
    if n > 0 {
      OnlyMappings(img, idx, entry, n - 1);
    }
  }
}
