/** What a record of cache operations does to the caches: which lines they hold, which of these are newer
    than the level below, and which instruction lines are older than memory. */
module CacheStates {
  import opened Words
  import opened Arm
  import opened CacheLines

  /** The lines held in the data cache and, by physical line, in the second-level cache; those of them
      that hold newer data than the level below; and the instruction lines older than memory. */
  datatype Caches = Caches(held: set<nat>, dirty: set<nat>, heldL2: set<nat>, dirtyL2: set<nat>, stale: set<nat>)

  /** Every virtual line has a physical one. */
  ghost predicate AllMapped(pages: PageMap, lines: set<nat>) {
    forall l :: l in lines ==> l / 128 in pages
  }

  /** One operation.  Cleaning a dirty data line puts it into the second-level cache, where it is dirty;
      writing that line out cleans it.  A line stays where it is held unless the operation also
      invalidates it.  Invalidating an instruction line helps only if the new bytes have reached
      memory by then. */
  ghost function Effect(pages: PageMap, s: Caches, ev: Event): Caches {
    match ev
    case DClean(l) => Cleaned(pages, s, l)
    case DCleanInv(l) => if l / 128 in pages then Cleaned(pages, s, l).(held := s.held - {l}) else s
    case L2Clean(p) => s.(dirtyL2 := s.dirtyL2 - {p})
    case L2CleanInv(p) => s.(heldL2 := s.heldL2 - {p}, dirtyL2 := s.dirtyL2 - {p})
    case IInv(l) =>
      if l in s.dirty || (l / 128 in pages && PhysLine(pages, l) in s.dirtyL2) then s else s.(stale := s.stale - {l})
    case L2Sync => s
    case SetDacr(_) => s
  }

  ghost function Cleaned(pages: PageMap, s: Caches, l: nat): Caches {
    if l in s.dirty && l / 128 in pages then
      s.(dirty := s.dirty - {l}, heldL2 := s.heldL2 + {PhysLine(pages, l)}, dirtyL2 := s.dirtyL2 + {PhysLine(pages, l)})
    else s
  }

  ghost function Replay(pages: PageMap, s: Caches, evs: seq<Event>): Caches
    decreases |evs|
  {
    if evs == [] then s else Replay(pages, Effect(pages, s, evs[0]), evs[1..])
  }

  /** Only a line that is held is newer than the level below. */
  ghost predicate DirtyIsHeld(s: Caches) {
    s.dirty <= s.held && s.dirtyL2 <= s.heldL2
  }

  /** No operation drops newer data: whatever is issued, what is dirty is still held somewhere. */
  lemma {:induction false} ReplayLosesNothing(pages: PageMap, s: Caches, evs: seq<Event>)
    requires DirtyIsHeld(s)
    ensures DirtyIsHeld(Replay(pages, s, evs))
    decreases |evs|
  {
    if evs != [] {
      ReplayLosesNothing(pages, Effect(pages, s, evs[0]), evs[1..]);
    }
  }

  ghost predicate OnlyCleans(evs: seq<Event>) {
    forall i :: 0 <= i < |evs| ==> evs[i].DClean? || evs[i].L2Clean? || evs[i].L2Sync? || evs[i].SetDacr?
  }

  /** Where every operation only cleans, no line leaves either cache and no data line becomes dirty. */
  lemma {:induction false} CleansDropNone(pages: PageMap, s: Caches, evs: seq<Event>)
    requires OnlyCleans(evs)
    ensures var t := Replay(pages, s, evs); t.held == s.held && t.heldL2 >= s.heldL2 && t.dirty <= s.dirty && t.stale == s.stale
    decreases |evs|
  {
    if evs != [] {
      CleansDropNone(pages, Effect(pages, s, evs[0]), evs[1..]);
    }
  }

  lemma {:induction false} ReplayConcat(pages: PageMap, s: Caches, a: seq<Event>, b: seq<Event>)
    ensures Replay(pages, s, a + b) == Replay(pages, Replay(pages, s, a), b)
    decreases |a|
  {
    if a == [] {
      assert a + b == b;
    } else {
      assert (a + b)[1..] == a[1..] + b;
      ReplayConcat(pages, Effect(pages, s, a[0]), a[1..], b);
    }
  }

  ghost function SetOf(s: seq<nat>): set<nat> {
    set x | x in s
  }

  /** The physical lines behind some virtual lines. */
  ghost function PhysSet(pages: PageMap, lines: set<nat>): set<nat>
    requires AllMapped(pages, lines)
  {
    set l | l in lines :: PhysLine(pages, l)
  }

  /** Once the data lines `r` are clean; `inv` if they were invalidated as well. */
  ghost function AfterCleans(pages: PageMap, s: Caches, r: set<nat>, inv: bool): Caches
    requires AllMapped(pages, r)
  {
    var moved := PhysSet(pages, s.dirty * r);
    Caches(if inv then s.held - r else s.held, s.dirty - r, s.heldL2 + moved, s.dirtyL2 + moved, s.stale)
  }

  /** Once the lines `r` are gone from every level. */
  ghost function Dropped(pages: PageMap, s: Caches, r: set<nat>): Caches
    requires AllMapped(pages, r)
  {
    Caches(s.held - r, s.dirty - r, s.heldL2 - PhysSet(pages, r), s.dirtyL2 - PhysSet(pages, r), s.stale - r)
  }

  lemma {:induction false} ReplayCleans(pages: PageMap, s: Caches, kind: Kind, lines: seq<nat>)
    requires kind in {DataClean, DataCleanInv} && AllMapped(pages, SetOf(lines))
    ensures Replay(pages, s, OnLines(kind, lines)) == AfterCleans(pages, s, SetOf(lines), kind == DataCleanInv)
    decreases |lines|
  {
    var evs := OnLines(kind, lines);
    if lines == [] {
      assert SetOf(lines) == {} && PhysSet(pages, s.dirty * {}) == {};
      assert AfterCleans(pages, s, {}, kind == DataCleanInv) == s;
    } else {
      assert lines == [lines[0]] + lines[1..];
      assert SetOf(lines) == {lines[0]} + SetOf(lines[1..]);
      assert evs[1..] == OnLines(kind, lines[1..]);
      hide SetOf;
      ReplayCleans(pages, Effect(pages, s, evs[0]), kind, lines[1..]);
      OneMoreClean(pages, s, kind, lines[0], SetOf(lines[1..]));
    }
  }

  lemma OneMoreClean(pages: PageMap, s: Caches, kind: Kind, l: nat, rest: set<nat>)
    requires kind in {DataClean, DataCleanInv} && AllMapped(pages, {l} + rest)
    ensures AfterCleans(pages, Effect(pages, s, OnLine(kind, l)), rest, kind == DataCleanInv) ==
            AfterCleans(pages, s, {l} + rest, kind == DataCleanInv)
  {
    assert l in {l} + rest;
    var t := Effect(pages, s, OnLine(kind, l));
    var moved := if l in s.dirty then {PhysLine(pages, l)} else {};
    Moved(pages, s.dirty, l, rest);
    hide PhysSet;
    assert t.dirty == s.dirty - {l} && s.dirty - {l} - rest == s.dirty - ({l} + rest);
    assert s.held - {l} - rest == s.held - ({l} + rest);
    assert t.heldL2 == s.heldL2 + moved && t.dirtyL2 == s.dirtyL2 + moved;
  }

  lemma Moved(pages: PageMap, dirty: set<nat>, l: nat, rest: set<nat>)
    requires AllMapped(pages, {l} + rest) && l / 128 in pages
    ensures (if l in dirty then {PhysLine(pages, l)} else {}) + PhysSet(pages, (dirty - {l}) * rest) ==
            PhysSet(pages, dirty * ({l} + rest))
  {
    var a, b := PhysSet(pages, (dirty - {l}) * rest), PhysSet(pages, dirty * ({l} + rest));
    forall p | p in b ensures p in a || (l in dirty && p == PhysLine(pages, l)) {
      var x :| x in dirty * ({l} + rest) && PhysLine(pages, x) == p;
      assert x == l || x in (dirty - {l}) * rest;
    }
  }

  lemma {:induction false} ReplayL2(pages: PageMap, s: Caches, kind: Kind, lines: seq<nat>)
    requires kind in {L2Write, L2WriteInv}
    ensures Replay(pages, s, OnLines(kind, lines)) ==
            s.(heldL2 := if kind == L2WriteInv then s.heldL2 - SetOf(lines) else s.heldL2, dirtyL2 := s.dirtyL2 - SetOf(lines))
    decreases |lines|
  {
    var evs := OnLines(kind, lines);
    if lines == [] {
      assert s.dirtyL2 - SetOf(lines) == s.dirtyL2 && s.heldL2 - SetOf(lines) == s.heldL2;
    } else {
      assert lines == [lines[0]] + lines[1..];
      assert SetOf(lines) == {lines[0]} + SetOf(lines[1..]);
      assert evs[1..] == OnLines(kind, lines[1..]);
      hide SetOf;
      ReplayL2(pages, Effect(pages, s, evs[0]), kind, lines[1..]);
      assert s.dirtyL2 - {lines[0]} - SetOf(lines[1..]) == s.dirtyL2 - SetOf(lines);
      assert s.heldL2 - {lines[0]} - SetOf(lines[1..]) == s.heldL2 - SetOf(lines);
    }
  }

  lemma {:induction false} ReplayInstr(pages: PageMap, s: Caches, lines: seq<nat>)
    requires AllMapped(pages, SetOf(lines))
    requires forall l :: l in lines ==> l !in s.dirty && PhysLine(pages, l) !in s.dirtyL2
    ensures Replay(pages, s, OnLines(InstrInv, lines)) == s.(stale := s.stale - SetOf(lines))
    decreases |lines|
  {
    var evs := OnLines(InstrInv, lines);
    if lines == [] {
      assert s.stale - SetOf(lines) == s.stale;
    } else {
      assert lines == [lines[0]] + lines[1..];
      assert SetOf(lines) == {lines[0]} + SetOf(lines[1..]);
      assert evs[1..] == OnLines(InstrInv, lines[1..]);
      hide SetOf;
      ReplayInstr(pages, Effect(pages, s, evs[0]), lines[1..]);
      assert s.stale - {lines[0]} - SetOf(lines[1..]) == s.stale - SetOf(lines);
    }
  }

  lemma PhysSetOf(pages: PageMap, addr: nat, size: nat)
    requires Mapped(pages, addr, size)
    ensures AllMapped(pages, SetOf(RangeLines(addr, size)))
    ensures SetOf(PhysRange(pages, addr, size)) == PhysSet(pages, SetOf(RangeLines(addr, size)))
  {
    LinesMapped(pages, addr, size);
    var v, p := RangeLines(addr, size), PhysRange(pages, addr, size);
    hide RangeLines;
    forall x | x in PhysSet(pages, SetOf(v)) ensures x in p {
      var l :| l in v && PhysLine(pages, l) == x;
      var i :| 0 <= i < |v| && v[i] == l;
      assert p[i] == x;
    }
  }

  lemma ReplayThen(pages: PageMap, s: Caches, a: seq<Event>, b: seq<Event>, t: Caches)
    requires Replay(pages, s, a) == t
    ensures Replay(pages, s, a + b) == Replay(pages, t, b)
  {
    ReplayConcat(pages, s, a, b);
  }

  /** Access-control writes and the wait for the second-level cache change nothing here. */
  lemma ReplayIdle(pages: PageMap, s: Caches, ev: Event)
    requires ev.SetDacr? || ev.L2Sync?
    ensures Replay(pages, s, [ev]) == s
  {
    assert [ev][1..] == [];
  }

  /** What was moved down from `r` is gone when the physical lines of `r` go, or clean when they are
      written out. */
  lemma SetsAfter(pages: PageMap, s: Caches, r: set<nat>)
    requires AllMapped(pages, r)
    ensures s.dirtyL2 + PhysSet(pages, s.dirty * r) - PhysSet(pages, r) == s.dirtyL2 - PhysSet(pages, r)
    ensures s.heldL2 + PhysSet(pages, s.dirty * r) - PhysSet(pages, r) == s.heldL2 - PhysSet(pages, r)
  {
  }

  lemma LinesClean(pages: PageMap, lines: seq<nat>, u: Caches)
    requires AllMapped(pages, SetOf(lines))
    requires u.dirty !! SetOf(lines) && u.dirtyL2 !! PhysSet(pages, SetOf(lines))
    ensures forall l :: l in lines ==> l !in u.dirty && l / 128 in pages && PhysLine(pages, l) !in u.dirtyL2
  {
    forall l | l in lines ensures l !in u.dirty && l / 128 in pages && PhysLine(pages, l) !in u.dirtyL2 {
      assert l in SetOf(lines);
      assert PhysLine(pages, l) in PhysSet(pages, SetOf(lines));
    }
  }
}
