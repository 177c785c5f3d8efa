/** An open directory on the heap: the entry, its vnode and its handles, whose records hold the
    cursors.  Opening, reading and closing a handle are updates of the cursors by descriptor. */
module DirTables {
  import opened Words
  import opened Lists
  import opened PathTree
  import opened Entries
  import opened FileSpec
  import opened FileIo
  import opened FileRuns
  import opened Volumes
  import opened DirIo
  import opened World
  import DirCursor

  type Cursors = map<nat, Option<Entry>>

  datatype DirTable = DirTable(node: Vnode, fobjs: map<nat, FileObject>, cursors: Cursors)

  /** The records hold the cursors of their descriptors. */
  ghost predicate Agree(open: seq<Handle>, fobjs: map<nat, FileObject>, cursors: Cursors)
    reads open
  {
    && cursors.Keys == fobjs.Keys
    && forall h, fd :: h in open && fd in fobjs && fobjs[fd] == h.key ==> h.current == Pointer(cursors[fd])
  }

  ghost predicate Nodes(fobjs: map<nat, FileObject>, node: Vnode)
    reads fobjs.Values
  {
    forall fd :: fd in fobjs ==> fobjs[fd].node == node
  }

  ghost predicate DirReady(e: Entry, t: DirTable)
    reads e, e.open, t.node, t.fobjs.Values
  {
    && e.HandlesOk() && t.node.devInfo == e
    && KeysMatch(e.Keys(), t.fobjs) && Agree(e.open, t.fobjs, t.cursors) && Nodes(t.fobjs, t.node)
  }

  twostate predicate KeptDir(e: Entry, t: DirTable, new u: DirTable)
    reads e`open
  {
    && u.node == t.node
    && (forall k :: k in u.fobjs.Values ==> k in t.fobjs.Values || fresh(k))
    && (forall h :: h in e.open ==> h in old(e.open) || fresh(h))
  }

  lemma ReadyDir(e: Entry, t: DirTable)
    requires DirReady(e, t)
    ensures e.HandlesOk() && t.node.devInfo == e && KeysMatch(e.Keys(), t.fobjs) && Agree(e.open, t.fobjs, t.cursors)
    ensures forall gd :: gd in t.fobjs ==> t.fobjs[gd].node == t.node
    ensures t.cursors.Keys == t.fobjs.Keys
  {
    hide Entry.HandlesOk, KeysMatch;
  }

  lemma MakeDir(e: Entry, t: DirTable)
    requires e.HandlesOk() && t.node.devInfo == e && KeysMatch(e.Keys(), t.fobjs) && Agree(e.open, t.fobjs, t.cursors)
    requires forall gd :: gd in t.fobjs ==> t.fobjs[gd].node == t.node
    ensures DirReady(e, t)
  {
    hide Entry.HandlesOk, KeysMatch, Agree;
  }

  /** The record of a descriptor. */
  lemma RecordIs(e: Entry, t: DirTable, fd: nat)
    requires DirReady(e, t) && fd in t.fobjs
    ensures var h := e.Record(t.fobjs[fd]);
            h != null && h in e.open && h.key == t.fobjs[fd] && h.current == Pointer(t.cursors[fd])
    ensures IsOpen(t.node, t.fobjs[fd])
  {
    hide Entry.HandlesOk;
    var k := KeyIndex(e.Keys(), t.fobjs[fd]);
    assert t.fobjs[fd] in e.Keys();
    assert e.open[k].key == t.fobjs[fd];
  }

  // ---------- opening

  lemma AgreeNew(open: seq<Handle>, fobjs: map<nat, FileObject>, cursors: Cursors, fd: nat, h: Handle, c: Option<Entry>)
    requires Agree(open, fobjs, cursors) && fd !in fobjs && h.key !in fobjs.Values && h.current == Pointer(c)
    requires forall x :: x in open ==> x.key in fobjs.Values
    ensures Agree([h] + open, fobjs[fd := h.key], cursors[fd := c])
  {
    var now := fobjs[fd := h.key];
    forall x, gd | x in [h] + open && gd in now && now[gd] == x.key ensures x.current == Pointer(cursors[fd := c][gd]) {
      if x != h {
        assert x in open;
      }
    }
  }

  lemma KeysInside(e: Entry, fobjs: map<nat, FileObject>)
    requires KeysMatch(e.Keys(), fobjs)
    ensures forall x :: x in e.open ==> x.key in fobjs.Values
  {
    forall x | x in e.open ensures x.key in fobjs.Values {
      var i :| 0 <= i < |e.open| && e.open[i] == x;
      assert e.Keys()[i] == x.key;
    }
  }

  function Cursor(x: Entry?): (c: Option<Entry>)
    ensures Pointer(c) == x
  {
    if x == null then None else Some(x)
  }

  method OpenCursorWith(e: Entry, t: DirTable, fd: nat, fobj: FileObject) returns (u: DirTable, res: int)
    requires DirReady(e, t) && fd !in t.fobjs && fobj !in t.fobjs.Values && fobj.node == t.node
    modifies e`handles, e`refer, e`open
    ensures DirReady(e, u) && res == 0
    ensures u.cursors == t.cursors[fd := Cursor(e.nextDir)]
    ensures u.node == t.node && u.fobjs.Values <= t.fobjs.Values + {fobj}
    ensures forall h :: h in e.open ==> h in old(e.open) || fresh(h)
  {
    ReadyDir(e, t);
    KeysInside(e, t.fobjs);
    hide Entry.HandlesOk, KeysMatch, DirReady, Entry.Keys, Agree, Entry.Record;
    ghost var keys, open := e.Keys(), e.open;
    MatchNew(keys, t.fobjs, fd, fobj);
    assert forall h :: h in open ==> old(allocated(h));
    res := VopDopen(t.node, fobj, true);
    assert [fobj] + keys == e.Keys();
    assert Agree(open, t.fobjs, t.cursors);
    AgreeNew(open, t.fobjs, t.cursors, fd, RecordOf(t.node, fobj), Cursor(e.nextDir));
    u := DirTable(t.node, t.fobjs[fd := fobj], t.cursors[fd := Cursor(e.nextDir)]);
    MakeDir(e, u);
  }

  /** Without memory for a record nothing is opened. */
  method OpenCursorFails(e: Entry, t: DirTable, fd: nat, fobj: FileObject) returns (res: int)
    requires DirReady(e, t)
    modifies e`handles, e`refer, e`open
    ensures DirReady(e, t) && KeptDir(e, t, t) && res == INVALID
  {
    ReadyDir(e, t);
    hide Entry.HandlesOk, KeysMatch, DirReady, Entry.Keys, Agree;
    ghost var keys := e.Keys();
    res := VopDopen(t.node, fobj, false);
    assert [] + keys == keys;
    MakeDir(e, t);
  }

  method OpenCursor(e: Entry, t: DirTable, fd: nat, memOk: bool) returns (u: DirTable, res: int)
    requires DirReady(e, t) && fd !in t.fobjs
    modifies e`handles, e`refer, e`open
    ensures DirReady(e, u) && KeptDir(e, t, u) && res == (if memOk then 0 else INVALID)
    ensures u.cursors == if memOk then t.cursors[fd := Cursor(e.nextDir)] else t.cursors
  {
    ReadyDir(e, t);
    hide DirReady;
    assert forall k :: k in t.fobjs.Values ==> old(allocated(k));
    assert forall h :: h in e.open ==> old(allocated(h));
    var fobj := new FileObject(t.node);
    if memOk {
      u, res := OpenCursorWith(e, t, fd, fobj);
    } else {
      u := t;
      res := OpenCursorFails(e, t, fd, fobj);
    }
  }

  // ---------- reading

  /** The one record that a read looks at. */
  lemma AtHandle(e: Entry, t: DirTable, fd: nat)
    requires DirReady(e, t) && fd in t.fobjs
    ensures var h := e.Record(t.fobjs[fd]);
            && h != null && RecordOf(t.node, t.fobjs[fd]) == h
            && h.key == t.fobjs[fd] && h.current == Pointer(t.cursors[fd]) && h in e.open
            && forall g :: g in e.open && g.key == h.key ==> g == h
    ensures forall gd :: gd in t.fobjs && t.fobjs[gd] == t.fobjs[fd] ==> gd == fd
  {
    ReadyDir(e, t);
    RecordIs(e, t, fd);
    hide Entry.HandlesOk, DirReady, Entry.Record;
    KeysAlone(e.Keys(), t.fobjs, fd);
    hide KeysMatch;
    OneRecord(e, e.Record(t.fobjs[fd]));
  }

  /** One record has moved on: its descriptor's cursor does. */
  twostate lemma AgreeAfter(x: (DirTable, nat, Option<Entry>))
    requires x.0.node.devInfo == old(x.0.node.devInfo) && x.0.node.devInfo != null
    requires var e := x.0.node.devInfo; e.open == old(e.open) && old(Agree(e.open, x.0.fobjs, x.0.cursors))
    requires x.1 in x.0.fobjs
    requires var h := x.0.node.devInfo.Record(x.0.fobjs[x.1]);
             && h != null && h.key == x.0.fobjs[x.1] && h.current == Pointer(x.2)
             && (forall g :: g in x.0.node.devInfo.open && g != h ==> g.current == old(g.current))
             && (forall g :: g in x.0.node.devInfo.open && g.key == h.key ==> g == h)
    requires forall gd :: gd in x.0.fobjs && x.0.fobjs[gd] == x.0.fobjs[x.1] ==> gd == x.1
    ensures Agree(x.0.node.devInfo.open, x.0.fobjs, x.0.cursors[x.1 := x.2])
  {
  }

  lemma OneRecord(e: Entry, h: Handle)
    requires Distinct(e.Keys()) && h in e.open
    ensures forall x :: x in e.open && x.key == h.key ==> x == h
  {
    var i :| 0 <= i < |e.open| && e.open[i] == h;
    forall x | x in e.open && x.key == h.key ensures x == h {
      var j :| 0 <= j < |e.open| && e.open[j] == x;
      assert e.Keys()[i] == e.Keys()[j];
    }
  }

  /** The directory is in order again after a read has moved one record on. */
  twostate lemma AfterRead(x: (DirTable, nat, Option<Entry>))
    requires x.0.node.devInfo == old(x.0.node.devInfo) && x.0.node.devInfo != null
    requires old(DirReady(x.0.node.devInfo, x.0)) && x.1 in x.0.fobjs
    requires var e := x.0.node.devInfo; e.open == old(e.open) && e.handles == old(e.handles) && e.refer == old(e.refer)
    requires forall k: FileObject :: old(allocated(k)) ==> k.node == old(k.node)
    requires forall h: Handle :: old(allocated(h)) ==> h.next == old(h.next)
    requires var h := x.0.node.devInfo.Record(x.0.fobjs[x.1]);
             && h != null && h.current == Pointer(x.2)
             && (forall g: Handle :: old(allocated(g)) && g != h ==> g.current == old(g.current))
    ensures DirReady(x.0.node.devInfo, DirTable(x.0.node, x.0.fobjs, x.0.cursors[x.1 := x.2]))
  {
    var e, t := x.0.node.devInfo, x.0;
    assert old(Agree(e.open, t.fobjs, t.cursors) && e.HandlesOk() && KeysMatch(e.Keys(), t.fobjs));
    assert e.HandlesOk() && KeysMatch(e.Keys(), t.fobjs) && forall gd :: gd in t.fobjs ==> t.fobjs[gd].node == t.node;
    hide Entry.HandlesOk, DirReady, Agree;
    OneKey(e, t.fobjs, x.1);
    hide KeysMatch, Entry.Keys, Entry.Record;
    AgreeAfter(x);
    MakeDir(e, DirTable(t.node, t.fobjs, t.cursors[x.1 := x.2]));
  }

  lemma OneKey(e: Entry, fobjs: map<nat, FileObject>, fd: nat)
    requires KeysMatch(e.Keys(), fobjs) && fd in fobjs
    ensures var h := e.Record(fobjs[fd]);
            h != null ==> h.key == fobjs[fd] && forall g :: g in e.open && g.key == h.key ==> g == h
    ensures forall gd :: gd in fobjs && fobjs[gd] == fobjs[fd] ==> gd == fd
  {
    KeysAlone(e.Keys(), fobjs, fd);
    assert fobjs[fd] in e.Keys();
    var k := KeyIndex(e.Keys(), fobjs[fd]);
    assert e.open[k].key == fobjs[fd];
    OneRecord(e, e.open[k]);
  }

  /** At the end of the list nothing is returned. */
  method ReadEnd(e: Entry, t: DirTable, fd: nat) returns (res: int, name: string, size: int, isDir: bool)
    requires DirReady(e, t) && fd in t.fobjs && t.cursors[fd].None?
    modifies (set h | h in e.open)`current
    ensures DirReady(e, t) && e.open == old(e.open) && res == 0
  {
    ReadyDir(e, t);
    AtHandle(e, t, fd);
    hide Entry.HandlesOk, KeysMatch, DirReady, Entry.Keys, Chain, Entry.Record, Agree, Distinct;
    res, name, size, isDir := VopDread(t.node, t.fobjs[fd], []);
    assert t.cursors[fd := None] == t.cursors;
    AfterRead((t, fd, None));
  }

  /** The read itself, with all that it leaves alone. */
  method ReadApart(e: Entry, node: Vnode, k: FileObject, x: Entry, ghost kids: seq<Entry>)
    returns (res: int, name: string, size: int, isDir: bool)
    requires node.devInfo == e && e.HandlesOk() && e.Record(k) != null && e.Record(k) in e.open && e.Record(k).current == x
    requires Chain(e.nextDir, kids) && Distinct(kids) && x in kids
    modifies (set h | h in e.open)`current
    ensures res == 1 && name == x.name[..Min(|x.name|, DirCursor.NAME_MAX)] && size == x.size && isDir == x.isDir
    ensures node.devInfo == e && e.open == old(e.open) && e.handles == old(e.handles) && e.refer == old(e.refer)
    ensures forall f: FileObject :: old(allocated(f)) ==> f.node == old(f.node)
    ensures forall h: Handle :: old(allocated(h)) ==> h.next == old(h.next)
    ensures e.Record(k) != null && e.Record(k).current == Pointer(DirCursor.NextIn<Entry>(kids, x))
    ensures forall g: Handle :: old(allocated(g)) && g != e.Record(k) ==> g.current == old(g.current)
  {
    hide Entry.HandlesOk, Chain, Distinct, Entry.Record, DirCursor.NextIn;
    assert x.name[..|x.name|] == x.name;
    res, name, size, isDir := VopDread(node, k, kids);
  }

  /** Otherwise the handle returns the entry in front of it. */
  method ReadNext(e: Entry, t: DirTable, fd: nat, x: Entry, ghost kids: seq<Entry>)
    returns (u: DirTable, res: int, name: string, size: int, isDir: bool)
    requires DirReady(e, t) && fd in t.fobjs && t.cursors[fd] == Some(x)
    requires Chain(e.nextDir, kids) && Distinct(kids) && x in kids
    modifies (set h | h in e.open)`current
    ensures DirReady(e, u) && u.node == t.node && u.fobjs == t.fobjs && e.open == old(e.open)
    ensures res == 1 && name == x.name[..Min(|x.name|, DirCursor.NAME_MAX)] && size == x.size && isDir == x.isDir
    ensures u.cursors == t.cursors[fd := DirCursor.NextIn<Entry>(kids, x)]
  {
    BeforeRead(e, t, fd, x, kids);
    hide Entry.HandlesOk, DirReady, Chain, Entry.Record, Distinct, DirCursor.NextIn, Min;
    res, name, size, isDir := ReadApart(e, t.node, t.fobjs[fd], x, kids);
    var c := Cursor(x.next);
    AfterRead((t, fd, c));
    u := DirTable(t.node, t.fobjs, t.cursors[fd := c]);
  }

  lemma BeforeRead(e: Entry, t: DirTable, fd: nat, x: Entry, kids: seq<Entry>)
    requires DirReady(e, t) && fd in t.fobjs && t.cursors[fd] == Some(x)
    requires Chain(e.nextDir, kids) && Distinct(kids) && x in kids
    ensures t.node.devInfo == e && e.HandlesOk()
    ensures var h := e.Record(t.fobjs[fd]); h != null && h in e.open && h.current == x
    ensures x.next == Pointer(DirCursor.NextIn<Entry>(kids, x))
  {
    ReadyDir(e, t);
    AtHandle(e, t, fd);
    ChainNext(e.nextDir, kids, x);
    hide Entry.HandlesOk, KeysMatch, DirReady, Entry.Keys, Chain, Entry.Record, Agree, Distinct;
  }

  lemma KeysAlone(keys: seq<FileObject>, fobjs: map<nat, FileObject>, fd: nat)
    requires KeysMatch(keys, fobjs) && fd in fobjs
    ensures Distinct(keys) && forall gd :: gd in fobjs && fobjs[gd] == fobjs[fd] ==> gd == fd
  {
  }

  // ---------- closing

  /** The close itself, with all that it leaves alone. */
  method CloseApart(e: Entry, node: Vnode, k: FileObject) returns (res: int)
    requires node.devInfo == e && e.HandlesOk() && IsOpen(node, k)
    modifies e`handles, e`refer, e`open, (set h | h in e.open)`next
    ensures node.devInfo == e && e.HandlesOk() && res == 0 && e.Keys() == Without(old(e.Keys()), k)
    ensures forall h :: h in e.open ==> h in old(e.open)
    ensures forall f: FileObject :: old(allocated(f)) ==> f.node == old(f.node)
    ensures forall h: Handle :: old(allocated(h)) ==> h.current == old(h.current)
  {
    hide Entry.HandlesOk, Entry.Keys, Without;
    res := VopDclose(node, k);
  }

  method CloseCursor(e: Entry, t: DirTable, fd: nat) returns (u: DirTable, res: int)
    requires DirReady(e, t) && fd in t.fobjs
    modifies e`handles, e`refer, e`open, (set h | h in e.open)`next
    ensures DirReady(e, u) && KeptDir(e, t, u) && res == 0
    ensures u.cursors == t.cursors - {fd}
  {
    ReadyDir(e, t);
    RecordIs(e, t, fd);
    hide Entry.HandlesOk, KeysMatch, DirReady, Entry.Keys, Entry.Record, IsOpen, Without;
    ghost var open := e.open;
    MatchClose(e.Keys(), t.fobjs, fd);
    res := CloseApart(e, t.node, t.fobjs[fd]);
    AgreeLess(open, e.open, t.fobjs, t.cursors, fd);
    u := DirTable(t.node, t.fobjs - {fd}, t.cursors - {fd});
    MakeDir(e, u);
  }

  lemma AgreeLess(open: seq<Handle>, now: seq<Handle>, fobjs: map<nat, FileObject>, cursors: Cursors, fd: nat)
    requires Agree(open, fobjs, cursors) && forall h :: h in now ==> h in open
    ensures Agree(now, fobjs - {fd}, cursors - {fd})
  {
  }

  // ---------- any of the three

  datatype DirCall = OpenCall(fd: nat, memOk: bool) | ReadCall(fd: nat) | CloseCall(fd: nat)

  /** What a call does to the cursors of a directory with these entries. */
  ghost function DirMoves(kids: seq<Entry>, cursors: Cursors, c: DirCall): Cursors
    requires c.ReadCall? ==> c.fd in cursors
  {
    match c
    case OpenCall(fd, memOk) => if memOk then cursors[fd := DirCursor.First(kids)] else cursors
    case ReadCall(fd) =>
      (match cursors[fd] case None => cursors case Some(x) => cursors[fd := DirCursor.NextIn(kids, x)])
    case CloseCall(fd) => cursors - {fd}
  }

  /** What it answers. */
  ghost function DirAnswer(cursors: Cursors, c: DirCall): Answer
    requires c.ReadCall? ==> c.fd in cursors
    reads if c.ReadCall? && cursors[c.fd].Some? then {cursors[c.fd].value} else {}
  {
    match c
    case OpenCall(_, memOk) => Did(Code(if memOk then 0 else INVALID))
    case CloseCall(_) => Did(Code(0))
    case ReadCall(fd) =>
      match cursors[fd]
      case None => Did(Code(0))
      case Some(x) => Listed(x.name[..Min(|x.name|, DirCursor.NAME_MAX)], Max(x.size, 0), x.isDir)
  }

  ghost predicate DirCallOk(e: Entry, t: DirTable, c: DirCall, kids: seq<Entry>)
    reads e`nextDir, kids`next
  {
    && (c.OpenCall? <==> c.fd !in t.fobjs)
    && (!c.OpenCall? ==> c.fd in t.cursors)
    && (c.OpenCall? || (c.ReadCall? && t.cursors[c.fd].Some?) ==> Chain(e.nextDir, kids) && Distinct(kids))
    && (c.ReadCall? && t.cursors[c.fd].Some? ==> t.cursors[c.fd].value in kids)
  }

  method DirPerform(e: Entry, t: DirTable, c: DirCall, ghost kids: seq<Entry>) returns (u: DirTable, a: Answer)
    requires DirReady(e, t) && DirCallOk(e, t, c, kids)
    requires c.ReadCall? && t.cursors[c.fd].Some? ==> t.cursors[c.fd].value.size >= 0
    modifies e`handles, e`refer, e`open, (set h | h in e.open)`next, (set h | h in e.open)`current
    ensures DirReady(e, u) && KeptDir(e, t, u)
    ensures u.cursors == DirMoves(kids, t.cursors, c) && a == old(DirAnswer(t.cursors, c))
  {
    hide DirReady;
    assert forall h :: h in e.open ==> old(allocated(h));
    u, a := t, Did(Code(0));
    match c {
      case OpenCall(fd, memOk) =>
        var res;
        u, res := OpenCursor(e, t, fd, memOk);
        a := Did(Code(res));
      case ReadCall(fd) =>
        var res, name, size, isDir;
        match t.cursors[fd] {
          case None =>
            res, name, size, isDir := ReadEnd(e, t, fd);
          case Some(x) =>
            u, res, name, size, isDir := ReadNext(e, t, fd, x, kids);
            a := Listed(name, size, isDir);
        }
      case CloseCall(fd) =>
        var res;
        u, res := CloseCursor(e, t, fd);
        a := Did(Code(res));
    }
  }
}
