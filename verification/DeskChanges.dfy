/** Requests that change the tree, against the heap: creating, removing and renaming by path, with
    handles open on anything. */
module DeskChanges {
  import opened Words
  import opened Lists
  import opened PathTree
  import opened TreeSteps
  import opened TreePaths
  import opened FlatFs
  import opened Entries
  import opened FileSpec
  import opened FileIo
  import opened FileRuns
  import opened Volumes
  import opened Refusals
  import opened VolumeOps
  import opened DirTables
  import opened World
  import opened Desks
  import opened DeskCalls

  // ---------- new entries

  /** The call for a new entry, with all that it leaves alone. */
  method NewApart(v: Volume, dir: Entry, op: Op<()>, mem: Memory, node: NodeResult) returns (res: int, ghost e: Entry?)
    requires v.Valid() && Buffers(v.tree.kids.Keys) && Counted(v.tree.kids.Keys)
    requires (op.Create? || op.Mkdir?) && PlainName(op.name) && mem.nameAgain
    requires dir in v.tree.kids && dir in v.tree.dirs && PathOf(v.tree, dir) == op.dir
    modifies v`tree, dir`nextDir
    ensures v.Valid() && Buffers(v.tree.kids.Keys) && Counted(v.tree.kids.Keys)
    ensures e != null <==> Find(old(v.tree), Join(op.dir, op.name)).None? && mem.entry && mem.name
    ensures e == null ==> v.tree == old(v.tree)
    ensures MkdirReturns(old(View(v)), op.dir, op.name, mem, node, res)
    ensures e != null ==> fresh(e) && e.data == null && e.open == [] && View(v) == VolStep(old(View(v)), With(op, e))
    ensures forall x: Entry :: old(allocated(x)) ==> x.isDir == old(x.isDir) && x.size == old(x.size) && x.data == old(x.data)
    ensures forall x: Entry :: old(allocated(x)) ==> x.open == old(x.open) && x.handles == old(x.handles) && x.refer == old(x.refer)
    ensures forall h: Handle :: old(allocated(h)) ==> h.next == old(h.next) && h.current == old(h.current)
    ensures forall n: Vnode :: old(allocated(n)) ==> n.devInfo == old(n.devInfo) && n.size == old(n.size)
    ensures forall k: FileObject :: old(allocated(k)) ==> k.node == old(k.node) && k.offset == old(k.offset)
    ensures forall a: array<byte> :: old(allocated(a)) ==> a[..] == old(a[..])
  {
    hide Shape, Named, Volume.Linked, Buffers, Counted, Contents, VolStep, Find, CreateReturns, MkdirReturns;
    ghost var was := View(v);
    LinkedKeys(v);
    ViewOk(v);
    if op.Create? {
      res, e := VopCreate(v, dir, op.name, Join(op.dir, op.name), mem, node);
      MkdirCode(was, dir, op.name, mem, node, res);
    } else {
      res, e := VopMkdir(v, dir, op.name, Join(op.dir, op.name), mem, node);
    }
  }

  lemma NewTree(w: World<Entry>, op: Op<()>, n: Entry)
    requires WorldOk(w) && (op.Create? || op.Mkdir?)
    requires Find(w.tree, op.dir).Some? && Find(w.tree, Join(op.dir, op.name)).None?
    ensures VolStep(VolOf(w), With(op, n)).tree.kids.Keys == w.tree.kids.Keys + {n}
  {
    hide Shape, Named, Find;
    WorldFacts(w);
    LinkKeys(w.tree, At(w.tree, op.dir), n, op.name, op.Mkdir?);
  }

  lemma ChangeAdds(w: World<Entry>, t: Tree<Entry>, n: Entry)
    requires w.tree.kids.Keys <= w.nodes.Keys && t.kids.Keys == w.tree.kids.Keys + {n} && n !in w.nodes
    ensures ChangeTo(w, t) == World(t, w.nodes[n := Fresh(n in t.dirs)], w.where)
  {
    hide Idle;
    var now := ChangeTo(w, t).nodes;
    assert now.Keys == w.nodes.Keys + {n};
    assert now == w.nodes[n := Fresh(n in t.dirs)];
  }

  lemma ChangeKeeps(w: World<Entry>, t: Tree<Entry>)
    requires w.tree.kids.Keys <= w.nodes.Keys && t.kids.Keys == w.tree.kids.Keys
    ensures ChangeTo(w, t) == World(t, w.nodes, w.where)
  {
    hide Idle;
    var now := ChangeTo(w, t).nodes;
    assert now.Keys == w.nodes.Keys;
    assert now == w.nodes;
  }

  /** The step of a request that is served. */
  lemma ChangeTook(w: World<Entry>, r: Request, n: Entry, t: Tree<Entry>)
    requires WorldOk(w) && r.Change? && Proper(w, r) && Served(r.op, r.mem, r.node) && NewNode(w, r, n)
    requires w.tree.kids.Keys <= w.nodes.Keys && Shape(w.tree) && t == VolStep(VolOf(w), With(r.op, n)).tree
    ensures Took(w, r, n, ChangeTo(w, t), Changed(ChangeCode(w, r.op, r.mem, r.node)))
  {
    hide WorldOk, Proper, VolStep, ChangeTo, Shape;
  }

  lemma IdleTook(w: World<Entry>, r: Request, n: Entry)
    requires WorldOk(w) && r.Change? && Proper(w, r) && !Served(r.op, r.mem, r.node) && NewNode(w, r, n)
    ensures Took(w, r, n, w, Changed(ChangeCode(w, r.op, r.mem, r.node)))
  {
    hide WorldOk, Proper, VolStep, ChangeTo;
  }

  /** A new entry that is served adds one node. */
  lemma NewTook(w: World<Entry>, r: Request, n: Entry, u: World<Entry>)
    requires WorldOk(w) && r.Change? && (r.op.Create? || r.op.Mkdir?) && Proper(w, r) && n !in w.nodes
    requires r.mem.entry && r.mem.name && Find(w.tree, r.op.dir).Some? && Find(w.tree, Join(r.op.dir, r.op.name)).None?
    requires u.tree == VolStep(VolOf(w), With(r.op, n)).tree && u.where == w.where
    requires u.nodes == w.nodes[n := Fresh(n in u.tree.dirs)]
    ensures Took(w, r, n, u, Changed(ChangeCode(w, r.op, r.mem, r.node)))
  {
    NewTree(w, r.op, n);
    WorldFacts(w);
    hide Shape, Named, WorldOk, Find, VolStep, Proper, ChangeTo, Took, VolOf;
    ChangeAdds(w, u.tree, n);
    ChangeTook(w, r, n, u.tree);
  }

  /** One that is not served, or whose path is taken, changes nothing. */
  lemma NotNewTook(w: World<Entry>, r: Request, n: Entry)
    requires WorldOk(w) && r.Change? && (r.op.Create? || r.op.Mkdir?) && Proper(w, r) && n !in w.nodes
    requires !r.mem.entry || !r.mem.name || Find(w.tree, Join(r.op.dir, r.op.name)).Some?
    ensures Took(w, r, n, w, Changed(ChangeCode(w, r.op, r.mem, r.node)))
  {
    WorldFacts(w);
    hide Shape, Named, WorldOk, Find, Proper, LinkNew, ChangeTo, Took;
    if Served(r.op, r.mem, r.node) {
      ChangeKeeps(w, w.tree);
      ChangeTook(w, r, n, w.tree);
    } else {
      IdleTook(w, r, n);
    }
  }

  lemma AllCounted(d: Desk)
    requires ItemsOk(d)
    ensures Counted(d.all)
  {
    hide DataOk, FileReady, DirReady, Entry.HandlesOk;
    forall e | e in d.all ensures e.HandlesOk() {
      assert ItemOk(ItemOf(d, e));
    }
  }

  lemma BytesAre(d: Desk)
    ensures WorldOf(d).tree == d.v.tree && WorldOf(d).where == d.where && WorldOf(d).nodes.Keys == d.all
    ensures forall e :: e in d.all ==> WorldOf(d).nodes[e].file.content == Bytes(e)
  {
    hide Bytes;
  }

  lemma ViewIs(d: Desk)
    requires Parts(d)
    ensures d.v.tree.kids.Keys <= WorldOf(d).nodes.Keys && View(d.v) == VolOf(WorldOf(d))
    ensures Buffers(d.v.tree.kids.Keys) && Counted(d.v.tree.kids.Keys)
  {
    hide Parts, Buffers, Counted, ItemsOk, Bytes, Volume.Valid, WorldOf;
    PartsOf(d);
    AllCounted(d);
    BuffersLess(d.v.tree.kids.Keys, d.all);
    CountedLess(d.v.tree.kids.Keys, d.all);
    BytesAre(d);
  }

  lemma InRepr(d: Desk, e: Entry)
    requires ItemsOk(d) && e in d.all
    ensures e in d.repr
  {
    hide ItemOk;
  }

  /** The desk with a new entry. */
  ghost function WithEntry(d: Desk, e: Entry): Desk {
    d.(all := d.all + {e}, repr := d.repr + {e})
  }

  lemma WithEntryItems(d: Desk, e: Entry)
    requires ItemsOk(d) && d.held.Keys <= d.all && e !in d.all
    requires ItemOk(Item(e, None)) && e.open == [] && e.data == null
    ensures ItemsOk(WithEntry(d, e))
    ensures ItemOf(WithEntry(d, e), e) == Item(e, None)
    ensures forall x :: x in d.all ==> ItemOf(WithEntry(d, e), x) == ItemOf(d, x)
  {
    hide ItemOk;
    var u := WithEntry(d, e);
    forall x | x in u.all ensures Inside(u.repr, ItemOf(u, x)) && ItemOk(ItemOf(u, x)) {
      if x in d.all {
        assert ItemOf(u, x) == ItemOf(d, x);
      }
    }
  }

  lemma WithEntryWorld(d: Desk, e: Entry, w: World<Entry>, i: Inode<Entry>)
    requires w.nodes.Keys == d.all && w.where == d.where && e !in d.all
    requires forall x :: x in d.all ==> InodeNow(ItemOf(WithEntry(d, e), x)) == w.nodes[x]
    requires InodeNow(ItemOf(WithEntry(d, e), e)) == i
    ensures WorldOf(WithEntry(d, e)) == World(d.v.tree, w.nodes[e := i], w.where)
  {
    hide InodeNow, ItemOf;
    var now := WorldOf(WithEntry(d, e)).nodes;
    assert now.Keys == w.nodes.Keys + {e};
    assert now == w.nodes[e := i];
  }

  lemma WithNew(d: Desk, e: Entry, w: World<Entry>)
    requires ItemsOk(d) && Buffers(d.all) && d.held.Keys <= d.all && e !in d.all
    requires d.v.Valid() && d.v.tree.kids.Keys <= d.all + {e} && e in d.v.tree.kids
    requires Buffers(d.v.tree.kids.Keys) && Counted(d.v.tree.kids.Keys) && e.data == null && e.open == []
    requires w.nodes.Keys == d.all && w.where == d.where && forall x :: x in d.all ==> InodeNow(ItemOf(d, x)) == w.nodes[x]
    ensures Parts(WithEntry(d, e))
    ensures WorldOf(WithEntry(d, e)) == World(d.v.tree, w.nodes[e := Fresh(e in d.v.tree.dirs)], w.where)
  {
    NewItem(d.v, e);
    hide ItemOk, DataOk, Entry.HandlesOk, InodeNow, ItemsOk, Volume.Valid, Buffers, Counted, ItemOf;
    WithEntryItems(d, e);
    BuffersAnd(d.all, e);
    WithEntryWorld(d, e, w, Fresh(e in d.v.tree.dirs));
  }

  lemma NewItem(v: Volume, e: Entry)
    requires v.Valid() && Buffers(v.tree.kids.Keys) && Counted(v.tree.kids.Keys)
    requires e in v.tree.kids && e.data == null && e.open == []
    ensures ItemOk(Item(e, None)) && DataOk(e) && InodeNow(Item(e, None)) == Fresh(e in v.tree.dirs)
  {
    hide Shape, Named, Entry.HandlesOk, Chained;
    v.LinkedTree();
    BytesSize(e);
  }

  lemma InodesAre(d: Desk)
    ensures WorldOf(d).nodes.Keys == d.all && forall x :: x in d.all ==> InodeNow(ItemOf(d, x)) == WorldOf(d).nodes[x]
    ensures WorldOf(d).tree == d.v.tree && WorldOf(d).where == d.where
  {
    hide InodeNow;
  }

  lemma PartsAre(d: Desk, w: World<Entry>)
    requires d.held.Keys <= d.all && d.v.tree.kids.Keys <= d.all && ItemsOk(d) && Buffers(d.all) && d.v.Valid()
    requires w.nodes.Keys == d.all && w.where == d.where && forall x :: x in d.all ==> InodeNow(ItemOf(d, x)) == w.nodes[x]
    ensures Parts(d) && WorldOf(d) == World(d.v.tree, w.nodes, w.where)
  {
    hide ItemsOk, Buffers, Volume.Valid, InodeNow, ItemOf;
    assert WorldOf(d).nodes == w.nodes;
  }

  /** Create and mkdir. */
  method ServeNew(d: Desk, r: Request, dir: Entry, spare: Entry) returns (u: Desk, code: int, ghost n: Entry)
    requires Ok(d) && r.Change? && (r.op.Create? || r.op.Mkdir?) && Proper(WorldOf(d), r)
    requires Find(d.v.tree, r.op.dir) == Some(dir) && spare !in d.all
    modifies d.v`tree, d.repr
    ensures Parts(u) && Grew(d, u) && Took(old(WorldOf(d)), r, n, WorldOf(u), Changed(code))
  {
    hide WorldOk, Parts, ItemsOk, WorldOf, Buffers, Counted, Shape, Named, Took, Abs, Find, VolStep, Proper, Volume.Valid, VolOf;
    hide WithEntry, InodeNow, ItemOf, MkdirReturns, ChangeCode;
    PartsOf(d);
    WorldIs(d);
    ViewIs(d);
    InodesAre(d);
    ghost var w := WorldOf(d);
    MayMake(w, r, dir);
    InRepr(d, dir);
    ghost var e;
    code, e := NewApart(d.v, dir, r.op, r.mem, r.node);
    NewCode(w, r, dir, code);
    ItemsStay(d);
    InodesStay(d);
    Untouched(d.all);
    if e == null {
      PartsAre(d, w);
      NotNewTook(w, r, spare);
      n := spare;
    } else {
      n := e;
      NewTree(w, r.op, n);
      WithNew(d, n, w);
      NewTook(w, r, n, WorldOf(WithEntry(d, n)));
    }
    u := WithMade(d, e);
  }

  lemma NewCode(w: World<Entry>, r: Request, dir: Entry, code: int)
    requires WorldOk(w) && r.Change? && (r.op.Create? || r.op.Mkdir?) && Proper(w, r) && PlainName(r.op.name)
    requires w.tree.kids.Keys <= w.nodes.Keys && Find(w.tree, r.op.dir) == Some(dir) && dir in w.tree.dirs
    requires MkdirReturns(VolOf(w), r.op.dir, r.op.name, r.mem, r.node, code)
    ensures code == ChangeCode(w, r.op, r.mem, r.node)
  {
    hide Shape, Named, Abs, WorldOk, Find;
    AbsAt(VolOf(w), r.op.dir);
  }

  /** The desk after a request for a new entry. */
  function WithMade(d: Desk, ghost e: Entry?): (u: Desk)
    ensures u == if e == null then d else WithEntry(d, e)
  {
    ghost var made: set<Entry> := if e == null then {} else {e};
    d.(all := d.all + made, repr := d.repr + made)
  }

  lemma MayMake(w: World<Entry>, r: Request, dir: Entry)
    requires WorldOk(w) && r.Change? && (r.op.Create? || r.op.Mkdir?) && Proper(w, r) && Find(w.tree, r.op.dir) == Some(dir)
    ensures dir in w.tree.kids && dir in w.tree.dirs && PathOf(w.tree, dir) == r.op.dir && PlainName(r.op.name) && r.mem.nameAgain
  {
    hide Shape, Named, Abs;
    VolFits(w);
    FlatFs.DirAt(VolOf(w), r.op.dir);
  }

  // ---------- removing

  ghost function ToGo(t: Tree<Entry>, dir: Entry, op: Op<()>): Decision<Entry>
    requires Shape(t) && dir in t.kids && (op.Remove? || op.Rmdir?)
  {
    var p := Join(op.dir, op.name);
    if op.Remove? then ToRemove(t, dir, p) else ToRmdir(t, dir, p)
  }

  lemma ToGoIs(v: Vol<Entry>, dir: Entry, op: Op<()>, n: Entry)
    requires VolOk(v) && dir in v.tree.kids && (op.Remove? || op.Rmdir?) && PlainName(op.name) && PathOf(v.tree, dir) == op.dir
    ensures match ToGo(v.tree, dir, op)
            case Keep(code) => code != 0 && VolStep(v, With(op, n)) == v
            case Act(e) =>
              && Find(v.tree, Join(op.dir, op.name)) == Some(e) && e in v.tree.kids && e in v.tree.kids[dir]
              && VolStep(v, With(op, n)).tree.kids.Keys == v.tree.kids.Keys - {e}
  {
    hide Shape, Named, VolStep;
    RemoveIsStep(v, dir, op.name);
    ActsOnChild(v.tree, dir, Join(op.dir, op.name));
    match ToGo(v.tree, dir, op)
    case Keep(_) =>
    case Act(e) =>
      UnlinkedKeys(v.tree, dir, e);
      FindsEntries(v.tree, Join(op.dir, op.name));
  }

  ghost predicate Stepped(v: Vol<Entry>, op: Op<()>, n: Entry, u: Vol<Entry>) {
    Shape(v.tree) && u == VolStep(v, With(op, n))
  }

  /** The call to remove a file. */
  method RemoveStep(v: Volume, dir: Entry, op: Op<()>) returns (res: int)
    requires v.Valid() && Buffers(v.tree.kids.Keys) && Counted(v.tree.kids.Keys)
    requires op.Remove? && PlainName(op.name) && dir in v.tree.kids && PathOf(v.tree, dir) == op.dir
    modifies v`tree, dir`nextDir, v.tree.kids[dir]`next, v.tree.kids[dir]`name, v.tree.kids[dir]`data
    ensures v.Valid() && Stepped(old(View(v)), op, dir, View(v)) && Went(old(v.tree.kids.Keys), old(ToGo(v.tree, dir, op)), res)
  {
    hide Shape, Named, Volume.Linked, Buffers, Counted, Contents, VolStep, ToRemove, Find;
    LinkedKeys(v);
    ActsOnChild(v.tree, dir, Join(op.dir, op.name));
    res := VopRemove(v, dir, op.name, Join(op.dir, op.name));
  }

  /** The call to remove a directory. */
  method RmdirStep(v: Volume, dir: Entry, op: Op<()>) returns (res: int)
    requires v.Valid() && Buffers(v.tree.kids.Keys) && Counted(v.tree.kids.Keys)
    requires op.Rmdir? && PlainName(op.name) && dir in v.tree.kids && PathOf(v.tree, dir) == op.dir
    modifies v`tree, dir`nextDir, v.tree.kids[dir]`next, v.tree.kids[dir]`name, v.tree.kids[dir]`data
    ensures v.Valid() && Stepped(old(View(v)), op, dir, View(v)) && Went(old(v.tree.kids.Keys), old(ToGo(v.tree, dir, op)), res)
  {
    hide Shape, Named, Volume.Linked, Buffers, Counted, Contents, VolStep, ToRmdir, Find;
    LinkedKeys(v);
    ActsOnChild(v.tree, dir, Join(op.dir, op.name));
    res := VopRmdir(v, dir, op.name, Join(op.dir, op.name));
  }

  /** What a removal returns. */
  ghost function GoneRes(todo: Decision<Entry>, x: Entry): int
    reads x`refer, x`open
  {
    match todo
    case Keep(code) => code
    case Act(_) => if x.refer != 0 then -1 else if x.open != [] then -2 else 0
  }

  /** Either.  Only the entry that is freed loses its buffer. */
  method GoneCall(v: Volume, dir: Entry, x: Entry, op: Op<()>, ghost todo: Decision<Entry>) returns (res: int)
    requires v.Valid() && Buffers(v.tree.kids.Keys) && Counted(v.tree.kids.Keys)
    requires (op.Remove? || op.Rmdir?) && PlainName(op.name) && dir in v.tree.kids && PathOf(v.tree, dir) == op.dir
    requires todo == ToGo(v.tree, dir, op) && match todo case Keep(code) => code != 0 case Act(e) => e == x
    requires (forall e :: e in v.tree.kids[dir] ==> e in v.tree.kids) && (x.open == [] ==> x.refer == 0)
    modifies v`tree, dir`nextDir, v.tree.kids[dir]`next, v.tree.kids[dir]`name, v.tree.kids[dir]`data
    ensures v.Valid() && Stepped(old(View(v)), op, dir, View(v))
    ensures (res == 0 <==> todo.Act? && old(x.open) == []) && res == old(GoneRes(todo, x))
    ensures forall y: Entry :: old(allocated(y)) && (res != 0 || y != x) ==> y.data == old(y.data)
  {
    hide Volume.Valid, Buffers, Counted, View, Stepped, PathOf, PlainName, ToGo;
    if op.Remove? {
      res := RemoveStep(v, dir, op);
    } else {
      res := RmdirStep(v, dir, op);
    }
  }

  /** And all that it leaves alone. */
  method GoneApart(v: Volume, dir: Entry, x: Entry, op: Op<()>, ghost todo: Decision<Entry>) returns (res: int)
    requires v.Valid() && Buffers(v.tree.kids.Keys) && Counted(v.tree.kids.Keys)
    requires (op.Remove? || op.Rmdir?) && PlainName(op.name) && dir in v.tree.kids && PathOf(v.tree, dir) == op.dir
    requires todo == ToGo(v.tree, dir, op) && match todo case Keep(code) => code != 0 case Act(e) => e == x
    requires (forall e :: e in v.tree.kids[dir] ==> e in v.tree.kids) && (x.open == [] ==> x.refer == 0)
    modifies v`tree, dir`nextDir, v.tree.kids[dir]`next, v.tree.kids[dir]`name, v.tree.kids[dir]`data
    ensures v.Valid() && Stepped(old(View(v)), op, dir, View(v))
    ensures (res == 0 <==> todo.Act? && old(x.open) == []) && res == old(GoneRes(todo, x))
    ensures forall y: Entry :: old(allocated(y)) && (res != 0 || y != x) ==> y.data == old(y.data)
    ensures forall x: Entry :: old(allocated(x)) ==> x.isDir == old(x.isDir) && x.size == old(x.size)
    ensures forall x: Entry :: old(allocated(x)) ==> x.open == old(x.open) && x.handles == old(x.handles) && x.refer == old(x.refer)
    ensures forall h: Handle :: old(allocated(h)) ==> h.next == old(h.next) && h.current == old(h.current)
    ensures forall n: Vnode :: old(allocated(n)) ==> n.devInfo == old(n.devInfo) && n.size == old(n.size)
    ensures forall k: FileObject :: old(allocated(k)) ==> k.node == old(k.node) && k.offset == old(k.offset)
    ensures forall a: array<byte> :: old(allocated(a)) ==> a[..] == old(a[..])
  {
    hide Volume.Valid, Buffers, Counted, View, Stepped, PathOf, PlainName, ToGo;
    res := GoneCall(v, dir, x, op, todo);
  }

  lemma IdleIff(d: Desk, x: Entry)
    requires ItemsOk(d) && x in d.all
    ensures Idle(InodeNow(ItemOf(d, x))) <==> x.open == []
  {
    assert ItemOk(ItemOf(d, x));
    hide ItemsOk, DataOk, Bytes, Agree, Entry.HandlesOk;
    if x in d.held {
      match d.held[x]
      case FileHandles(t) => NoKeys(x, t.fobjs);
      case DirHandles(t) => NoKeys(x, t.fobjs);
    }
  }

  lemma NoKeys(x: Entry, fobjs: map<nat, FileObject>)
    requires KeysMatch(x.Keys(), fobjs)
    ensures fobjs.Keys == {} <==> x.open == []
  {
    if x.open != [] {
      assert x.Keys()[0] in fobjs.Values;
    }
    assert forall fd :: fd in fobjs.Keys ==> fobjs[fd] in x.Keys();
  }

  lemma ChangeDrops(w: World<Entry>, t: Tree<Entry>, x: Entry)
    requires w.tree.kids.Keys <= w.nodes.Keys && x in w.tree.kids && t.kids.Keys == w.tree.kids.Keys - {x}
    ensures ChangeTo(w, t) == World(t, if Idle(w.nodes[x]) then w.nodes - {x} else w.nodes, w.where)
  {
    hide Idle;
    var now := ChangeTo(w, t).nodes;
    var then_ := if Idle(w.nodes[x]) then w.nodes - {x} else w.nodes;
    assert now.Keys == then_.Keys;
    assert now == then_;
  }

  lemma GoneTook(w: World<Entry>, r: Request, dir: Entry, t: Tree<Entry>, x: Entry)
    requires WorldOk(w) && r.Change? && (r.op.Remove? || r.op.Rmdir?) && Proper(w, r)
    requires w.tree.kids.Keys <= w.nodes.Keys && Shape(w.tree) && t == VolStep(VolOf(w), With(r.op, dir)).tree
    requires x in w.tree.kids && t.kids.Keys == w.tree.kids.Keys - {x}
    ensures Took(w, r, dir, World(t, if Idle(w.nodes[x]) then w.nodes - {x} else w.nodes, w.where), Changed(ChangeCode(w, r.op, r.mem, r.node)))
  {
    hide WorldOk, Proper, VolStep, ChangeTo, Shape, Took;
    ChangeDrops(w, t, x);
    ChangeTook(w, r, dir, t);
  }

  lemma KeptTook(w: World<Entry>, r: Request, dir: Entry, t: Tree<Entry>)
    requires WorldOk(w) && r.Change? && !r.op.Create? && !r.op.Mkdir? && Proper(w, r) && Served(r.op, r.mem, r.node)
    requires w.tree.kids.Keys <= w.nodes.Keys && Shape(w.tree) && t == VolStep(VolOf(w), With(r.op, dir)).tree
    requires t.kids.Keys == w.tree.kids.Keys
    ensures Took(w, r, dir, World(t, w.nodes, w.where), Changed(ChangeCode(w, r.op, r.mem, r.node)))
  {
    hide WorldOk, Proper, VolStep, ChangeTo, Shape, Took;
    ChangeKeeps(w, t);
    ChangeTook(w, r, dir, t);
  }

  lemma RestParts(d: Desk, x: Entry, w: World<Entry>)
    requires d.held.Keys <= d.all && d.v.tree.kids.Keys <= d.all - {x} && d.v.Valid() && x in d.all
    requires ItemsOk(Rest(d, x)) && Buffers(Rest(d, x).all)
    requires w.nodes.Keys == d.all && w.where == d.where
    requires forall y :: y in Rest(d, x).all ==> InodeNow(ItemOf(Rest(d, x), y)) == w.nodes[y]
    ensures Parts(Rest(d, x)) && WorldOf(Rest(d, x)) == World(d.v.tree, w.nodes - {x}, w.where)
  {
    hide ItemsOk, Buffers, Volume.Valid, InodeNow, ItemOf;
    PartsAre(Rest(d, x), w.(nodes := w.nodes - {x}));
  }

  lemma AllInRepr(d: Desk)
    requires ItemsOk(d)
    ensures forall e :: e in d.all ==> e in d.repr
  {
    hide ItemOk;
  }

  /** After a removal that has freed nothing, everything is what it was. */
  twostate lemma AllStay(d: Desk)
    requires old(ItemsOk(d) && Buffers(d.all))
    requires forall x :: x in d.all ==> x.data == old(x.data)
    requires forall x: Entry :: old(allocated(x)) ==> x.isDir == old(x.isDir) && x.size == old(x.size)
    requires forall x: Entry :: old(allocated(x)) ==> x.open == old(x.open) && x.handles == old(x.handles) && x.refer == old(x.refer)
    requires forall h: Handle :: old(allocated(h)) ==> h.next == old(h.next) && h.current == old(h.current)
    requires forall n: Vnode :: old(allocated(n)) ==> n.devInfo == old(n.devInfo) && n.size == old(n.size)
    requires forall k: FileObject :: old(allocated(k)) ==> k.node == old(k.node) && k.offset == old(k.offset)
    requires forall a: array<byte> :: old(allocated(a)) ==> a[..] == old(a[..])
    ensures ItemsOk(d) && Buffers(d.all)
    ensures forall e :: e in d.all ==> InodeNow(ItemOf(d, e)) == old(InodeNow(ItemOf(d, e)))
  {
    hide ItemsOk, InodeNow, ItemOf, Buffers;
    ItemsStay(d);
    InodesStay(d);
    Untouched(d.all);
  }

  /** Every entry but the one that is freed is what it was. */
  method GoneItems(ghost now: Desk, v: Volume, dir: Entry, x: Entry, op: Op<()>, ghost todo: Decision<Entry>) returns (res: int)
    requires v.Valid() && Buffers(v.tree.kids.Keys) && Counted(v.tree.kids.Keys)
    requires (op.Remove? || op.Rmdir?) && PlainName(op.name) && dir in v.tree.kids && PathOf(v.tree, dir) == op.dir
    requires todo == ToGo(v.tree, dir, op) && match todo case Keep(code) => code != 0 case Act(e) => e == x
    requires (forall e :: e in v.tree.kids[dir] ==> e in v.tree.kids) && (x.open == [] ==> x.refer == 0)
    requires ItemsOk(now) && Buffers(now.all) && (todo.Act? && x.open == [] ==> x !in now.all)
    modifies v`tree, dir`nextDir, v.tree.kids[dir]`next, v.tree.kids[dir]`name, v.tree.kids[dir]`data
    ensures v.Valid() && Stepped(old(View(v)), op, dir, View(v))
    ensures (res == 0 <==> todo.Act? && old(x.open) == []) && res == old(GoneRes(todo, x))
    ensures ItemsOk(now) && Buffers(now.all)
    ensures forall e :: e in now.all ==> InodeNow(ItemOf(now, e)) == old(InodeNow(ItemOf(now, e)))
  {
    hide ItemsOk, Buffers, Counted, Volume.Valid, ToGo, View, Stepped, InodeNow, ItemOf, Shape, Named, PathOf, PlainName;
    res := GoneApart(v, dir, x, op, todo);
    AllStay(now);
  }

  lemma OpenCount(d: Desk, x: Entry)
    requires ItemsOk(d) && x in d.all
    ensures x.open == [] ==> x.refer == 0
  {
    assert ItemOk(ItemOf(d, x));
  }

  /** What a removal is going to do. */
  ghost function Plan(d: Desk, r: Request, dir: Entry): Decision<Entry>
    reads d.v`tree
    requires Shape(d.v.tree) && dir in d.v.tree.kids && r.Change? && (r.op.Remove? || r.op.Rmdir?)
  {
    ToGo(d.v.tree, dir, r.op)
  }

  ghost predicate Going(d: Desk, r: Request, dir: Entry, x: Entry)
    reads d.v`top, d.v`tree, d.v.top`next, d.v.tree.kids.Keys, Members(d.v.tree.kids)`next
    reads d.all, d.repr, Arrays(d.all)
  {
    && Ok(d) && r.Change? && (r.op.Remove? || r.op.Rmdir?) && Proper(WorldOf(d), r)
    && Find(d.v.tree, r.op.dir) == Some(dir) && x in d.all
    && (Find(d.v.tree, Join(r.op.dir, r.op.name)).Some? ==> Find(d.v.tree, Join(r.op.dir, r.op.name)) == Some(x))
  }

  lemma GoneTodo(d: Desk, r: Request, dir: Entry, x: Entry)
    requires Going(d, r, dir, x)
    ensures Shape(d.v.tree) && dir in d.v.tree.kids
    ensures var todo, t := Plan(d, r, dir), VolStep(VolOf(WorldOf(d)), With(r.op, dir)).tree;
            match todo
            case Keep(code) => code != 0 && t == d.v.tree
            case Act(e) => e == x && x in d.v.tree.kids && t.kids.Keys == d.v.tree.kids.Keys - {x}
  {
    hide WorldOk, Parts, WorldOf, Shape, Named, Abs, Find, VolStep, Proper, Volume.Valid, ToGo, PathOf, PlainName;
    WorldIs(d);
    MayGo(WorldOf(d), r, dir);
    ToGoIs(VolOf(WorldOf(d)), dir, r.op, dir);
  }

  lemma GoneBegin(d: Desk, r: Request, dir: Entry, x: Entry)
    requires Going(d, r, dir, x) && Shape(d.v.tree) && dir in d.v.tree.kids
    ensures d.v.Valid() && Buffers(d.v.tree.kids.Keys) && Counted(d.v.tree.kids.Keys)
    ensures PathOf(d.v.tree, dir) == r.op.dir && PlainName(r.op.name)
    ensures (forall e :: e in d.v.tree.kids[dir] ==> e in d.v.tree.kids) && (x.open == [] ==> x.refer == 0)
    ensures ItemsOk(d) && Buffers(d.all) && ItemsOk(Rest(d, x)) && Buffers(Rest(d, x).all)
    ensures dir in d.repr && forall e :: e in d.v.tree.kids[dir] ==> e in d.repr
  {
    hide WorldOk, Parts, WorldOf, Shape, Named, Abs, Find, Proper, Volume.Valid, PathOf, PlainName, ItemsOk, Buffers, Counted, VolOf;
    WorldIs(d);
    PartsOf(d);
    ViewIs(d);
    AllInRepr(d);
    OpenCount(d, x);
    RestOk(d, x);
    BuffersLess(Rest(d, x).all, d.all);
    MayGo(WorldOf(d), r, dir);
  }

  lemma {:induction false} OneEach(keys: seq<FileObject>, fobjs: map<nat, FileObject>)
    requires KeysMatch(keys, fobjs)
    ensures |keys| == |fobjs.Keys|
  {
    if keys == [] {
      assert forall fd :: fd in fobjs.Keys ==> fobjs[fd] in keys;
      assert fobjs.Keys == {};
    } else {
      assert keys[0] in keys;
      var fd :| fd in fobjs && fobjs[fd] == keys[0];
      var less := fobjs - {fd};
      assert KeysMatch(keys[1..], less) by { KeysLess(keys, fobjs, fd); }
      OneEach(keys[1..], less);
      assert less.Keys == fobjs.Keys - {fd};
    }
  }

  lemma KeysLess(keys: seq<FileObject>, fobjs: map<nat, FileObject>, fd: nat)
    requires KeysMatch(keys, fobjs) && keys != [] && fd in fobjs && fobjs[fd] == keys[0]
    ensures KeysMatch(keys[1..], fobjs - {fd})
  {
    var less := fobjs - {fd};
    forall k | k in keys[1..] ensures k in less.Values {
      assert k in keys && k != keys[0];
      var gd :| gd in fobjs && fobjs[gd] == k;
      assert gd != fd;
      assert less[gd] == k;
    }
    forall gd | gd in less ensures less[gd] in keys[1..] {
      assert fobjs[gd] in keys && fobjs[gd] != keys[0];
    }
  }

  lemma CountIs(x: Entry, fobjs: map<nat, FileObject>)
    requires x.HandlesOk() && KeysMatch(x.Keys(), fobjs)
    ensures |fobjs.Keys| == |x.open| && x.refer == |fobjs.Keys| % 0x1_0000_0000 && (fobjs.Keys == {} <==> x.open == [])
  {
    hide KeysMatch;
    NoKeys(x, fobjs);
    OneEach(x.Keys(), fobjs);
  }

  /** The descriptors of an item are those of its file objects. */
  lemma ItemFds(i: Item)
    requires ItemOk(i)
    ensures match i.held
            case None => Fds(InodeNow(i)) == {} && i.e.open == []
            case Some(h) =>
              Fds(InodeNow(i)) == Fobjs(h).Keys && i.e.HandlesOk() && KeysMatch(i.e.Keys(), Fobjs(h))
  {
    hide Entry.HandlesOk, KeysMatch, DataOk, Bytes;
  }

  function Fobjs(h: Held): map<nat, FileObject> {
    match h
    case FileHandles(t) => t.fobjs
    case DirHandles(t) => t.fobjs
  }

  /** What releasing an entry returns, from its handles. */
  lemma ReleaseIs(d: Desk, x: Entry)
    requires ItemsOk(d) && x in d.all
    ensures ReleaseCode(InodeNow(ItemOf(d, x))) == if x.refer != 0 then -1 else if x.open != [] then -2 else 0
  {
    hide ItemOk, InodeNow, Entry.HandlesOk, KeysMatch, Fds, Fobjs;
    assert ItemOk(ItemOf(d, x));
    ItemFds(ItemOf(d, x));
    if x in d.held {
      CountIs(x, Fobjs(d.held[x]));
    } else {
      OpenCount(d, x);
    }
  }

  /** The code of a removal, said of the paths. */
  lemma GoneCode(d: Desk, r: Request, dir: Entry, x: Entry)
    requires Going(d, r, dir, x) && Shape(d.v.tree) && dir in d.v.tree.kids
    ensures WorldOk(WorldOf(d)) && !r.op.Update? && GoneRes(Plan(d, r, dir), x) == ChangeCode(WorldOf(d), r.op, r.mem, r.node)
  {
    hide WorldOk, Parts, WorldOf, Shape, Named, Abs, Find, Proper, Volume.Valid, PlainName, ItemsOk, Buffers, Counted, VolOf, InodeNow, ItemOf;
    hide ReleaseCode, Populated;
    WorldIs(d);
    PartsOf(d);
    InodesAre(d);
    MayGo(WorldOf(d), r, dir);
    ReleaseIs(d, x);
    GonePaths(WorldOf(d), r, dir);
  }

  lemma GonePaths(w: World<Entry>, r: Request, dir: Entry)
    requires WorldOk(w) && r.Change? && (r.op.Remove? || r.op.Rmdir?) && Proper(w, r) && PlainName(r.op.name)
    requires VolOk(VolOf(w)) && dir in w.tree.kids && PathOf(w.tree, dir) == r.op.dir
    ensures match ToGo(w.tree, dir, r.op)
            case Keep(code) => code == ChangeCode(w, r.op, r.mem, r.node)
            case Act(e) => Find(w.tree, Join(r.op.dir, r.op.name)) == Some(e) && e in w.nodes
                           && ChangeCode(w, r.op, r.mem, r.node) == ReleaseCode(w.nodes[e])
  {
    hide Shape, Named, Abs, WorldOk, ReleaseCode, Populated;
    WorldFacts(w);
    NothingThere(VolOf(w), dir, r.op.name);
    LeafOnly(VolOf(w), dir, r.op.name);
    AbsAt(VolOf(w), Join(r.op.dir, r.op.name));
  }

  /** After a removal that has freed an entry. */
  lemma GoneFreed(d: Desk, r: Request, dir: Entry, x: Entry, w: World<Entry>)
    requires d.held.Keys <= d.all && d.v.Valid() && x in d.all && ItemsOk(Rest(d, x)) && Buffers(Rest(d, x).all)
    requires WorldOk(w) && w.nodes.Keys == d.all && w.where == d.where && w.tree.kids.Keys <= d.all && Shape(w.tree)
    requires forall y :: y in Rest(d, x).all ==> InodeNow(ItemOf(Rest(d, x), y)) == w.nodes[y]
    requires r.Change? && (r.op.Remove? || r.op.Rmdir?) && Proper(w, r) && x in w.tree.kids && Idle(w.nodes[x])
    requires d.v.tree == VolStep(VolOf(w), With(r.op, dir)).tree && d.v.tree.kids.Keys == w.tree.kids.Keys - {x}
    ensures Parts(Rest(d, x)) && Took(w, r, dir, WorldOf(Rest(d, x)), Changed(ChangeCode(w, r.op, r.mem, r.node)))
  {
    hide WorldOk, Parts, ItemsOk, WorldOf, Buffers, Shape, Took, VolStep, Proper, Volume.Valid, VolOf, InodeNow, ItemOf, Idle;
    RestParts(d, x, w);
    GoneTook(w, r, dir, d.v.tree, x);
  }

  /** After one that has freed nothing. */
  lemma GoneKept(d: Desk, r: Request, dir: Entry, x: Entry, w: World<Entry>)
    requires d.held.Keys <= d.all && d.v.Valid() && x in d.all && ItemsOk(d) && Buffers(d.all)
    requires WorldOk(w) && w.nodes.Keys == d.all && w.where == d.where && w.tree.kids.Keys <= d.all && Shape(w.tree)
    requires forall y :: y in d.all ==> InodeNow(ItemOf(d, y)) == w.nodes[y]
    requires r.Change? && (r.op.Remove? || r.op.Rmdir?) && Proper(w, r)
    requires d.v.tree == VolStep(VolOf(w), With(r.op, dir)).tree
    requires d.v.tree.kids.Keys == w.tree.kids.Keys
             || (x in w.tree.kids && !Idle(w.nodes[x]) && d.v.tree.kids.Keys == w.tree.kids.Keys - {x})
    ensures Parts(d) && Took(w, r, dir, WorldOf(d), Changed(ChangeCode(w, r.op, r.mem, r.node)))
  {
    hide WorldOk, Parts, ItemsOk, WorldOf, Buffers, Shape, Took, VolStep, Proper, Volume.Valid, VolOf, InodeNow, ItemOf, Idle;
    PartsAre(d, w);
    if d.v.tree.kids.Keys == w.tree.kids.Keys {
      KeptTook(w, r, dir, d.v.tree);
    } else {
      GoneTook(w, r, dir, d.v.tree, x);
    }
  }

  lemma GoneWorld(d: Desk, x: Entry)
    requires Ok(d) && x in d.all
    ensures var w := WorldOf(d);
            && WorldOk(w) && w.nodes.Keys == d.all && w.where == d.where && w.tree == d.v.tree && w.tree.kids.Keys <= d.all
            && Shape(w.tree) && d.held.Keys <= d.all && View(d.v) == VolOf(w)
            && (Idle(w.nodes[x]) <==> x.open == [])
            && (forall y :: y in d.all ==> InodeNow(ItemOf(d, y)) == w.nodes[y])
            && (forall y :: y in Rest(d, x).all ==> InodeNow(ItemOf(Rest(d, x), y)) == w.nodes[y])
  {
    hide WorldOk, Parts, WorldOf, Shape, Named, Volume.Valid, ItemsOk, Buffers, Counted, InodeNow, ItemOf, Idle, Rest, View;
    WorldIs(d);
    PartsOf(d);
    ViewIs(d);
    InodesAre(d);
    WorldAt(d, x);
    IdleIff(d, x);
  }

  /** Remove and rmdir.  An entry with handles stays on the desk; one without is gone. */
  method ServeGone(d: Desk, r: Request, dir: Entry, x: Entry) returns (u: Desk, code: int)
    requires Going(d, r, dir, x)
    modifies d.v`tree, d.repr
    ensures Parts(u) && Grew(d, u) && Took(old(WorldOf(d)), r, dir, WorldOf(u), Changed(code))
  {
    hide Ok, WorldOk, Parts, WorldOf, Shape, Named, Abs, Find, VolStep, Proper, Volume.Valid, ToGo, PathOf, PlainName, ItemsOk, Buffers;
    hide GoneRes, ChangeCode, Counted, InodeNow, ItemOf, Took, Contents, VolOf, Idle, AfterRename;
    GoneTodo(d, r, dir, x);
    GoneBegin(d, r, dir, x);
    GoneWorld(d, x);
    GoneCode(d, r, dir, x);
    ghost var w, todo := WorldOf(d), Plan(d, r, dir);
    ghost var now := if todo.Act? && x.open == [] then Rest(d, x) else d;
    code := GoneItems(now, d.v, dir, x, r.op, todo);
    if code == 0 {
      GoneFreed(d, r, dir, x, w);
      u := Rest(d, x);
    } else {
      GoneKept(d, r, dir, x, w);
      u := d;
    }
  }

  lemma MayGo(w: World<Entry>, r: Request, dir: Entry)
    requires WorldOk(w) && r.Change? && (r.op.Remove? || r.op.Rmdir?) && Proper(w, r) && Find(w.tree, r.op.dir) == Some(dir)
    ensures VolOk(VolOf(w)) && dir in w.tree.kids && PathOf(w.tree, dir) == r.op.dir && PlainName(r.op.name)
    ensures forall x :: x in w.tree.kids[dir] ==> x in w.tree.kids
  {
    hide Shape, Named, Abs;
    VolFits(w);
    FlatFs.DirAt(VolOf(w), r.op.dir);
    BelowLevel(w.tree, dir);
  }

  // ---------- renaming

  /** What the flat volume allows, the tree allows: the target directory is not inside what is
      moved. */
  lemma RenameClear(was: Vol<Entry>, op: Op<()>, nd: Entry)
    requires VolOk(was) && op.Rename? && Legal(Abs(was), op)
    requires nd in was.tree.kids && PathOf(was.tree, nd) == op.newDir
    ensures Clear(was.tree, Join(op.dir, op.name), nd)
  {
    hide Shape, Named, Abs;
    var t, p := was.tree, Join(op.dir, op.name);
    Frame(t);
    match Resolve(t, p)
    case Found(e) =>
      ResolveIff(t, p, e);
      UnderIff(t, nd, e);
    case Failed(_) =>
  }

  /** And the target name is free. */
  lemma RenameFits(was: Vol<Entry>, op: Op<()>, nd: Entry)
    requires VolOk(was) && op.Rename? && Legal(Abs(was), op)
    requires nd in was.tree.kids && PathOf(was.tree, nd) == op.newDir
    ensures forall e :: e in was.tree.kids ==> NameFits(was.tree, nd, e, op.newName)
  {
    hide Shape, Named, Abs;
    AbsAt(was, Join(op.newDir, op.newName));
    FreeIff(was.tree, nd, op.newName);
  }

  /** What a legal rename makes of the linked tree. */
  ghost function AfterRename(was: Vol<Entry>, op: Op<()>, node: NodeResult, n: Entry): Vol<Entry>
    requires Shape(was.tree)
  {
    if node.Code() < 0 then was else VolStep(was, With(op, n))
  }

  lemma RenameIs(was: Vol<Entry>, op: Op<()>, node: NodeResult, dir: Entry, nd: Entry)
    requires VolOk(was) && op.Rename? && Legal(Abs(was), op) && dir in was.tree.kids && nd in was.tree.kids && nd in was.tree.dirs
    requires PathOf(was.tree, dir) == op.dir && PathOf(was.tree, nd) == op.newDir
    ensures match ToRename(was.tree, true, dir, Join(op.dir, op.name), node.Code())
            case Keep(_) => AfterRename(was, op, node, dir) == was
            case Act(e) =>
              && e in was.tree.kids && Clear(was.tree, Join(op.dir, op.name), nd) && NameFits(was.tree, nd, e, op.newName)
              && AfterRename(was, op, node, dir) == VolStep(was, Op<Entry>.Rename(op.dir, op.name, op.newDir, op.newName))
  {
    hide Shape, Named, Abs, VolStep, Clear, NameFits;
    RenameClear(was, op, nd);
    RenameFits(was, op, nd);
    RenameIsStep(was, dir, op.name, nd, op.newName);
    BelowLevel(was.tree, dir);
  }

  /** The call to rename. */
  method RenameStep(v: Volume, dir: Entry, nd: Entry, op: Op<()>, node: NodeResult) returns (res: int)
    requires v.Valid() && Buffers(v.tree.kids.Keys) && Counted(v.tree.kids.Keys)
    requires VolOk(View(v)) && op.Rename? && Legal(Abs(View(v)), op) && dir in v.tree.kids && nd in v.tree.kids && nd in v.tree.dirs
    requires PathOf(v.tree, dir) == op.dir && PathOf(v.tree, nd) == op.newDir
    modifies v`tree, dir`nextDir, nd`nextDir, v.tree.kids[dir]`next, v.tree.kids[dir]`name
    ensures v.Valid() && View(v) == old(AfterRename(View(v), op, node, dir)) && RenameReturns(old(View(v)), true, Join(op.dir, op.name), node, res)
  {
    LinkedKeys(v);
    hide Shape, Named, Volume.Linked, Abs, VolStep, Clear, NameFits, ToRename, AfterRename, Contents, Buffers, Counted, RenameReturns;
    RenameIs(View(v), op, node, dir, nd);
    res := VopRename(v, true, dir, op.name, Join(op.dir, op.name), nd, op.newName, node, true);
  }

  /** And all that it leaves alone. */
  method RenameApart(v: Volume, dir: Entry, nd: Entry, op: Op<()>, node: NodeResult) returns (res: int)
    requires v.Valid() && Buffers(v.tree.kids.Keys) && Counted(v.tree.kids.Keys)
    requires VolOk(View(v)) && op.Rename? && Legal(Abs(View(v)), op) && dir in v.tree.kids && nd in v.tree.kids && nd in v.tree.dirs
    requires PathOf(v.tree, dir) == op.dir && PathOf(v.tree, nd) == op.newDir
    modifies v`tree, dir`nextDir, nd`nextDir, v.tree.kids[dir]`next, v.tree.kids[dir]`name
    ensures v.Valid() && View(v) == old(AfterRename(View(v), op, node, dir)) && RenameReturns(old(View(v)), true, Join(op.dir, op.name), node, res)
    ensures forall x: Entry :: old(allocated(x)) ==> x.isDir == old(x.isDir) && x.size == old(x.size) && x.data == old(x.data)
    ensures forall x: Entry :: old(allocated(x)) ==> x.open == old(x.open) && x.handles == old(x.handles) && x.refer == old(x.refer)
    ensures forall h: Handle :: old(allocated(h)) ==> h.next == old(h.next) && h.current == old(h.current)
    ensures forall n: Vnode :: old(allocated(n)) ==> n.devInfo == old(n.devInfo) && n.size == old(n.size)
    ensures forall k: FileObject :: old(allocated(k)) ==> k.node == old(k.node) && k.offset == old(k.offset)
    ensures forall a: array<byte> :: old(allocated(a)) ==> a[..] == old(a[..])
  {
    hide *;
    res := RenameStep(v, dir, nd, op, node);
  }

  /** Every entry keeps its file and its handles. */
  method RenameItems(ghost d: Desk, v: Volume, dir: Entry, nd: Entry, op: Op<()>, node: NodeResult) returns (res: int)
    requires v.Valid() && Buffers(v.tree.kids.Keys) && Counted(v.tree.kids.Keys)
    requires VolOk(View(v)) && op.Rename? && Legal(Abs(View(v)), op) && dir in v.tree.kids && nd in v.tree.kids && nd in v.tree.dirs
    requires PathOf(v.tree, dir) == op.dir && PathOf(v.tree, nd) == op.newDir
    requires ItemsOk(d) && Buffers(d.all)
    modifies v`tree, dir`nextDir, nd`nextDir, v.tree.kids[dir]`next, v.tree.kids[dir]`name
    ensures v.Valid() && View(v) == old(AfterRename(View(v), op, node, dir)) && RenameReturns(old(View(v)), true, Join(op.dir, op.name), node, res) && ItemsOk(d) && Buffers(d.all)
    ensures forall e :: e in d.all ==> InodeNow(ItemOf(d, e)) == old(InodeNow(ItemOf(d, e)))
  {
    hide RenameReturns, Shape, Named, Volume.Valid, Abs, AfterRename, View, Buffers, Counted, VolOk, Legal, PathOf, ItemsOk, InodeNow, ItemOf;
    res := RenameApart(v, dir, nd, op, node);
    AllStay(d);
  }

  ghost predicate Moving(d: Desk, r: Request, dir: Entry, nd: Entry)
    reads d.v`top, d.v`tree, d.v.top`next, d.v.tree.kids.Keys, Members(d.v.tree.kids)`next
    reads d.all, d.repr, Arrays(d.all)
  {
    && Ok(d) && r.Change? && r.op.Rename? && Proper(WorldOf(d), r)
    && Find(d.v.tree, r.op.dir) == Some(dir) && Find(d.v.tree, r.op.newDir) == Some(nd)
  }

  lemma MoveBegin(d: Desk, r: Request, dir: Entry, nd: Entry)
    requires Moving(d, r, dir, nd)
    ensures var v := d.v;
            && v.Valid() && Buffers(v.tree.kids.Keys) && Counted(v.tree.kids.Keys)
            && VolOk(View(v)) && Legal(Abs(View(v)), r.op) && dir in v.tree.kids && nd in v.tree.kids && nd in v.tree.dirs
            && PathOf(v.tree, dir) == r.op.dir && PathOf(v.tree, nd) == r.op.newDir
            && (forall e :: e in v.tree.kids[dir] ==> e in d.repr)
    ensures ItemsOk(d) && Buffers(d.all) && dir in d.all && dir in d.repr && nd in d.repr && View(d.v) == VolOf(WorldOf(d))
  {
    hide Parts, WorldOf, Shape, Named, Abs, Find, Volume.Valid, PathOf, ItemsOk, Buffers, Counted, View, Legal;
    WorldIs(d);
    PartsOf(d);
    ViewIs(d);
    AllInRepr(d);
    MayMove(WorldOf(d), r, dir, nd);
  }

  lemma MayMove(w: World<Entry>, r: Request, dir: Entry, nd: Entry)
    requires WorldOk(w) && r.Change? && r.op.Rename? && Proper(w, r)
    requires Find(w.tree, r.op.dir) == Some(dir) && Find(w.tree, r.op.newDir) == Some(nd)
    ensures VolOk(VolOf(w)) && Legal(Abs(VolOf(w)), r.op)
    ensures dir in w.tree.kids && PathOf(w.tree, dir) == r.op.dir
    ensures nd in w.tree.kids && nd in w.tree.dirs && PathOf(w.tree, nd) == r.op.newDir
    ensures forall x :: x in w.tree.kids[dir] ==> x in w.tree.kids
  {
    hide Shape, Named, Abs;
    VolFits(w);
    FlatFs.DirAt(VolOf(w), r.op.dir);
    FlatFs.DirAt(VolOf(w), r.op.newDir);
    BelowLevel(w.tree, dir);
  }

  lemma MoveEnd(d: Desk, r: Request, dir: Entry, w: World<Entry>)
    requires d.held.Keys <= d.all && d.v.Valid() && ItemsOk(d) && Buffers(d.all)
    requires WorldOk(w) && w.nodes.Keys == d.all && w.where == d.where && w.tree.kids.Keys <= d.all && Shape(w.tree)
    requires forall y :: y in d.all ==> InodeNow(ItemOf(d, y)) == w.nodes[y]
    requires r.Change? && r.op.Rename? && Proper(w, r)
    requires d.v.tree == AfterRename(VolOf(w), r.op, r.node, dir).tree
    ensures Parts(d) && Took(w, r, dir, WorldOf(d), Changed(ChangeCode(w, r.op, r.mem, r.node)))
  {
    hide WorldOk, Parts, ItemsOk, WorldOf, Buffers, Shape, Took, Proper, Volume.Valid, VolOf, InodeNow, ItemOf, AfterRename;
    MoveTook(w, r, dir);
    PartsAre(d, w);
  }

  lemma MoveTook(w: World<Entry>, r: Request, n: Entry)
    requires WorldOk(w) && r.Change? && r.op.Rename? && Proper(w, r) && w.tree.kids.Keys <= w.nodes.Keys && Shape(w.tree)
    ensures var t := AfterRename(VolOf(w), r.op, r.node, n).tree;
            t.kids.Keys == w.tree.kids.Keys && Took(w, r, n, World(t, w.nodes, w.where), Changed(ChangeCode(w, r.op, r.mem, r.node)))
  {
    MovedKeys(w, r, n);
    hide WorldOk, Shape, Took, VolStep, Proper;
    if r.node.Code() < 0 {
      IdleTook(w, r, n);
    } else {
      KeptTook(w, r, n, VolStep(VolOf(w), With(r.op, n)).tree);
    }
  }

  lemma MoveCode(w: World<Entry>, r: Request, code: int)
    requires WorldOk(w) && r.Change? && r.op.Rename? && w.tree.kids.Keys <= w.nodes.Keys
    requires RenameReturns(VolOf(w), true, Join(r.op.dir, r.op.name), r.node, code)
    ensures code == ChangeCode(w, r.op, r.mem, r.node)
  {
    hide Shape, Named, Abs, WorldOk, Find;
  }

  /** A rename leaves the entries of the tree the same. */
  lemma MovedKeys(w: World<Entry>, r: Request, n: Entry)
    requires WorldOk(w) && r.Change? && r.op.Rename? && Proper(w, r)
    ensures Shape(w.tree) && VolStep(VolOf(w), With(r.op, n)).tree.kids.Keys == w.tree.kids.Keys
  {
    hide Shape, Named, Abs, Find, MovedTrail, Move;
    VolFits(w);
    var v := VolOf(w);
    FlatFs.DirAt(v, r.op.dir);
    FlatFs.DirAt(v, r.op.newDir);
    if Find(v.tree, Join(r.op.dir, r.op.name)).Some? {
      EntryAt(v, r.op.dir, r.op.name);
      MoveKeys(v.tree, At(v.tree, r.op.dir), At(v.tree, Join(r.op.dir, r.op.name)), At(v.tree, r.op.newDir), r.op.newName);
    }
  }

  /** Rename. */
  method ServeRename(d: Desk, r: Request, dir: Entry, nd: Entry) returns (code: int)
    requires Moving(d, r, dir, nd)
    modifies d.v`tree, d.repr
    ensures Parts(d) && Took(old(WorldOf(d)), r, dir, WorldOf(d), Changed(code))
  {
    hide Ok, WorldOk, Parts, WorldOf, Shape, Named, Abs, Find, VolStep, Proper, Volume.Valid, ToGo, PathOf, PlainName, ItemsOk, Buffers;
    hide RenameReturns, ChangeCode, Counted, InodeNow, ItemOf, Took, Contents, VolOf, Idle, AfterRename;
    MoveBegin(d, r, dir, nd);
    GoneWorld(d, dir);
    ghost var w := WorldOf(d);
    code := RenameItems(d, d.v, dir, nd, r.op, r.node);
    MoveCode(w, r, code);
    MoveEnd(d, r, dir, w);
  }
}
