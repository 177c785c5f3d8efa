/** The file system at work on the heap: a volume, the vnodes and file objects of everything that is
    open, and the descriptors that requests name.  An entry removed while open stays. */
module Desks {
  import opened Words
  import opened Lists
  import opened PathTree
  import opened FlatFs
  import opened Entries
  import opened FileSpec
  import opened FileIo
  import opened FileRuns
  import opened Volumes
  import opened VolumeOps
  import opened DirTables
  import opened World

  /** What is open of an entry. */
  datatype Held = FileHandles(file: Table) | DirHandles(dir: DirTable)

  /** `all` are the entries that have not been freed, `repr` the objects that belong to them. */
  datatype Desk = Desk(
    v: Volume, held: map<Entry, Held>, where: map<nat, Entry>, ghost all: set<Entry>, ghost repr: set<object>)

  /** An entry with what is open of it. */
  datatype Item = Item(e: Entry, held: Option<Held>)

  function ItemOf(d: Desk, e: Entry): Item {
    Item(e, if e in d.held then Some(d.held[e]) else None)
  }

  ghost function Objects(i: Item): set<object> {
    match i.held
    case None => {}
    case Some(FileHandles(t)) => {t.node} + t.fobjs.Values
    case Some(DirHandles(t)) => {t.node} + t.fobjs.Values
  }

  ghost predicate Inside(repr: set<object>, i: Item)
    reads i.e
  {
    && i.e in repr && Objects(i) <= repr
    && (forall h :: h in i.e.open ==> h in repr)
    && (i.e.data != null ==> i.e.data in repr)
  }

  /** Handle records, buffer, vnode and file objects of an entry are in order. */
  ghost predicate ItemOk(i: Item)
    reads i.e, i.e.open, Objects(i)
  {
    && i.e.HandlesOk() && DataOk(i.e)
    && match i.held
       case None => i.e.open == []
       case Some(FileHandles(t)) => !i.e.isDir && FileReady(i.e, t)
       case Some(DirHandles(t)) => i.e.isDir && DirReady(i.e, t)
  }

  ghost predicate ItemsOk(d: Desk)
    reads d.all, d.repr
  {
    forall e :: e in d.all ==> Inside(d.repr, ItemOf(d, e)) && ItemOk(ItemOf(d, e))
  }

  /** What an entry is, as a value. */
  ghost function InodeNow(i: Item): Inode<Entry>
    reads i.e`isDir, i.e`size, i.e`data, i.e.data
  {
    match i.held
    case None => Inode(i.e.isDir, File(Bytes(i.e), map[]), map[])
    case Some(FileHandles(t)) => Inode(i.e.isDir, File(Bytes(i.e), t.offs), map[])
    case Some(DirHandles(t)) => Inode(i.e.isDir, File(Bytes(i.e), map[]), t.cursors)
  }

  /** The whole as a value. */
  ghost function WorldOf(d: Desk): World<Entry>
    reads d.v`tree, d.all, Arrays(d.all)
  {
    World(d.v.tree, map e | e in d.all :: InodeNow(ItemOf(d, e)), d.where)
  }

  /** Links, names, buffers, handle records and open objects are in order. */
  ghost predicate Parts(d: Desk)
    reads d.v`top, d.v`tree, d.v.top`next, d.v.tree.kids.Keys, Members(d.v.tree.kids)`next, d.all, d.repr
  {
    && d.held.Keys <= d.all && d.v.tree.kids.Keys <= d.all
    && ItemsOk(d) && Buffers(d.all) && d.v.Valid()
  }

  /** And so is the whole as a value. */
  ghost predicate Ok(d: Desk)
    reads d.v`top, d.v`tree, d.v.top`next, d.v.tree.kids.Keys, Members(d.v.tree.kids)`next
    reads d.all, d.repr, Arrays(d.all)
  {
    Parts(d) && WorldOk(WorldOf(d))
  }

  /** A desk consists of what it consisted of and of new objects. */
  twostate predicate Grew(d: Desk, new u: Desk) {
    u.v == d.v && forall o :: o in u.repr ==> o in d.repr || fresh(o)
  }

  /** What the step of a request is, with the node that stands for what it made. */
  ghost predicate Took(w: World<Entry>, r: Request, n: Entry, u: World<Entry>, a: Answer) {
    WorldOk(w) && NewNode(w, r, n) && Step(w, r, n) == (u, a)
  }

  // ---------- what stays

  /** An item whose fields and objects are as before is what it was. */
  twostate lemma ItemStays(i: Item)
    requires old(ItemOk(i))
    requires var e := i.e; e.size == old(e.size) && e.data == old(e.data) && e.isDir == old(e.isDir)
    requires var e := i.e; e.open == old(e.open) && e.handles == old(e.handles) && e.refer == old(e.refer)
    requires forall h :: h in i.e.open ==> h.next == old(h.next) && h.current == old(h.current)
    requires forall n: Vnode :: n in Objects(i) ==> n.devInfo == old(n.devInfo) && n.size == old(n.size)
    requires forall k: FileObject :: k in Objects(i) ==> k.node == old(k.node) && k.offset == old(k.offset)
    ensures ItemOk(i)
  {
    match i.held
    case None =>
    case Some(FileHandles(t)) =>
    case Some(DirHandles(t)) =>
  }

  /** All items are what they were if nothing that belongs to them has changed. */
  twostate lemma ItemsStay(d: Desk)
    requires old(ItemsOk(d))
    requires forall e :: e in d.all ==> e.size == old(e.size) && e.data == old(e.data) && e.isDir == old(e.isDir)
    requires forall e :: e in d.all ==> e.open == old(e.open) && e.handles == old(e.handles) && e.refer == old(e.refer)
    requires forall h: Handle :: old(allocated(h)) && h.owner in d.all ==> h.next == old(h.next) && h.current == old(h.current)
    requires forall n: Vnode :: old(allocated(n)) ==> n.devInfo == old(n.devInfo)
    requires forall n: Vnode :: old(allocated(n)) && n.devInfo in d.all ==> n.size == old(n.size)
    requires forall k: FileObject :: old(allocated(k)) ==> k.node == old(k.node)
    requires forall k: FileObject :: old(allocated(k)) && k.node != null && k.node.devInfo in d.all ==> k.offset == old(k.offset)
    ensures ItemsOk(d)
  {
    hide Entry.HandlesOk, ItemOk;
    forall e | e in d.all ensures Inside(d.repr, ItemOf(d, e)) && ItemOk(ItemOf(d, e)) {
      assert old(ItemOk(ItemOf(d, e)));
      OwnObjects(ItemOf(d, e));
      ItemStays(ItemOf(d, e));
    }
  }

  /** The objects of an item refer to its entry. */
  twostate lemma OwnObjects(i: Item)
    requires old(ItemOk(i))
    ensures forall h :: h in old(i.e.open) ==> h.owner == i.e
    ensures forall n: Vnode :: n in Objects(i) ==> old(n.devInfo) == i.e
    ensures forall k: FileObject :: k in Objects(i) ==> old(k.node != null && k.node.devInfo == i.e)
  {
  }

  twostate lemma InodesStay(d: Desk)
    requires forall e :: e in d.all ==> e.size == old(e.size) && e.data == old(e.data) && e.isDir == old(e.isDir)
    requires forall e :: e in d.all && e.data != null ==> e.data[..] == old(e.data[..])
    ensures forall e :: e in d.all ==> InodeNow(ItemOf(d, e)) == old(InodeNow(ItemOf(d, e)))
  {
  }

  /** A desk without one entry. */
  function Rest(d: Desk, e: Entry): Desk {
    d.(all := d.all - {e}, held := d.held - {e})
  }

  lemma RestOk(d: Desk, e: Entry)
    requires ItemsOk(d)
    ensures ItemsOk(Rest(d, e))
    ensures e in d.all ==> Inside(d.repr, ItemOf(d, e)) && ItemOk(ItemOf(d, e))
  {
    hide ItemOk;
    forall x | x in Rest(d, e).all ensures ItemOf(Rest(d, e), x) == ItemOf(d, x) {
    }
  }

  lemma PutBack(d: Desk, u: Desk, e: Entry)
    requires ItemsOk(Rest(d, e)) && Inside(u.repr, ItemOf(u, e)) && ItemOk(ItemOf(u, e))
    requires u.all == d.all + {e} && u.held - {e} == d.held - {e} && d.repr <= u.repr
    ensures ItemsOk(u)
  {
    hide ItemOk;
    forall x | x in u.all && x != e ensures Inside(u.repr, ItemOf(u, x)) && ItemOk(ItemOf(u, x)) {
      assert x in Rest(d, e).all;
      assert x in u.held <==> x in (u.held - {e});
      assert x in d.held <==> x in (d.held - {e});
      assert ItemOf(u, x) == ItemOf(Rest(d, e), x);
    }
  }

  /** Links and names are in order as long as nothing relinks or renames. */
  twostate lemma VolumeStays(v: Volume)
    requires old(v.Valid()) && v.tree == old(v.tree) && v.top == old(v.top)
    requires forall x: Entry :: old(allocated(x)) ==> x.next == old(x.next) && x.nextDir == old(x.nextDir)
    requires forall x: Entry :: old(allocated(x)) ==> x.name == old(x.name) && x.isDir == old(x.isDir)
    ensures v.Valid()
  {
    hide Shape, Named;
  }

  // ---------- calls on files

  lemma ItemFile(e: Entry, t: Table)
    requires ItemOk(Item(e, Some(FileHandles(t))))
    ensures FileReady(e, t) && t.node.devInfo == e
    ensures forall h :: h in e.open ==> h.owner == e
    ensures forall k :: k in t.fobjs.Values ==> k.node == t.node
  {
    hide KeysMatch, DataOk;
  }

  /** The desk with the handles of one entry put down again. */
  function PutDown(d: Desk, e: Entry, h: Held, ghost now: set<object>): Desk {
    d.(held := d.held[e := h], repr := d.repr + now)
  }

  /** Everything that now belongs to an entry. */
  ghost function Belongings(i: Item): set<object>
    reads i.e
  {
    Objects(i) + (set h | h in i.e.open) + (if i.e.data == null then {} else {i.e.data})
  }

  /** A call on an open file, with all that it leaves alone. */
  method PerformApart(e: Entry, t: Table, c: Call<nat>) returns (u: Table, reply: Reply)
    requires FileReady(e, t) && CallOk(FileNow(e, t), c)
    requires forall h :: h in e.open ==> h.owner == e
    requires forall k :: k in t.fobjs.Values ==> k.node == t.node
    modifies e`handles, e`refer, e`open, (set h | h in e.open)`next, t.node`size, t.fobjs.Values`offset, e`data, e`size, BufferOf(e)
    ensures FileReady(e, u) && Ran(old(FileNow(e, t)), c, FileNow(e, u), reply)
    ensures forall o :: o in Belongings(Item(e, Some(FileHandles(u)))) ==> o in old(Belongings(Item(e, Some(FileHandles(t))))) || fresh(o)
    ensures e.data == old(e.data) || e.data == null || fresh(e.data)
    ensures forall x: Entry :: old(allocated(x)) ==> x.next == old(x.next) && x.nextDir == old(x.nextDir) && x.name == old(x.name)
    ensures forall v: Volume :: old(allocated(v)) ==> v.tree == old(v.tree) && v.top == old(v.top)
    ensures forall x: Entry :: old(allocated(x)) ==> x.isDir == old(x.isDir)
    ensures forall x: Entry :: old(allocated(x)) && x != e ==> x.size == old(x.size) && x.data == old(x.data)
    ensures forall x: Entry :: old(allocated(x)) && x != e ==> x.open == old(x.open) && x.handles == old(x.handles) && x.refer == old(x.refer)
    ensures forall h: Handle :: old(allocated(h)) && h.owner != e ==> h.next == old(h.next) && h.current == old(h.current)
    ensures forall n: Vnode :: old(allocated(n)) ==> n.devInfo == old(n.devInfo) && (n != t.node ==> n.size == old(n.size))
    ensures forall k: FileObject :: old(allocated(k)) ==> k.node == old(k.node) && (k.node != t.node ==> k.offset == old(k.offset))
    ensures forall a: array<byte> :: old(allocated(a)) && a !in old(BufferOf(e)) ==> a[..] == old(a[..])
  {
    hide FileReady, Ran, FileNow;
    u, reply := Perform(e, t, c);
  }

  /** The files of other entries are what they were. */
  method PerformSeen(d: Desk, e: Entry, t: Table, c: Call<nat>) returns (u: Table, reply: Reply)
    requires FileReady(e, t) && CallOk(FileNow(e, t), c)
    requires forall x :: x in Rest(d, e).all && x.data != null ==> x.data != e.data
    requires forall h :: h in e.open ==> h.owner == e
    requires forall k :: k in t.fobjs.Values ==> k.node == t.node
    modifies e`handles, e`refer, e`open, (set h | h in e.open)`next, t.node`size, t.fobjs.Values`offset, e`data, e`size, BufferOf(e)
    ensures FileReady(e, u) && Ran(old(FileNow(e, t)), c, FileNow(e, u), reply)
    ensures forall o :: o in Belongings(Item(e, Some(FileHandles(u)))) ==> o in old(Belongings(Item(e, Some(FileHandles(t))))) || fresh(o)
    ensures e.data == old(e.data) || e.data == null || fresh(e.data)
    ensures forall x: Entry :: old(allocated(x)) ==> x.next == old(x.next) && x.nextDir == old(x.nextDir) && x.name == old(x.name)
    ensures forall v: Volume :: old(allocated(v)) ==> v.tree == old(v.tree) && v.top == old(v.top)
    ensures forall x: Entry :: old(allocated(x)) ==> x.isDir == old(x.isDir)
    ensures forall x: Entry :: old(allocated(x)) && x != e ==> x.size == old(x.size) && x.data == old(x.data)
    ensures forall x: Entry :: old(allocated(x)) && x != e ==> x.open == old(x.open) && x.handles == old(x.handles) && x.refer == old(x.refer)
    ensures forall h: Handle :: old(allocated(h)) && h.owner != e ==> h.next == old(h.next) && h.current == old(h.current)
    ensures forall n: Vnode :: old(allocated(n)) ==> n.devInfo == old(n.devInfo) && (n != t.node ==> n.size == old(n.size))
    ensures forall k: FileObject :: old(allocated(k)) ==> k.node == old(k.node) && (k.node != t.node ==> k.offset == old(k.offset))
    ensures forall x :: x in Rest(d, e).all ==> InodeNow(ItemOf(Rest(d, e), x)) == old(InodeNow(ItemOf(Rest(d, e), x)))
  {
    hide FileReady, Ran, FileNow, InodeNow, ItemOf, Belongings;
    u, reply := PerformApart(e, t, c);
    InodesStay(Rest(d, e));
  }

  /** Links, names and buffers are still in order. */
  method PerformOn(d: Desk, e: Entry, t: Table, c: Call<nat>) returns (u: Table, reply: Reply)
    requires FileReady(e, t) && CallOk(FileNow(e, t), c) && d.v.Valid() && Buffers(d.all) && e in d.all
    requires forall h :: h in e.open ==> h.owner == e
    requires forall k :: k in t.fobjs.Values ==> k.node == t.node
    modifies e`handles, e`refer, e`open, (set h | h in e.open)`next, t.node`size, t.fobjs.Values`offset, e`data, e`size, BufferOf(e)
    ensures FileReady(e, u) && Ran(old(FileNow(e, t)), c, FileNow(e, u), reply)
    ensures forall o :: o in Belongings(Item(e, Some(FileHandles(u)))) ==> o in old(Belongings(Item(e, Some(FileHandles(t))))) || fresh(o)
    ensures d.v.tree == old(d.v.tree) && d.v.Valid() && Buffers(d.all)
    ensures forall x :: x in Rest(d, e).all ==> InodeNow(ItemOf(Rest(d, e), x)) == old(InodeNow(ItemOf(Rest(d, e), x)))
    ensures forall x: Entry :: old(allocated(x)) ==> x.isDir == old(x.isDir)
    ensures forall x: Entry :: old(allocated(x)) && x != e ==> x.size == old(x.size) && x.data == old(x.data)
    ensures forall x: Entry :: old(allocated(x)) && x != e ==> x.open == old(x.open) && x.handles == old(x.handles) && x.refer == old(x.refer)
    ensures forall h: Handle :: old(allocated(h)) && h.owner != e ==> h.next == old(h.next) && h.current == old(h.current)
    ensures forall n: Vnode :: old(allocated(n)) ==> n.devInfo == old(n.devInfo) && (n != t.node ==> n.size == old(n.size))
    ensures forall k: FileObject :: old(allocated(k)) ==> k.node == old(k.node) && (k.node != t.node ==> k.offset == old(k.offset))
  {
    OthersApart(d.all, e);
    hide FileReady, Ran, FileNow, Volume.Valid, Buffers, DataOk, Belongings, InodeNow, ItemOf;
    u, reply := PerformSeen(d, e, t, c);
    VolumeStays(d.v);
    ReadyFile(e, u);
    BufferMoved(d.all, e);
  }

  /** And so are the handles on them. */
  method PerformAt(d: Desk, e: Entry, t: Table, c: Call<nat>) returns (u: Table, reply: Reply)
    requires ItemsOk(d) && Buffers(d.all) && e in d.all && e in d.held && d.held[e] == FileHandles(t)
    requires CallOk(FileNow(e, t), c) && d.v.Valid()
    modifies e`handles, e`refer, e`open, (set h | h in e.open)`next, t.node`size, t.fobjs.Values`offset, e`data, e`size, BufferOf(e)
    ensures FileReady(e, u) && Ran(old(FileNow(e, t)), c, FileNow(e, u), reply)
    ensures forall o :: o in Belongings(Item(e, Some(FileHandles(u)))) ==> o in old(Belongings(Item(e, Some(FileHandles(t))))) || fresh(o)
    ensures e.isDir == old(e.isDir) && d.v.tree == old(d.v.tree) && d.v.Valid() && Buffers(d.all)
    ensures ItemsOk(Rest(d, e))
    ensures forall x :: x in Rest(d, e).all ==> InodeNow(ItemOf(Rest(d, e), x)) == old(InodeNow(ItemOf(Rest(d, e), x)))
  {
    RestOk(d, e);
    ItemFile(e, t);
    hide Volume.Valid, FileReady, Ran, ItemOk, ItemsOk, Buffers, Belongings, InodeNow, FileNow, ItemOf, DataOk;
    u, reply := PerformOn(d, e, t, c);
    ItemsStay(Rest(d, e));
  }

  lemma Owned(i: Item)
    ensures Objects(i) <= Belongings(i) && forall h :: h in i.e.open ==> h in Belongings(i)
    ensures i.e.data != null ==> i.e.data in Belongings(i)
  {
  }

  lemma Belongs(repr: set<object>, i: Item)
    requires i.e in repr && Belongings(i) <= repr
    ensures Inside(repr, i)
  {
  }

  /** Only what is held of one entry is different. */
  ghost predicate Replaced(d: Desk, u: Desk, e: Entry, h: Held) {
    && u.v == d.v && u.all == d.all && u.where == d.where && u.held.Keys == d.held.Keys + {e}
    && ItemOf(u, e) == Item(e, Some(h)) && Rest(u, e).held == Rest(d, e).held
  }

  /** Putting changed handles down again gives a desk in order. */
  lemma PutDownOk(d: Desk, u: Desk, e: Entry, h: Held)
    requires ItemsOk(Rest(d, e)) && ItemOk(Item(e, Some(h))) && e in d.all && e in d.repr
    requires d.held.Keys <= d.all && d.v.tree.kids.Keys <= d.all && Buffers(d.all) && d.v.Valid()
    requires u == PutDown(d, e, h, Belongings(Item(e, Some(h))))
    ensures Parts(u) && Replaced(d, u, e, h) && u.v == d.v
    ensures forall o :: o in u.repr ==> o in d.repr || o in Belongings(Item(e, Some(h)))
  {
    hide ItemOk, ItemsOk, Buffers, Volume.Valid;
    Belongs(u.repr, ItemOf(u, e));
    PutBack(d, u, e);
  }

  lemma PutDownWorld(d: Desk, u: Desk, e: Entry, w: World<Entry>)
    requires e in d.all && u.all == d.all && u.v.tree == w.tree && u.where == w.where && w.nodes.Keys == d.all
    requires Rest(u, e).held == Rest(d, e).held
    requires forall x :: x in Rest(d, e).all ==> InodeNow(ItemOf(Rest(d, e), x)) == w.nodes[x]
    ensures WorldOf(u) == w.(nodes := w.nodes[e := InodeNow(ItemOf(u, e))])
  {
    hide InodeNow;
    forall x | x in d.all && x != e ensures ItemOf(u, x) == ItemOf(Rest(d, e), x) {
      assert x in u.held <==> x in Rest(u, e).held;
      assert x in d.held <==> x in Rest(d, e).held;
    }
  }

  /** The parts of an item and where they are. */
  lemma ItemParts(d: Desk, e: Entry, h: Held)
    requires ItemsOk(d) && e in d.all && e in d.held && d.held[e] == h
    ensures ItemOk(Item(e, Some(h))) && ItemOf(d, e) == Item(e, Some(h))
    ensures e in d.repr && Belongings(Item(e, Some(h))) <= d.repr
  {
    hide ItemOk;
  }

  lemma WorldAt(d: Desk, e: Entry)
    requires e in d.all
    ensures var w := WorldOf(d);
            && w.tree == d.v.tree && w.where == d.where && w.nodes.Keys == d.all && w.nodes[e] == InodeNow(ItemOf(d, e))
            && forall x :: x in Rest(d, e).all ==> InodeNow(ItemOf(Rest(d, e), x)) == w.nodes[x]
  {
    hide InodeNow;
    forall x | x in d.all && x != e ensures ItemOf(d, x) == ItemOf(Rest(d, e), x) {
      assert x in d.held <==> x in Rest(d, e).held;
    }
  }

  lemma FileItem(e: Entry, t: Table)
    requires FileReady(e, t) && !e.isDir
    ensures ItemOk(Item(e, Some(FileHandles(t))))
  {
    hide KeysMatch, DataOk, HandlesMatch;
  }

  /** The file of an entry takes a call; nothing else changes. */
  ghost predicate FileTook(w: World<Entry>, e: Entry, c: Call<nat>, u: World<Entry>, reply: Reply) {
    && e in w.nodes && e in u.nodes
    && Ran(w.nodes[e].file, c, u.nodes[e].file, reply) && u == PutFile(w, e, u.nodes[e].file)
  }

  lemma FileTakes(d: Desk, u: Desk, e: Entry, t: Table, w: World<Entry>, f: File<nat>, c: Call<nat>, reply: Reply)
    requires e in d.all && Replaced(d, u, e, FileHandles(t))
    requires d.v.tree == w.tree && d.where == w.where && w.nodes.Keys == d.all
    requires forall x :: x in Rest(d, e).all ==> InodeNow(ItemOf(Rest(d, e), x)) == w.nodes[x]
    requires w.nodes[e] == Inode(e.isDir, f, map[]) && Ran(f, c, FileNow(e, t), reply)
    ensures FileTook(w, e, c, WorldOf(u), reply)
  {
    hide Ran;
    PutDownWorld(d, u, e, w);
  }

  lemma PartsOf(d: Desk)
    requires Parts(d)
    ensures d.held.Keys <= d.all && d.v.tree.kids.Keys <= d.all && ItemsOk(d) && Buffers(d.all) && d.v.Valid()
  {
    hide ItemsOk, Buffers, Volume.Valid;
  }

  /** What is known of an entry whose handles are taken up. */
  lemma TakeUp(d: Desk, e: Entry, h: Held)
    requires Parts(d) && e in d.held && d.held[e] == h
    ensures e in d.all && e in d.repr && ItemOk(Item(e, Some(h))) && Belongings(Item(e, Some(h))) <= d.repr
    ensures forall o :: o in Objects(Item(e, Some(h))) ==> o in d.repr
    ensures (forall x :: x in e.open ==> x in d.repr) && (e.data != null ==> e.data in d.repr)
    ensures var w := WorldOf(d);
            && w.tree == d.v.tree && w.where == d.where && w.nodes.Keys == d.all
            && w.nodes[e] == InodeNow(Item(e, Some(h)))
            && forall x :: x in Rest(d, e).all ==> InodeNow(ItemOf(Rest(d, e), x)) == w.nodes[x]
  {
    PartsOf(d);
    ItemParts(d, e, h);
    WorldAt(d, e);
    Owned(Item(e, Some(h)));
    hide ItemOk, ItemsOk, Buffers, Volume.Valid, Rest, WorldOf, InodeNow;
  }

  /** A call through a handle changes the file of its entry and nothing else. */
  method IoAt(d: Desk, e: Entry, t: Table, c: Call<nat>) returns (u: Desk, reply: Reply)
    requires Parts(d) && e in d.held && d.held[e] == FileHandles(t) && CallOk(FileNow(e, t), c)
    modifies d.repr
    ensures Parts(u) && Grew(d, u)
    ensures FileTook(old(WorldOf(d)), e, c, WorldOf(u), reply)
  {
    PartsOf(d);
    TakeUp(d, e, FileHandles(t));
    FileInode(e, t);
    hide ItemOk, Parts, ItemsOk, Buffers, Volume.Valid, Ran, Rest, FileReady, FileNow, Belongings, WorldOf, InodeNow, PutDown, FileTook, CallOk, Replaced;
    ghost var w, f := WorldOf(d), FileNow(e, t);
    var t2;
    t2, reply := PerformAt(d, e, t, c);
    FileItem(e, t2);
    u := PutDown(d, e, FileHandles(t2), Belongings(Item(e, Some(FileHandles(t2)))));
    PutDownOk(d, u, e, FileHandles(t2));
    FileTakes(d, u, e, t2, w, f, c, reply);
  }

  lemma FileInode(e: Entry, t: Table)
    requires ItemOk(Item(e, Some(FileHandles(t))))
    ensures InodeNow(Item(e, Some(FileHandles(t)))) == Inode(e.isDir, FileNow(e, t), map[]) && !e.isDir && FileReady(e, t)
  {
    hide FileReady, Bytes;
  }

  // ---------- calls on directories

  /** A call on an open directory, with all that it leaves alone. */
  method DirApart(e: Entry, t: DirTable, c: DirCall, ghost kids: seq<Entry>) returns (u: DirTable, a: Answer)
    requires DirReady(e, t) && DirCallOk(e, t, c, kids)
    requires c.ReadCall? && t.cursors[c.fd].Some? ==> t.cursors[c.fd].value.size >= 0
    requires forall h :: h in e.open ==> h.owner == e
    modifies e`handles, e`refer, e`open, (set h | h in e.open)`next, (set h | h in e.open)`current
    ensures DirReady(e, u) && u.cursors == DirMoves(kids, t.cursors, c) && a == old(DirAnswer(t.cursors, c))
    ensures forall o :: o in Belongings(Item(e, Some(DirHandles(u)))) ==> o in old(Belongings(Item(e, Some(DirHandles(t))))) || fresh(o)
    ensures forall x: Entry :: old(allocated(x)) ==> x.next == old(x.next) && x.nextDir == old(x.nextDir) && x.name == old(x.name)
    ensures forall v: Volume :: old(allocated(v)) ==> v.tree == old(v.tree) && v.top == old(v.top)
    ensures forall a: array<byte> :: old(allocated(a)) ==> a[..] == old(a[..])
    ensures forall x: Entry :: old(allocated(x)) ==> x.isDir == old(x.isDir) && x.size == old(x.size) && x.data == old(x.data)
    ensures forall x: Entry :: old(allocated(x)) && x != e ==> x.open == old(x.open) && x.handles == old(x.handles) && x.refer == old(x.refer)
    ensures forall h: Handle :: old(allocated(h)) && h.owner != e ==> h.next == old(h.next) && h.current == old(h.current)
    ensures forall n: Vnode :: old(allocated(n)) ==> n.devInfo == old(n.devInfo) && n.size == old(n.size)
    ensures forall k: FileObject :: old(allocated(k)) ==> k.node == old(k.node) && k.offset == old(k.offset)
  {
    hide DirReady, DirMoves, DirAnswer, DirCallOk;
    u, a := DirPerform(e, t, c, kids);
  }

  /** Links, names and buffers are still in order, and all files are what they were. */
  method DirOn(d: Desk, e: Entry, t: DirTable, c: DirCall, ghost kids: seq<Entry>) returns (u: DirTable, a: Answer)
    requires DirReady(e, t) && DirCallOk(e, t, c, kids)
    requires c.ReadCall? && t.cursors[c.fd].Some? ==> t.cursors[c.fd].value.size >= 0
    requires forall h :: h in e.open ==> h.owner == e
    requires d.v.Valid() && Buffers(d.all)
    modifies e`handles, e`refer, e`open, (set h | h in e.open)`next, (set h | h in e.open)`current
    ensures DirReady(e, u) && u.cursors == DirMoves(kids, t.cursors, c) && a == old(DirAnswer(t.cursors, c))
    ensures forall o :: o in Belongings(Item(e, Some(DirHandles(u)))) ==> o in old(Belongings(Item(e, Some(DirHandles(t))))) || fresh(o)
    ensures d.v.tree == old(d.v.tree) && d.v.Valid() && Buffers(d.all)
    ensures Bytes(e) == old(Bytes(e)) && DataOk(e) == old(DataOk(e))
    ensures forall x :: x in Rest(d, e).all ==> InodeNow(ItemOf(Rest(d, e), x)) == old(InodeNow(ItemOf(Rest(d, e), x)))
    ensures forall x: Entry :: old(allocated(x)) ==> x.isDir == old(x.isDir) && x.size == old(x.size) && x.data == old(x.data)
    ensures forall x: Entry :: old(allocated(x)) && x != e ==> x.open == old(x.open) && x.handles == old(x.handles) && x.refer == old(x.refer)
    ensures forall h: Handle :: old(allocated(h)) && h.owner != e ==> h.next == old(h.next) && h.current == old(h.current)
    ensures forall n: Vnode :: old(allocated(n)) ==> n.devInfo == old(n.devInfo) && n.size == old(n.size)
    ensures forall k: FileObject :: old(allocated(k)) ==> k.node == old(k.node) && k.offset == old(k.offset)
  {
    hide DirReady, DirMoves, DirAnswer, DirCallOk, Volume.Valid, Buffers, Belongings, InodeNow, ItemOf, Rest;
    u, a := DirApart(e, t, c, kids);
    VolumeStays(d.v);
    Untouched(d.all);
    InodesStay(Rest(d, e));
  }

  /** And so are the handles on all others. */
  method DirAt(d: Desk, e: Entry, t: DirTable, c: DirCall, ghost kids: seq<Entry>) returns (u: DirTable, a: Answer)
    requires ItemsOk(d) && Buffers(d.all) && e in d.all && e in d.held && d.held[e] == DirHandles(t) && d.v.Valid()
    requires DirReady(e, t) && DirCallOk(e, t, c, kids)
    requires c.ReadCall? && t.cursors[c.fd].Some? ==> t.cursors[c.fd].value.size >= 0
    modifies e`handles, e`refer, e`open, (set h | h in e.open)`next, (set h | h in e.open)`current
    ensures DirReady(e, u) && u.cursors == DirMoves(kids, t.cursors, c) && a == old(DirAnswer(t.cursors, c))
    ensures forall o :: o in Belongings(Item(e, Some(DirHandles(u)))) ==> o in old(Belongings(Item(e, Some(DirHandles(t))))) || fresh(o)
    ensures d.v.tree == old(d.v.tree) && d.v.Valid() && Buffers(d.all) && ItemsOk(Rest(d, e))
    ensures Bytes(e) == old(Bytes(e)) && DataOk(e) && e.isDir
    ensures forall x :: x in Rest(d, e).all ==> InodeNow(ItemOf(Rest(d, e), x)) == old(InodeNow(ItemOf(Rest(d, e), x)))
  {
    RestOk(d, e);
    ItemDir(e, t);
    hide DirReady, DirMoves, DirAnswer, DirCallOk, Volume.Valid, ItemOk, ItemsOk, Buffers, Belongings, InodeNow, ItemOf, DataOk, Bytes;
    u, a := DirOn(d, e, t, c, kids);
    ItemsStay(Rest(d, e));
  }

  lemma ItemDir(e: Entry, t: DirTable)
    requires ItemOk(Item(e, Some(DirHandles(t))))
    ensures DirReady(e, t) && t.node.devInfo == e && DataOk(e) && e.isDir
    ensures forall h :: h in e.open ==> h.owner == e
    ensures forall k :: k in t.fobjs.Values ==> k.node == t.node
  {
    hide KeysMatch, DataOk;
  }

  lemma DirItem(e: Entry, t: DirTable)
    requires DirReady(e, t) && e.isDir && DataOk(e)
    ensures ItemOk(Item(e, Some(DirHandles(t))))
  {
    hide KeysMatch, DataOk, Agree;
  }

  lemma DirInode(e: Entry, t: DirTable)
    requires ItemOk(Item(e, Some(DirHandles(t))))
    ensures InodeNow(Item(e, Some(DirHandles(t)))) == Inode(true, File(Bytes(e), map[]), t.cursors) && e.isDir && DirReady(e, t)
  {
    hide DirReady, Bytes;
  }

  /** The cursors of a directory are others; nothing else has changed. */
  ghost predicate CursorsTook(w: World<Entry>, e: Entry, cursors: Cursors, u: World<Entry>) {
    e in w.nodes && u == PutCursors(w, e, cursors)
  }

  lemma CursorsTake(d: Desk, u: Desk, e: Entry, t: DirTable, w: World<Entry>, content: seq<byte>, cursors: Cursors)
    requires e in d.all && Replaced(d, u, e, DirHandles(t))
    requires d.v.tree == w.tree && d.where == w.where && w.nodes.Keys == d.all
    requires forall x :: x in Rest(d, e).all ==> InodeNow(ItemOf(Rest(d, e), x)) == w.nodes[x]
    requires w.nodes[e] == Inode(true, File(content, map[]), cursors) && e.isDir && Bytes(e) == content
    ensures CursorsTook(w, e, t.cursors, WorldOf(u))
  {
    PutDownWorld(d, u, e, w);
  }

  /** A call through a directory handle changes the cursors of its directory and nothing else. */
  method CursorAt(d: Desk, e: Entry, t: DirTable, c: DirCall, ghost kids: seq<Entry>) returns (u: Desk, a: Answer)
    requires Parts(d) && e in d.held && d.held[e] == DirHandles(t) && DirCallOk(e, t, c, kids)
    requires c.ReadCall? && t.cursors[c.fd].Some? ==> t.cursors[c.fd].value.size >= 0
    modifies d.repr
    ensures Parts(u) && Grew(d, u)
    ensures CursorsTook(old(WorldOf(d)), e, DirMoves(kids, t.cursors, c), WorldOf(u))
    ensures a == old(DirAnswer(t.cursors, c))
  {
    PartsOf(d);
    TakeUp(d, e, DirHandles(t));
    DirInode(e, t);
    hide ItemOk, Parts, ItemsOk, Buffers, Volume.Valid, Rest, DirReady, Bytes, Belongings, WorldOf, InodeNow, PutDown, CursorsTook;
    hide DirCallOk, Replaced, DirMoves, DirAnswer, DataOk;
    ghost var w, content := WorldOf(d), Bytes(e);
    var t2;
    t2, a := DirAt(d, e, t, c, kids);
    DirItem(e, t2);
    u := PutDown(d, e, DirHandles(t2), Belongings(Item(e, Some(DirHandles(t2)))));
    PutDownOk(d, u, e, DirHandles(t2));
    CursorsTake(d, u, e, t2, w, content, t.cursors);
  }

  // ---------- the vnode of an entry

  lemma NewFile(e: Entry, node: Vnode)
    requires ItemOk(Item(e, None)) && !e.isDir && node.devInfo == e && node.size == e.size
    ensures ItemOk(Item(e, Some(FileHandles(Table(node, map[], map[])))))
    ensures InodeNow(Item(e, Some(FileHandles(Table(node, map[], map[]))))) == InodeNow(Item(e, None))
  {
    hide DataOk, Bytes;
    BytesSize(e);
  }

  lemma NewDir(e: Entry, node: Vnode)
    requires ItemOk(Item(e, None)) && e.isDir && node.devInfo == e
    ensures ItemOk(Item(e, Some(DirHandles(DirTable(node, map[], map[])))))
    ensures InodeNow(Item(e, Some(DirHandles(DirTable(node, map[], map[]))))) == InodeNow(Item(e, None))
  {
    hide DataOk, Bytes;
  }

  lemma FirstBelongings(d: Desk, e: Entry, h: Held, node: Vnode)
    requires ItemsOk(d) && e in d.all && Objects(Item(e, Some(h))) == {node}
    ensures forall o :: o in Belongings(Item(e, Some(h))) ==> o in d.repr || o == node
    ensures e in d.repr
  {
    hide ItemOk;
  }

  lemma SameWorld(w: World<Entry>, e: Entry)
    requires e in w.nodes
    ensures w.(nodes := w.nodes[e := w.nodes[e]]) == w
  {
  }

  /** An entry that nothing is held of gets its vnode; to users nothing has changed. */
  lemma FirstHeld(d: Desk, u: Desk, e: Entry, h: Held, node: Vnode)
    requires Parts(d) && e in d.all && e !in d.held && ItemOk(Item(e, Some(h))) && Objects(Item(e, Some(h))) == {node}
    requires InodeNow(Item(e, Some(h))) == InodeNow(Item(e, None))
    requires u == PutDown(d, e, h, Belongings(Item(e, Some(h))))
    ensures Parts(u) && u.v == d.v && WorldOf(u) == WorldOf(d) && e in u.held && u.held[e] == h
    ensures forall o :: o in u.repr ==> o in d.repr || o == node
  {
    PartsOf(d);
    RestOk(d, e);
    WorldAt(d, e);
    FirstBelongings(d, e, h, node);
    SameWorld(WorldOf(d), e);
    assert e in u.held && u.held[e] == h;
    hide ItemOk, InodeNow, Parts, ItemsOk, WorldOf, Belongings, PutDown, Objects, Volume.Valid, Buffers, Rest;
    PutDownOk(d, u, e, h);
    PutDownWorld(d, u, e, WorldOf(d));
  }

  /** New objects change nothing. */
  twostate lemma DeskStays(d: Desk)
    requires old(Parts(d)) && d.v.tree == old(d.v.tree) && d.v.top == old(d.v.top)
    requires forall x: Entry :: old(allocated(x)) ==> x.next == old(x.next) && x.nextDir == old(x.nextDir) && x.name == old(x.name)
    requires forall x: Entry :: old(allocated(x)) ==> x.isDir == old(x.isDir) && x.size == old(x.size) && x.data == old(x.data)
    requires forall x: Entry :: old(allocated(x)) ==> x.open == old(x.open) && x.handles == old(x.handles) && x.refer == old(x.refer)
    requires forall h: Handle :: old(allocated(h)) ==> h.next == old(h.next) && h.current == old(h.current)
    requires forall n: Vnode :: old(allocated(n)) ==> n.devInfo == old(n.devInfo) && n.size == old(n.size)
    requires forall k: FileObject :: old(allocated(k)) ==> k.node == old(k.node) && k.offset == old(k.offset)
    requires forall a: array<byte> :: old(allocated(a)) ==> a[..] == old(a[..])
    ensures Parts(d) && WorldOf(d) == old(WorldOf(d))
  {
    hide ItemsOk, InodeNow, ItemOf, Volume.Valid, Buffers;
    VolumeStays(d.v);
    ItemsStay(d);
    InodesStay(d);
    Untouched(d.all);
  }

  method HoldEntry(d: Desk, e: Entry) returns (u: Desk)
    requires Parts(d) && e in d.all
    ensures Parts(u) && Grew(d, u) && WorldOf(u) == old(WorldOf(d)) && e in u.held
    ensures if e.isDir then u.held[e].DirHandles? else u.held[e].FileHandles?
  {
    hide Parts, ItemsOk, ItemOk, WorldOf, InodeNow, DataOk, Belongings, PutDown;
    if e in d.held {
      HeldKind(d, e);
      return d;
    }
    var node := new Vnode(e, e.size);
    DeskStays(d);
    NothingHeld(d, e);
    var h := if e.isDir then DirHandles(DirTable(node, map[], map[])) else FileHandles(Table(node, map[], map[]));
    if e.isDir {
      NewDir(e, node);
    } else {
      NewFile(e, node);
    }
    u := PutDown(d, e, h, Belongings(Item(e, Some(h))));
    FirstHeld(d, u, e, h, node);
  }

  lemma HeldKind(d: Desk, e: Entry)
    requires Parts(d) && e in d.held
    ensures e in d.all && if e.isDir then d.held[e].DirHandles? else d.held[e].FileHandles?
  {
    PartsOf(d);
    hide Parts, FileReady, DirReady;
    assert ItemOk(ItemOf(d, e));
  }

  lemma NothingHeld(d: Desk, e: Entry)
    requires Parts(d) && e in d.all && e !in d.held
    ensures ItemOk(Item(e, None))
  {
    PartsOf(d);
    hide Parts, ItemOk;
    assert ItemOk(ItemOf(d, e));
  }
}
