/** Requests on handles, against the heap: what each of them does to the desk is the step of the file
    system as a value. */
module DeskCalls {
  import opened Words
  import opened Lists
  import opened PathTree
  import opened TreeSteps
  import opened TreePaths
  import opened FlatFs
  import opened Entries
  import opened FileSpec
  import opened FileIo
  import opened FileRuns
  import opened Volumes
  import opened VolumeOps
  import opened DirTables
  import opened World
  import opened Desks
  import DirCursor

  // ---------- calls on open files

  /** A call on a file, whose vnode is made if it has none. */
  method FileCall(d: Desk, e: Entry, c: Call<nat>) returns (u: Desk, reply: Reply)
    requires Parts(d) && e in d.all && !e.isDir && CallOk(WorldOf(d).nodes[e].file, c)
    modifies d.repr
    ensures Parts(u) && Grew(d, u) && FileTook(old(WorldOf(d)), e, c, WorldOf(u), reply)
  {
    hide Parts, WorldOf, FileTook, CallOk;
    var h := HoldEntry(d, e);
    HeldFile(h, e);
    u, reply := IoAt(h, e, h.held[e].file, c);
  }

  lemma HeldFile(d: Desk, e: Entry)
    requires Parts(d) && e in d.held && d.held[e].FileHandles?
    ensures WorldOf(d).nodes.Keys == d.all && e in d.all
    ensures WorldOf(d).nodes[e].file == FileNow(e, d.held[e].file)
  {
    hide Parts, WorldOf, InodeNow, FileNow;
    TakeUp(d, e, d.held[e]);
    FileInode(e, d.held[e].file);
  }

  /** Descriptors that are given another meaning. */
  lemma WhereOnly(d: Desk, where': map<nat, Entry>)
    requires Parts(d)
    ensures Parts(d.(where := where')) && WorldOf(d.(where := where')) == WorldOf(d).(where := where')
  {
    hide ItemOk, InodeNow, Volume.Valid, Buffers;
    var u := d.(where := where');
    assert forall e :: ItemOf(u, e) == ItemOf(d, e);
    assert WorldOf(u).nodes == WorldOf(d).nodes;
  }

  lemma IoTook(w: World<Entry>, fd: nat, c: Call<nat>, u: World<Entry>, reply: Reply, n: Entry)
    requires WorldOk(w) && Proper(w, Io(fd, c)) && FileTook(w, w.where[fd], c, u, reply)
    ensures Took(w, Io(fd, c), n, u.(where := if c.Close? then w.where - {fd} else w.where), Did(reply))
  {
    hide WorldOk, InodeOk, Exec, CallOk, Abs, Find;
  }

  lemma OpenTook(w: World<Entry>, path: string, fd: nat, append: bool, memOk: bool, u: World<Entry>, reply: Reply, n: Entry)
    requires WorldOk(w) && Proper(w, OpenFile(path, fd, append, memOk)) && Find(w.tree, path).Some?
    requires FileTook(w, Find(w.tree, path).value, Call.Open(fd, append, memOk), u, reply)
    ensures Took(w, OpenFile(path, fd, append, memOk), n,
                 u.(where := if memOk then w.where[fd := Find(w.tree, path).value] else w.where), Did(reply))
  {
    hide WorldOk, InodeOk, Exec, CallOk, Abs, Find;
  }

  lemma ResizeTook(w: World<Entry>, r: Request, u: World<Entry>, reply: Reply, n: Entry)
    requires WorldOk(w) && r.Resize? && Proper(w, r) && Find(w.tree, r.path).Some?
    requires FileTook(w, Find(w.tree, r.path).value, Call.SetSize(r.size, r.junk, r.memOk), u, reply)
    ensures Took(w, r, n, u, Did(reply))
  {
    hide WorldOk, InodeOk, Exec, CallOk, Abs, Find;
  }

  lemma WorldIs(d: Desk)
    requires Ok(d)
    ensures Parts(d) && WorldOk(WorldOf(d)) && WorldOf(d).nodes.Keys == d.all && WorldOf(d).where == d.where && WorldOf(d).tree == d.v.tree
    ensures forall e :: e in d.all ==> WorldOf(d).nodes[e].isDir == e.isDir
    ensures d.v.Valid() && d.v.tree.kids.Keys <= d.all && Wf(d.v.tree)
  {
    hide WorldOk, ItemsOk, Buffers, Shape, Named;
  }

  method ServeIo(d: Desk, fd: nat, c: Call<nat>, ghost n: Entry) returns (u: Desk, a: Answer)
    requires Ok(d) && Proper(WorldOf(d), Io(fd, c))
    modifies d.repr
    ensures Parts(u) && Grew(d, u) && Took(old(WorldOf(d)), Io(fd, c), n, WorldOf(u), a)
  {
    hide WorldOk, Ok, Parts, WorldOf, FileTook, CallOk, Shape, Named, Took, Abs;
    WorldIs(d);
    ghost var w := WorldOf(d);
    var e := d.where[fd];
    ProperIo(w, fd, c);
    var reply;
    u, reply := FileCall(d, e, c);
    IoTook(w, fd, c, WorldOf(u), reply, n);
    WhereOnly(u, if c.Close? then d.where - {fd} else d.where);
    u := u.(where := if c.Close? then d.where - {fd} else d.where);
    a := Did(reply);
  }

  lemma ProperIo(w: World<Entry>, fd: nat, c: Call<nat>)
    requires WorldOk(w) && Proper(w, Io(fd, c))
    ensures fd in w.where && w.where[fd] in w.nodes && !w.nodes[w.where[fd]].isDir && CallOk(w.nodes[w.where[fd]].file, c)
  {
    hide CallOk, Shape, Named;
  }

  /** The entry at a path. */
  method LookUp(d: Desk, path: string) returns (e: Entry?)
    requires Ok(d)
    ensures Ok(d) && WorldOf(d) == old(WorldOf(d))
    ensures match Find(d.v.tree, path) case None => e == null case Some(x) => e == x
  {
    hide WorldOk, Parts, WorldOf, Shape, Named, Volume.Linked;
    WorldIs(d);
    var res;
    res, e := d.v.GetFsEntry(path);
    DeskStays(d);
  }

  method ServeOpen(d: Desk, r: Request, e: Entry, ghost n: Entry) returns (u: Desk, a: Answer)
    requires Ok(d) && r.OpenFile? && Proper(WorldOf(d), r) && Find(d.v.tree, r.path) == Some(e)
    modifies d.repr
    ensures Parts(u) && Grew(d, u) && Took(old(WorldOf(d)), r, n, WorldOf(u), a)
  {
    hide WorldOk, Ok, Parts, WorldOf, FileTook, CallOk, Shape, Named, Took, Abs, Find;
    WorldIs(d);
    ghost var w := WorldOf(d);
    ProperOpen(w, r, e);
    var reply;
    u, reply := FileCall(d, e, Call.Open(r.fd, r.append, r.memOk));
    OpenTook(w, r.path, r.fd, r.append, r.memOk, WorldOf(u), reply, n);
    WhereOnly(u, if r.memOk then d.where[r.fd := e] else d.where);
    u := u.(where := if r.memOk then d.where[r.fd := e] else d.where);
    a := Did(reply);
  }

  lemma ProperOpen(w: World<Entry>, r: Request, e: Entry)
    requires WorldOk(w) && r.OpenFile? && Proper(w, r) && Find(w.tree, r.path) == Some(e)
    ensures e in w.nodes && !w.nodes[e].isDir && CallOk(w.nodes[e].file, Call.Open(r.fd, r.append, r.memOk))
  {
    hide Shape, Named, Abs, WorldOk, Find;
    OpenAt(w, r.path);
    OpenOk(w, e, r.fd, r.append, r.memOk);
  }

  method ServeResize(d: Desk, r: Request, e: Entry, ghost n: Entry) returns (u: Desk, a: Answer)
    requires Ok(d) && r.Resize? && Proper(WorldOf(d), r) && Find(d.v.tree, r.path) == Some(e)
    modifies d.repr
    ensures Parts(u) && Grew(d, u) && Took(old(WorldOf(d)), r, n, WorldOf(u), a)
  {
    hide WorldOk, Ok, Parts, WorldOf, FileTook, CallOk, Shape, Named, Took, Abs, Find;
    WorldIs(d);
    ghost var w := WorldOf(d);
    ProperResize(w, r, e);
    var reply;
    u, reply := FileCall(d, e, Call.SetSize(r.size, r.junk, r.memOk));
    ResizeTook(w, r, WorldOf(u), reply, n);
    a := Did(reply);
  }

  lemma ProperResize(w: World<Entry>, r: Request, e: Entry)
    requires WorldOk(w) && r.Resize? && Proper(w, r) && Find(w.tree, r.path) == Some(e)
    ensures e in w.nodes && !w.nodes[e].isDir && CallOk(w.nodes[e].file, Call.SetSize(r.size, r.junk, r.memOk))
  {
    hide Shape, Named, Abs, WorldOk, Find, CallOk;
    OpenAt(w, r.path);
  }

  // ---------- calls on open directories

  /** The list of entries that a directory handle goes through. */
  ghost function KidsOf(d: Desk, e: Entry): seq<Entry>
    reads d.v`tree
  {
    if e in d.v.tree.kids then d.v.tree.kids[e] else []
  }

  lemma HeldDir(d: Desk, e: Entry)
    requires Parts(d) && e in d.held && d.held[e].DirHandles?
    ensures WorldOf(d).nodes.Keys == d.all && e in d.all && WorldOf(d).tree == d.v.tree
    ensures WorldOf(d).nodes[e].cursors == d.held[e].dir.cursors && d.held[e].dir.cursors.Keys == d.held[e].dir.fobjs.Keys
  {
    hide Parts, WorldOf, InodeNow, KeysMatch, Entry.HandlesOk;
    TakeUp(d, e, d.held[e]);
    DirInode(e, d.held[e].dir);
  }

  lemma KidsChained(d: Desk, e: Entry)
    requires Parts(d) && e in d.v.tree.kids
    ensures Chain(e.nextDir, KidsOf(d, e)) && Distinct(KidsOf(d, e))
  {
    PartsOf(d);
    hide Parts, Shape, Named;
    d.v.LinkedTree();
    KidsDisjoint(d.v.tree);
  }

  /** What a directory call needs, said of the world. */
  ghost predicate CursorCall(w: World<Entry>, e: Entry, c: DirCall) {
    && e in w.nodes && w.nodes[e].isDir
    && (c.OpenCall? <==> c.fd !in w.nodes[e].cursors)
    && (c.OpenCall? ==> e in w.tree.kids)
    && (c.ReadCall? && w.nodes[e].cursors[c.fd].Some? ==>
          var x := w.nodes[e].cursors[c.fd].value;
          e in w.tree.kids && x in w.tree.kids[e] && x in w.tree.kids && x in w.tree.name && x in w.nodes)
  }

  /** What a directory call answers, said of the world. */
  ghost function CursorAnswer(w: World<Entry>, e: Entry, c: DirCall): Answer
    requires CursorCall(w, e, c)
  {
    match c
    case OpenCall(_, memOk) => Did(Code(if memOk then 0 else INVALID))
    case CloseCall(_) => Did(Code(0))
    case ReadCall(fd) =>
      match w.nodes[e].cursors[fd]
      case None => Did(Code(0))
      case Some(x) =>
        Listed(w.tree.name[x][..Min(|w.tree.name[x]|, DirCursor.NAME_MAX)], |w.nodes[x].file.content|, w.nodes[x].isDir)
  }

  lemma CallFits(d: Desk, e: Entry, c: DirCall)
    requires Parts(d) && e in d.held && d.held[e].DirHandles? && CursorCall(WorldOf(d), e, c)
    ensures DirCallOk(e, d.held[e].dir, c, KidsOf(d, e))
  {
    hide Parts, Chain, Distinct, InodeNow;
    HeldDir(d, e);
    if e in d.v.tree.kids {
      KidsChained(d, e);
    }
  }

  lemma AnswerFits(d: Desk, e: Entry, c: DirCall)
    requires Parts(d) && e in d.held && d.held[e].DirHandles? && CursorCall(WorldOf(d), e, c)
    ensures c.ReadCall? ==> c.fd in d.held[e].dir.cursors
    ensures c.ReadCall? && d.held[e].dir.cursors[c.fd].Some? ==> d.held[e].dir.cursors[c.fd].value.size >= 0
    ensures DirAnswer(d.held[e].dir.cursors, c) == CursorAnswer(WorldOf(d), e, c)
  {
    hide Parts, WorldOf;
    HeldDir(d, e);
    var w, cursors := WorldOf(d), d.held[e].dir.cursors;
    if c.ReadCall? && cursors[c.fd].Some? {
      EntryShown(d, cursors[c.fd].value);
      SameAnswer(d, w, cursors[c.fd].value);
    }
  }

  /** What an entry in the tree is listed as. */
  lemma SameAnswer(d: Desk, w: World<Entry>, x: Entry)
    requires w.tree == d.v.tree && x in w.tree.name && x in w.nodes
    requires x.name == w.tree.name[x] && x.size == |w.nodes[x].file.content| && x.isDir == w.nodes[x].isDir
    ensures Listed(x.name[..Min(|x.name|, DirCursor.NAME_MAX)], Max(x.size, 0), x.isDir) ==
            Listed(w.tree.name[x][..Min(|w.tree.name[x]|, DirCursor.NAME_MAX)], |w.nodes[x].file.content|, w.nodes[x].isDir)
  {
  }

  lemma EntryShown(d: Desk, x: Entry)
    requires Parts(d) && x in d.v.tree.kids && x in d.v.tree.name
    ensures x in d.all && x.name == d.v.tree.name[x] && x.size == |WorldOf(d).nodes[x].file.content| && x.isDir == WorldOf(d).nodes[x].isDir
  {
    hide Parts, Shape, Named, Chained, ItemOk, Bytes;
    PartsOf(d);
    d.v.LinkedTree();
    assert Buffers(d.all);
    BytesSize(x);
  }

  method DirCallOn(d: Desk, e: Entry, c: DirCall) returns (u: Desk, a: Answer)
    requires Parts(d) && e in d.all && e.isDir && CursorCall(WorldOf(d), e, c)
    modifies d.repr
    ensures Parts(u) && Grew(d, u) && a == CursorAnswer(old(WorldOf(d)), e, c)
    ensures var w := old(WorldOf(d));
            && e in w.nodes && (c.ReadCall? ==> c.fd in w.nodes[e].cursors)
            && CursorsTook(w, e, DirMoves(if e in w.tree.kids then w.tree.kids[e] else [], w.nodes[e].cursors, c), WorldOf(u))
  {
    hide Parts, WorldOf, CursorsTook, CursorCall, CursorAnswer, DirAnswer, DirMoves, DirCallOk;
    var h := HoldEntry(d, e);
    HeldDir(h, e);
    CallFits(h, e, c);
    AnswerFits(h, e, c);
    u, a := CursorAt(h, e, h.held[e].dir, c, KidsOf(h, e));
  }

  /** The directory call that a request makes. */
  function DirCallOf(r: Request): DirCall
    requires r.OpenDir? || r.ReadDir? || r.CloseDir?
  {
    match r
    case OpenDir(_, fd, memOk) => OpenCall(fd, memOk)
    case ReadDir(fd) => ReadCall(fd)
    case CloseDir(fd) => CloseCall(fd)
  }

  /** What it makes of the descriptors. */
  function DirWhere(where_: map<nat, Entry>, r: Request, e: Entry): map<nat, Entry>
    requires r.OpenDir? || r.ReadDir? || r.CloseDir?
  {
    match r
    case OpenDir(_, fd, memOk) => if memOk then where_[fd := e] else where_
    case ReadDir(fd) => where_
    case CloseDir(fd) => where_ - {fd}
  }

  lemma ProperDir(w: World<Entry>, r: Request, e: Entry)
    requires WorldOk(w) && (r.OpenDir? || r.ReadDir? || r.CloseDir?) && Proper(w, r)
    requires if r.OpenDir? then Find(w.tree, r.path) == Some(e) else w.where[r.fd] == e
    ensures CursorCall(w, e, DirCallOf(r)) && (r.ReadDir? ==> r.fd in w.nodes[e].cursors)
  {
    hide Shape, Named, Abs, WorldOk, Find, InodeOk, Fds;
    WorldFacts(w);
    match r
    case OpenDir(path, fd, _) =>
      OpenAt(w, path);
      CursorsHere(w, e);
    case ReadDir(fd) => CursorIn(w, e, fd);
    case CloseDir(fd) => CursorIn(w, e, fd);
  }

  lemma DirTook(w: World<Entry>, r: Request, e: Entry, u: World<Entry>, n: Entry)
    requires WorldOk(w) && (r.OpenDir? || r.ReadDir? || r.CloseDir?) && Proper(w, r)
    requires if r.OpenDir? then Find(w.tree, r.path) == Some(e) else w.where[r.fd] == e
    requires CursorCall(w, e, DirCallOf(r)) && (r.ReadDir? ==> r.fd in w.nodes[e].cursors)
    requires CursorsTook(w, e, DirMoves(if e in w.tree.kids then w.tree.kids[e] else [], w.nodes[e].cursors, DirCallOf(r)), u)
    ensures Took(w, r, n, u.(where := DirWhere(w.where, r, e)), CursorAnswer(w, e, DirCallOf(r)))
  {
    hide WorldOk, Abs, Find, InodeOk;
    if DirMoves(if e in w.tree.kids then w.tree.kids[e] else [], w.nodes[e].cursors, DirCallOf(r)) == w.nodes[e].cursors {
      SameWorld(w, e);
    }
    match r
    case OpenDir(path, fd, _) => OpenAt(w, path);
    case ReadDir(fd) => CursorIn(w, e, fd);
    case CloseDir(fd) =>
  }

  method ServeDir(d: Desk, r: Request, e: Entry, ghost n: Entry) returns (u: Desk, a: Answer)
    requires Ok(d) && (r.OpenDir? || r.ReadDir? || r.CloseDir?) && Proper(WorldOf(d), r)
    requires if r.OpenDir? then Find(d.v.tree, r.path) == Some(e) else r.fd in d.where && d.where[r.fd] == e
    modifies d.repr
    ensures Parts(u) && Grew(d, u) && Took(old(WorldOf(d)), r, n, WorldOf(u), a)
  {
    hide WorldOk, Ok, Parts, WorldOf, CursorsTook, CursorCall, CursorAnswer, Shape, Named, Took, Abs, Find, DirMoves, Proper;
    WorldIs(d);
    ghost var w := WorldOf(d);
    ProperDir(w, r, e);
    KindOf(w, e, DirCallOf(r));
    u, a := DirCallOn(d, e, DirCallOf(r));
    DirTook(w, r, e, WorldOf(u), n);
    WhereOnly(u, DirWhere(d.where, r, e));
    u := u.(where := DirWhere(d.where, r, e));
  }

  lemma KindOf(w: World<Entry>, e: Entry, c: DirCall)
    requires CursorCall(w, e, c)
    ensures e in w.nodes && w.nodes[e].isDir
  {
  }
}
