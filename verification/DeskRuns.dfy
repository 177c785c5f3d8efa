/** Whole runs of requests against the heap, from mounting on.  Every request takes the linked
    entries, buffers, handle records and file objects the step that the file system as a value takes,
    so everything proved of runs of that value holds of them. */
module DeskRuns {
  import opened Words
  import opened PathTree
  import opened TreeSteps
  import opened TreePaths
  import opened FlatFs
  import opened Entries
  import opened FileSpec
  import opened FileIo
  import opened FileRuns
  import opened Volumes
  import opened VolumeOps
  import opened DirTables
  import opened World
  import opened Desks
  import opened DeskCalls
  import opened DeskChanges
  import WorldRuns
  import HandleRuns

  // ---------- which requests are passed on

  /** The entry at a path, and what kind of path that makes it. */
  lemma PathKind(d: Desk, path: string, e: Entry?)
    requires Ok(d) && match Find(d.v.tree, path) case None => e == null case Some(x) => e == x
    ensures var f := Shown(WorldOf(d));
            && (path in f.dirs <==> e != null && e.isDir) && (path in f.files <==> e != null && !e.isDir)
            && (e != null ==> e in d.all)
  {
    hide WorldOk, Parts, WorldOf, Shape, Named, Abs, Find;
    WorldIs(d);
    var w := WorldOf(d);
    VolFits(w);
    AbsAt(VolOf(w), path);
    if e != null {
      OpenAt(w, path);
    }
  }

  method LookAt(d: Desk, path: string) returns (e: Entry?)
    requires Ok(d)
    ensures Ok(d) && WorldOf(d) == old(WorldOf(d))
    ensures match Find(d.v.tree, path) case None => e == null case Some(x) => e == x
    ensures e != null ==> e in d.all
    ensures var f := Shown(WorldOf(d)); (path in f.dirs <==> e != null && e.isDir) && (path in f.files <==> e != null && !e.isDir)
  {
    hide WorldOk, Ok, Parts, WorldOf, Shape, Named, Abs, Find;
    e := LookUp(d, path);
    PathKind(d, path, e);
  }

  /** No directory handle is about to return this entry. */
  predicate NotNext(d: Desk, x: Entry) {
    forall e | e in d.held && d.held[e].DirHandles? ::
      forall fd | fd in d.held[e].dir.cursors :: d.held[e].dir.cursors[fd] != Some(x)
  }

  lemma NotNextIs(d: Desk, x: Entry)
    requires d.held.Keys <= d.all
    ensures NotNext(d, x) <==> Unread(WorldOf(d), x)
  {
    hide Bytes;
    var w := WorldOf(d);
    if NotNext(d, x) {
      forall e, fd | e in w.nodes && fd in w.nodes[e].cursors ensures w.nodes[e].cursors[fd] != Some(x) {
        assert w.nodes[e] == InodeNow(ItemOf(d, e));
      }
    }
    if Unread(w, x) {
      forall e, fd | e in d.held && d.held[e].DirHandles? && fd in d.held[e].dir.cursors
        ensures d.held[e].dir.cursors[fd] != Some(x)
      {
        assert w.nodes[e] == InodeNow(ItemOf(d, e));
      }
    }
  }

  /** Whether a change of the tree is passed on. */
  method PassesChange(d: Desk, r: Request) returns (b: bool)
    requires Ok(d) && r.Change?
    ensures Ok(d) && WorldOf(d) == old(WorldOf(d)) && (b <==> Proper(WorldOf(d), r))
  {
    hide WorldOk, Ok, Parts, WorldOf, Shape, Named, Abs, Find, Unread;
    var op := r.op;
    if op.Update? || !r.mem.nameAgain || !PlainName(op.name) {
      return false;
    }
    var dir := LookAt(d, op.dir);
    if dir == null || !dir.isDir {
      return false;
    }
    if op.Rename? {
      var ok := PassesTarget(d, op);
      if !ok {
        return false;
      }
    }
    if Uproots(op).Some? {
      b := PassesCut(d, Uproots(op).value);
    } else {
      b := true;
    }
  }

  method PassesTarget(d: Desk, op: Op<()>) returns (b: bool)
    requires Ok(d) && op.Rename?
    ensures Ok(d) && WorldOf(d) == old(WorldOf(d))
    ensures var f := Shown(WorldOf(d));
            b <==> op.newDir in f.dirs && PlainName(op.newName) && !Taken(f, Join(op.newDir, op.newName))
                   && !Under(op.newDir, Join(op.dir, op.name))
  {
    hide WorldOk, Ok, Parts, WorldOf, Shape, Named, Abs, Find;
    var nd := LookAt(d, op.newDir);
    var e := LookAt(d, Join(op.newDir, op.newName));
    b := nd != null && nd.isDir && e == null && PlainName(op.newName) && !Under(op.newDir, Join(op.dir, op.name));
  }

  method PassesCut(d: Desk, path: string) returns (b: bool)
    requires Ok(d)
    ensures Ok(d) && WorldOf(d) == old(WorldOf(d))
    ensures b <==> (Find(WorldOf(d).tree, path).Some? ==> Unread(WorldOf(d), Find(WorldOf(d).tree, path).value))
  {
    WorldIs(d);
    hide WorldOk, Ok, Parts, WorldOf, Shape, Named, Abs, Find, Unread, NotNext;
    var x := LookAt(d, path);
    WorldIs(d);
    HeldInside(d);
    b := true;
    if x != null {
      NotNextIs(d, x);
      b := NotNext(d, x);
    }
  }

  lemma HeldInside(d: Desk)
    requires Ok(d)
    ensures d.held.Keys <= d.all
  {
    hide WorldOk;
  }

  /** Whether a call on a handle is. */
  method PassesIo(d: Desk, fd: nat, c: Call<nat>) returns (b: bool)
    requires Ok(d)
    ensures Ok(d) && WorldOf(d) == old(WorldOf(d)) && (b <==> Proper(WorldOf(d), Io(fd, c)))
  {
    IoIs(d, fd, c);
    hide Ok, WorldOf, Proper, FitsSize, OnHandle;
    b := fd in d.where && !d.where[fd].isDir && OnHandle(c, fd) && FitsSize(d.where[fd].size, c);
  }

  lemma IoIs(d: Desk, fd: nat, c: Call<nat>)
    requires Ok(d)
    ensures Proper(WorldOf(d), Io(fd, c)) <==>
              fd in d.where && !d.where[fd].isDir && OnHandle(c, fd) && FitsSize(d.where[fd].size, c)
  {
    hide WorldOk, Ok, Parts, WorldOf, Proper, CallOk, OnHandle, FileNow, Shape, Named, FitsSize;
    WorldIs(d);
    ProperIs(WorldOf(d), fd, c);
    if fd in d.where && !d.where[fd].isDir && OnHandle(c, fd) {
      FileHeld(d, fd);
      FitsFileIs(d, d.where[fd], fd, c);
    }
  }

  lemma ProperIs(w: World<Entry>, fd: nat, c: Call<nat>)
    requires WorldOk(w)
    ensures fd in w.where ==> w.where[fd] in w.nodes
    ensures Proper(w, Io(fd, c)) <==>
              && fd in w.where && !w.nodes[w.where[fd]].isDir
              && OnHandle(c, fd) && CallOk(w.nodes[w.where[fd]].file, c)
  {
    WorldFacts(w);
    hide WorldOk, CallOk, OnHandle;
  }

  lemma FileHeld(d: Desk, fd: nat)
    requires Ok(d) && fd in d.where && !d.where[fd].isDir
    ensures var e := d.where[fd]; e in d.held && e in d.all && d.held[e].FileHandles? && Parts(d) && fd in FileNow(e, d.held[e].file).offs
    ensures var e := d.where[fd]; WorldOf(d).nodes.Keys == d.all && WorldOf(d).nodes[e].file == FileNow(e, d.held[e].file)
  {
    hide WorldOk, Parts, Bytes, Shape, Named;
    WorldIs(d);
    WhereFds(WorldOf(d), fd);
    var e := d.where[fd];
    assert WorldOf(d).nodes[e] == InodeNow(ItemOf(d, e));
    assert e in d.held;
    HeldKind(d, e);
    HeldFile(d, e);
  }

  lemma WhereFds(w: World<Entry>, fd: nat)
    requires WorldOk(w) && fd in w.where
    ensures w.where[fd] in w.nodes && fd in Fds(w.nodes[w.where[fd]])
    ensures !w.nodes[w.where[fd]].isDir ==> fd in w.nodes[w.where[fd]].file.offs
  {
    hide Shape, Named;
    assert InodeOk(w, w.where[fd]);
  }

  /** The limits of a call that come from the size of the file. */
  predicate FitsSize(size: int, c: Call<nat>) {
    match c
    case Open(_, _, _) => false
    case Close(_) => true
    case Write(_, data, _) => size + |data| <= LAST_FIT
    case Read(_, n) => n <= MAX32
    case Seek(_, delta, _) => Int64(delta)
    case Pwrite(_, at, data, _) => 0 <= at && size + |data| <= LAST_FIT
    case Pread(_, at, n) => 0 <= at && n <= MAX32
    case SetSize(n, junk, _) => 0 <= n <= MAX32 ==> n % BLOCK == 0 && (n == 0 || size <= n) && |junk| == n
  }

  lemma FitsIs(f: File<nat>, c: Call<nat>)
    requires !c.Open? && (!c.SetSize? ==> c.key in f.offs)
    ensures CallOk(f, c) <==>
              && FitsSize(|f.content|, c)
              && (c.SetSize? && 0 <= c.size <= MAX32 ==> forall k :: k in f.offs ==> f.offs[k] <= c.size)
  {
  }

  lemma FitsFileIs(d: Desk, e: Entry, fd: nat, c: Call<nat>)
    requires Parts(d) && e in d.held && d.held[e].FileHandles? && fd in FileNow(e, d.held[e].file).offs && OnHandle(c, fd)
    ensures FitsSize(e.size, c) <==> CallOk(FileNow(e, d.held[e].file), c)
  {
    hide Parts, Bytes, FileReady, CallOk, FitsSize;
    SizesAre(d, e);
    FitsIs(FileNow(e, d.held[e].file), c);
  }

  lemma SizesAre(d: Desk, e: Entry)
    requires Parts(d) && e in d.held && d.held[e].FileHandles?
    ensures var t := d.held[e].file; |FileNow(e, t).content| == e.size && t.offs.Keys == t.fobjs.Keys
    ensures var t := d.held[e].file; forall k :: k in t.fobjs ==> t.fobjs[k].offset == t.offs[k]
  {
    PartsOf(d);
    ItemParts(d, e, d.held[e]);
    ItemFile(e, d.held[e].file);
    ReadyFile(e, d.held[e].file);
    hide Parts, ItemOk, ItemsOk, FileReady, Bytes;
  }

  /** A size change and the offsets of the handles there are. */
  predicate Reaches(d: Desk, e: Entry, size: int)
    reads if e in d.held && d.held[e].FileHandles? then d.held[e].file.fobjs.Values else {}
  {
    e in d.held && d.held[e].FileHandles? ==>
      var t := d.held[e].file; forall k | k in t.fobjs :: t.fobjs[k].offset <= size
  }

  lemma ResizeIs(d: Desk, e: Entry, c: Call<nat>)
    requires Parts(d) && e in d.all && !e.isDir && c.SetSize?
    ensures WorldOf(d).nodes.Keys == d.all
    ensures CallOk(WorldOf(d).nodes[e].file, c) <==> FitsSize(e.size, c) && (0 <= c.size <= MAX32 ==> Reaches(d, e, c.size))
  {
    hide Parts, WorldOf, Bytes, CallOk, FitsSize;
    InodesAre(d);
    ShownSize(d, e);
    FitsIs(WorldOf(d).nodes[e].file, c);
    if e in d.held {
      HeldKind(d, e);
      SizesAre(d, e);
      HeldFile(d, e);
    }
  }

  lemma ShownSize(d: Desk, e: Entry)
    requires Parts(d) && e in d.all
    ensures WorldOf(d).nodes.Keys == d.all && |WorldOf(d).nodes[e].file.content| == e.size
  {
    PartsOf(d);
    BytesAre(d);
    hide Parts, WorldOf, ItemsOk, Volume.Valid;
    BytesSize(e);
  }

  method PassesResize(d: Desk, r: Request) returns (b: bool)
    requires Ok(d) && r.Resize?
    ensures Ok(d) && WorldOf(d) == old(WorldOf(d)) && (b <==> Proper(WorldOf(d), r))
  {
    hide WorldOk, Ok, Parts, WorldOf, Shape, Named, Shown, Find, Proper, FitsSize, Reaches;
    var e := LookAt(d, r.path);
    ResizeProper(d, r, e);
    b := e != null && !e.isDir && FitsSize(e.size, Call.SetSize(r.size, r.junk, r.memOk))
         && (0 <= r.size <= MAX32 ==> Reaches(d, e, r.size));
  }

  lemma ResizeProper(d: Desk, r: Request, e: Entry?)
    requires Ok(d) && r.Resize? && match Find(d.v.tree, r.path) case None => e == null case Some(x) => e == x
    ensures Proper(WorldOf(d), r) <==>
              && e != null && !e.isDir && FitsSize(e.size, Call.SetSize(r.size, r.junk, r.memOk))
              && (0 <= r.size <= MAX32 ==> Reaches(d, e, r.size))
  {
    hide WorldOk, Ok, Parts, WorldOf, Shape, Named, Shown, Find, FitsSize, Reaches, CallOk;
    WorldIs(d);
    PathKind(d, r.path, e);
    if e != null && !e.isDir {
      ResizeIs(d, e, Call.SetSize(r.size, r.junk, r.memOk));
    }
  }

  /** Whether a request is passed on. */
  method Passes(d: Desk, r: Request) returns (b: bool)
    requires Ok(d)
    ensures Ok(d) && WorldOf(d) == old(WorldOf(d)) && (b <==> Proper(WorldOf(d), r))
  {
    hide WorldOk, Ok, Parts, WorldOf, Shape, Named, Abs;
    WorldIs(d);
    WorldFacts(WorldOf(d));
    match r {
      case Change(_, _, _) => b := PassesChange(d, r);
      case Io(fd, c) => b := PassesIo(d, fd, c);
      case Resize(_, _, _, _) => b := PassesResize(d, r);
      case OpenFile(path, fd, _, _) =>
        var e := LookAt(d, path);
        b := e != null && !e.isDir && fd !in d.where;
      case OpenDir(path, fd, _) =>
        var e := LookAt(d, path);
        b := e != null && e.isDir && fd !in d.where;
      case ReadDir(fd) => b := fd in d.where && d.where[fd].isDir;
      case CloseDir(fd) => b := fd in d.where && d.where[fd].isDir;
    }
  }

  // ---------- one request

  /** An entry that is not in the file system. */
  method Unused(d: Desk) returns (e: Entry)
    requires Ok(d)
    ensures Ok(d) && WorldOf(d) == old(WorldOf(d)) && e !in d.all
  {
    hide WorldOk, Parts, WorldOf;
    assert forall x :: x in d.all ==> old(allocated(x));
    e := new Entry("", false);
    DeskStays(d);
  }

  lemma RefusedTook(w: World<Entry>, r: Request, n: Entry)
    requires WorldOk(w) && !Proper(w, r) && n !in w.nodes
    ensures Took(w, r, n, w, Refused)
  {
    hide WorldOk, Proper;
  }

  lemma TookOk(d: Desk, w: World<Entry>, r: Request, n: Entry, a: Answer)
    requires Parts(d) && Took(w, r, n, WorldOf(d), a)
    ensures Ok(d)
  {
    hide WorldOk, Step, NewNode;
    StepOk(w, r, n);
  }

  /** A request that is passed on. */
  method ServeProper(d: Desk, r: Request, spare: Entry) returns (u: Desk, a: Answer, ghost n: Entry)
    requires Ok(d) && Proper(WorldOf(d), r) && spare !in d.all
    modifies d.v`tree, d.repr
    ensures Parts(u) && Grew(d, u) && Took(old(WorldOf(d)), r, n, WorldOf(u), a)
  {
    n := spare;
    match r {
      case Change(_, _, _) =>
        var code;
        u, code, n := ServeChange(d, r, spare);
        a := Changed(code);
      case Io(fd, c) => u, a := ServeIo(d, fd, c, spare);
      case OpenFile(path, fd, _, _) => u, a := ServeHandle(d, r, spare);
      case Resize(_, _, _, _) => u, a := ServeHandle(d, r, spare);
      case OpenDir(_, _, _) => u, a := ServeHandle(d, r, spare);
      case ReadDir(_) => u, a := ServeHandle(d, r, spare);
      case CloseDir(_) => u, a := ServeHandle(d, r, spare);
    }
  }

  method ServeHandle(d: Desk, r: Request, ghost n: Entry) returns (u: Desk, a: Answer)
    requires Ok(d) && Proper(WorldOf(d), r) && !r.Change? && !r.Io?
    modifies d.repr
    ensures Parts(u) && Grew(d, u) && Took(old(WorldOf(d)), r, n, WorldOf(u), a)
  {
    hide WorldOk, Ok, Parts, WorldOf, Shape, Named, Abs, Find, Took;
    WorldIs(d);
    if r.OpenFile? || r.Resize? || r.OpenDir? {
      var e := LookAt(d, r.path);
      if r.OpenFile? {
        u, a := ServeOpen(d, r, e, n);
      } else if r.Resize? {
        u, a := ServeResize(d, r, e, n);
      } else {
        u, a := ServeDir(d, r, e, n);
      }
    } else {
      u, a := ServeDir(d, r, d.where[r.fd], n);
    }
  }

  lemma DirThere(w: World<Entry>, r: Request)
    requires WorldOk(w) && r.Change? && Proper(w, r)
    ensures r.op.dir in Shown(w).dirs && (r.op.Rename? ==> r.op.newDir in Shown(w).dirs)
  {
    hide WorldOk;
  }

  method ChangeNew(d: Desk, r: Request, spare: Entry) returns (u: Desk, code: int, ghost n: Entry)
    requires Ok(d) && r.Change? && Proper(WorldOf(d), r) && spare !in d.all && (r.op.Create? || r.op.Mkdir?)
    modifies d.v`tree, d.repr
    ensures Parts(u) && Grew(d, u) && Took(old(WorldOf(d)), r, n, WorldOf(u), Changed(code))
  {
    WorldIs(d);
    DirThere(WorldOf(d), r);
    hide WorldOk, Ok, Parts, WorldOf, Shape, Named, Shown, Find, Took, Proper;
    var dir := LookAt(d, r.op.dir);
    u, code, n := ServeNew(d, r, dir, spare);
  }

  lemma IsMoving(d: Desk, r: Request, dir: Entry?, nd: Entry?)
    requires Ok(d) && r.Change? && r.op.Rename? && Proper(WorldOf(d), r)
    requires match Find(d.v.tree, r.op.dir) case None => dir == null case Some(x) => dir == x
    requires match Find(d.v.tree, r.op.newDir) case None => nd == null case Some(x) => nd == x
    ensures dir != null && nd != null && Moving(d, r, dir, nd)
  {
    hide Ok, WorldOk, Parts, WorldOf, Shape, Named, Shown, Find, Proper;
    WorldIs(d);
    DirThere(WorldOf(d), r);
    PathKind(d, r.op.dir, dir);
    PathKind(d, r.op.newDir, nd);
  }

  method FindMove(d: Desk, r: Request) returns (dir: Entry, nd: Entry)
    requires Ok(d) && r.Change? && Proper(WorldOf(d), r) && r.op.Rename?
    ensures Moving(d, r, dir, nd) && WorldOf(d) == old(WorldOf(d))
  {
    hide Ok, WorldOf, Shape, Named, Shown, Find, Proper, Moving;
    var e := LookAt(d, r.op.dir);
    var x := LookAt(d, r.op.newDir);
    IsMoving(d, r, e, x);
    dir, nd := e, x;
  }

  method ChangeMove(d: Desk, r: Request) returns (code: int, ghost n: Entry)
    requires Ok(d) && r.Change? && Proper(WorldOf(d), r) && r.op.Rename?
    modifies d.v`tree, d.repr
    ensures Parts(d) && Took(old(WorldOf(d)), r, n, WorldOf(d), Changed(code))
  {
    hide *;
    var dir, nd := FindMove(d, r);
    n := dir;
    code := ServeRename(d, r, dir, nd);
  }

  lemma IsGoing(d: Desk, r: Request, dir: Entry?, x: Entry?)
    requires Ok(d) && r.Change? && (r.op.Remove? || r.op.Rmdir?) && Proper(WorldOf(d), r)
    requires match Find(d.v.tree, r.op.dir) case None => dir == null case Some(y) => dir == y
    requires match Find(d.v.tree, Join(r.op.dir, r.op.name)) case None => x == null case Some(y) => x == y
    ensures dir != null && Going(d, r, dir, if x == null then dir else x)
  {
    hide Ok, WorldOk, Parts, WorldOf, Shape, Named, Shown, Find, Proper;
    WorldIs(d);
    DirThere(WorldOf(d), r);
    PathKind(d, r.op.dir, dir);
    PathKind(d, Join(r.op.dir, r.op.name), x);
  }

  method FindCut(d: Desk, r: Request) returns (dir: Entry, x: Entry)
    requires Ok(d) && r.Change? && Proper(WorldOf(d), r) && (r.op.Remove? || r.op.Rmdir?)
    ensures Going(d, r, dir, x) && WorldOf(d) == old(WorldOf(d))
  {
    hide Ok, WorldOf, Shape, Named, Shown, Find, Proper, Going;
    var e := LookAt(d, r.op.dir);
    var y := LookAt(d, Join(r.op.dir, r.op.name));
    IsGoing(d, r, e, y);
    dir, x := e, if y == null then e else y;
  }

  method ChangeCut(d: Desk, r: Request) returns (u: Desk, code: int, ghost n: Entry)
    requires Ok(d) && r.Change? && Proper(WorldOf(d), r) && (r.op.Remove? || r.op.Rmdir?)
    modifies d.v`tree, d.repr
    ensures Parts(u) && Grew(d, u) && Took(old(WorldOf(d)), r, n, WorldOf(u), Changed(code))
  {
    hide Ok, Parts, WorldOf, Took, Proper, Going;
    var dir, x := FindCut(d, r);
    n := dir;
    u, code := ServeGone(d, r, dir, x);
  }

  method ServeChange(d: Desk, r: Request, spare: Entry) returns (u: Desk, code: int, ghost n: Entry)
    requires Ok(d) && r.Change? && Proper(WorldOf(d), r) && spare !in d.all
    modifies d.v`tree, d.repr
    ensures Parts(u) && Grew(d, u) && Took(old(WorldOf(d)), r, n, WorldOf(u), Changed(code))
  {
    NoUpdate(WorldOf(d), r);
    hide *;
    if r.op.Create? || r.op.Mkdir? {
      u, code, n := ChangeNew(d, r, spare);
    } else if r.op.Rename? {
      u := d;
      code, n := ChangeMove(d, r);
    } else {
      u, code, n := ChangeCut(d, r);
    }
  }

  lemma NoUpdate(w: World<Entry>, r: Request)
    requires WorldOk(w) && r.Change? && Proper(w, r)
    ensures !r.op.Update?
  {
    hide WorldOk;
  }

  lemma AllIdle(d: Desk)
    requires Ok(d)
    ensures WorldOf(d).nodes.Keys == d.all && forall e :: e in d.all && Idle(WorldOf(d).nodes[e]) ==> e.open == []
  {
    WorldIs(d);
    PartsOf(d);
    InodesAre(d);
    hide WorldOk, Ok, Parts, WorldOf, InodeNow, ItemsOk, ItemOf, Idle;
    forall e | e in d.all && Idle(WorldOf(d).nodes[e]) ensures e.open == [] {
      IdleIff(d, e);
    }
  }

  lemma FreedIdle(w: World<Entry>, r: Request, n: Entry, u: World<Entry>, a: Answer)
    requires Took(w, r, n, u, a)
    ensures forall e :: e in w.nodes && e !in u.nodes ==> Idle(w.nodes[e])
  {
    hide WorldOk, Step, NewNode, Idle;
    forall e | e in w.nodes && e !in u.nodes ensures Idle(w.nodes[e]) {
      HandleRuns.FreedIsIdle(w, r, n, e);
    }
  }

  /** Any request.  What is not proper is refused. */
  method Serve(d: Desk, r: Request) returns (u: Desk, a: Answer, ghost n: Entry)
    requires Ok(d)
    modifies d.v`tree, d.repr
    ensures Ok(u) && Grew(d, u) && Took(old(WorldOf(d)), r, n, WorldOf(u), a)
    ensures forall e :: e in d.all && e !in u.all ==> old(e.open) == []
  {
    hide WorldOk, Ok, Parts, WorldOf, Took, Proper;
    WorldIs(d);
    AllIdle(d);
    ghost var w := WorldOf(d);
    var b := Passes(d, r);
    var spare := Unused(d);
    if b {
      u, a, n := ServeProper(d, r, spare);
      TookOk(u, w, r, n, a);
      WorldIs(u);
      FreedIdle(w, r, n, WorldOf(u), a);
    } else {
      RefusedTook(w, r, spare);
      u, a, n := d, Refused, spare;
    }
  }

  // ---------- runs

  /** Over every run of requests, whatever they are and whatever the kernel answers, the heap goes
      through the run of the file system as a value and gives the same answers. */
  method Run(d: Desk, rs: seq<Request>) returns (u: Desk, answers: seq<Answer>, ghost ns: seq<Entry>)
    requires Ok(d)
    modifies d.v`tree, d.repr
    ensures Ok(u) && Grew(d, u)
    ensures var w := old(WorldOf(d));
            && WorldOk(w) && WorldRuns.NodesNew(w, rs, ns)
            && WorldOf(u) == WorldRuns.Run(w, rs, ns) && answers == WorldRuns.Answers(w, rs, ns)
    decreases |rs|
  {
    hide WorldOk, Ok, Parts, WorldOf, Took;
    WorldIs(d);
    ghost var w := WorldOf(d);
    if rs == [] {
      return d, [], [];
    }
    var a, rest;
    ghost var n, more;
    u, a, n := Serve(d, rs[0]);
    ghost var mid := WorldOf(u);
    u, rest, more := Run(u, rs[1..]);
    answers, ns := [a] + rest, [n] + more;
    RunMore(w, rs, n, mid, a, more, WorldOf(u), rest);
  }

  lemma RunMore(w: World<Entry>, rs: seq<Request>, n: Entry, mid: World<Entry>, a: Answer, more: seq<Entry>,
                u: World<Entry>, rest: seq<Answer>)
    requires rs != [] && Took(w, rs[0], n, mid, a)
    requires WorldOk(mid) && WorldRuns.NodesNew(mid, rs[1..], more)
    requires u == WorldRuns.Run(mid, rs[1..], more) && rest == WorldRuns.Answers(mid, rs[1..], more)
    ensures WorldOk(w) && WorldRuns.NodesNew(w, rs, [n] + more)
    ensures u == WorldRuns.Run(w, rs, [n] + more) && [a] + rest == WorldRuns.Answers(w, rs, [n] + more)
  {
    hide WorldOk, Step, NewNode;
    assert ([n] + more)[1..] == more;
  }

  // ---------- what the runs of the value say of the heap

  /** After every run the entry of a file holds the bytes, and its file objects the offsets, that the
      calls made on the file in the run leave, whether it has a path or has been removed; the sizes
      agree, and the file object of every descriptor has its handle record. */
  lemma FileOnHeap(u: Desk, w: World<Entry>, rs: seq<Request>, ns: seq<Entry>, e: Entry)
    requires Ok(u) && WorldOk(w) && WorldRuns.NodesNew(w, rs, ns) && WorldOf(u) == WorldRuns.Run(w, rs, ns)
    requires WorldRuns.Lives(w, rs, ns, e) && e in w.nodes && !w.nodes[e].isDir
    ensures InFile(w.nodes[e].file) && CallsOk(w.nodes[e].file, WorldRuns.Calls(w, rs, ns, e)) && e in u.all
    ensures var f := RunFile(w.nodes[e].file, WorldRuns.Calls(w, rs, ns, e));
            && Bytes(e) == f.content && e.size == |f.content|
            && (forall fd :: fd in f.offs ==>
                  && e in u.held && u.held[e].FileHandles? && fd in u.held[e].file.fobjs
                  && var t := u.held[e].file;
                     t.fobjs[fd].offset == f.offs[fd] <= e.size && IsOpen(t.node, t.fobjs[fd]) && t.node.size == e.size)
  {
    hide WorldOk, Ok, Parts, WorldOf, RunFile, CallsOk, InFile, WorldRuns.Run, WorldRuns.Calls, WorldRuns.Lives, WorldRuns.NodesNew;
    WorldRuns.FileFollows(w, rs, ns, e);
    ShownFile(u, e);
  }

  lemma ShownFile(u: Desk, e: Entry)
    requires Ok(u) && e in WorldOf(u).nodes
    ensures var f := WorldOf(u).nodes[e].file;
            && e in u.all && Bytes(e) == f.content && e.size == |f.content|
            && (forall fd :: fd in f.offs ==>
                  && e in u.held && u.held[e].FileHandles? && fd in u.held[e].file.fobjs
                  && var t := u.held[e].file;
                     t.fobjs[fd].offset == f.offs[fd] <= e.size && IsOpen(t.node, t.fobjs[fd]) && t.node.size == e.size)
  {
    hide WorldOk, Parts, WorldOf, ItemsOk, Bytes, FileReady, DirReady;
    WorldIs(u);
    PartsOf(u);
    InodesAre(u);
    RestOk(u, e);
    BytesSize(e);
    if e in u.held && u.held[e].FileHandles? {
      var t := u.held[e].file;
      ReadyFile(e, t);
      forall fd | fd in t.offs ensures IsOpen(t.node, t.fobjs[fd]) && t.fobjs[fd].offset == t.offs[fd] <= e.size {
        ReadyHandle(e, t, fd);
      }
    }
  }

  ghost function Mine(where_: map<nat, Entry>, e: Entry): set<nat> {
    set fd | fd in where_ && where_[fd] == e
  }

  /** The descriptors of an entry are those of its open objects. */
  lemma MineAre(u: Desk, e: Entry)
    requires Ok(u) && e in u.all
    ensures e.HandlesOk()
    ensures if e in u.held then KeysMatch(e.Keys(), Fobjs(u.held[e])) && Mine(u.where, e) == Fobjs(u.held[e]).Keys
            else e.open == [] && Mine(u.where, e) == {}
  {
    hide WorldOk, Parts, WorldOf, ItemsOk, Bytes, KeysMatch, DataOk, Entry.HandlesOk;
    WorldIs(u);
    PartsOf(u);
    InodesAre(u);
    RestOk(u, e);
    FdsAre(WorldOf(u), e);
  }

  lemma FdsAre(w: World<Entry>, e: Entry)
    requires WorldOk(w) && e in w.nodes
    ensures Mine(w.where, e) == Fds(w.nodes[e])
  {
    hide Shape, Named, InodeOk;
  }

  /** After every run each entry has exactly one handle record for each of its open descriptors, and
      its 32-bit count is their number; and the descriptors that are open are those that the run has
      opened and not closed since. */
  lemma HandlesOnHeap(u: Desk, w: World<Entry>, rs: seq<Request>, ns: seq<Entry>, e: Entry)
    requires Ok(u) && WorldOk(w) && WorldRuns.NodesNew(w, rs, ns) && WorldOf(u) == WorldRuns.Run(w, rs, ns)
    requires w.where == map[] && e in u.all
    ensures |e.open| == |Mine(u.where, e)| && e.refer == |Mine(u.where, e)| % WORD
    ensures forall fd :: fd in u.where <==> HandleRuns.StillOpen(HandleRuns.History(w, rs, ns), fd)
  {
    MineAre(u, e);
    WorldIs(u);
    hide WorldOk, Ok, Parts, WorldOf, WorldRuns.Run, WorldRuns.NodesNew, KeysMatch, HandleRuns.StillOpen, HandleRuns.History;
    if e in u.held {
      OneEach(e.Keys(), Fobjs(u.held[e]));
    }
    forall fd ensures fd in u.where <==> HandleRuns.StillOpen(HandleRuns.History(w, rs, ns), fd) {
      HandleRuns.OpenHandles(w, rs, ns, fd);
    }
  }

  // ---------- from mounting on

  /** The file system just after mounting. */
  ghost function Begin(root: Entry): World<Entry> {
    World(Mounted<Entry>(root).tree, map[root := Fresh(true)], map[])
  }

  lemma BeginOk(root: Entry)
    ensures WorldOk(Begin(root)) && Shown(Begin(root)) == Flat(map[], {"/md"})
  {
    var w := Begin(root);
    MountedIsFlat(root);
    hide Shape, Named, Abs;
    NewFileOk();
    assert InodeOk(w, root);
    assert VolOf(w) == Mounted(root);
  }

  lemma FirstItem(root: Entry)
    requires root.size == 0 && root.data == null && root.open == [] && root.HandlesOk()
    ensures ItemOk(Item(root, None)) && DataOk(root) && InodeNow(Item(root, None)) == Fresh(root.isDir)
  {
    BlockAlignFacts(0);
  }

  lemma FirstDesk(v: Volume, root: Entry)
    requires v.Valid() && v.tree == Mounted<Entry>(v.top).tree && v.top == root
    requires root.size == 0 && root.data == null && root.open == [] && root.HandlesOk()
    ensures var d := Desk(v, map[], map[], {root}, {root}); Ok(d) && WorldOf(d) == Begin(root)
  {
    var d := Desk(v, map[], map[], {root}, {root});
    hide Shape, Named, Chained, WorldOk, ItemOk, InodeNow, DataOk, Entry.HandlesOk, Volume.Linked;
    BeginOk(root);
    FirstItem(root);
    v.LinkedTree();
    hide Volume.Valid;
    assert ItemOf(d, root) == Item(root, None);
    assert WorldOf(d).nodes == map[root := Fresh(true)];
  }

  /** From mounting on, with nothing assumed of the requests: the answers are those of the file system
      as a value, and the paths show what the flat volume shows after the effects of the run. */
  method Session(mem: Memory, rs: seq<Request>)
    returns (res: int, vol: Volume?, root: Entry?, answers: seq<Answer>, u: Option<Desk>, ghost ns: seq<Entry>)
    ensures res == (if mem.entry && mem.name then 0 else -1) && (vol == null <==> res != 0)
    ensures vol != null && !mem.nameAgain ==> vol.Linked() && !Named(vol.tree)
    ensures u.Some? <==> mem.entry && mem.name && mem.nameAgain
    ensures u.Some? ==>
              && root != null && u.value.v == vol && Ok(u.value) && WorldOk(WorldOf(u.value))
              && var w := Begin(root);
                 && WorldOk(w) && WorldRuns.NodesNew(w, rs, ns)
                 && WorldOf(u.value) == WorldRuns.Run(w, rs, ns) && answers == WorldRuns.Answers(w, rs, ns)
                 && Shown(WorldOf(u.value)) == FlatRun(Flat(map[], {"/md"}), WorldRuns.Effects(w, rs, ns))
  {
    res, vol, root := SetRoot(null, true, true, mem);
    answers, u, ns := [], None, [];
    if vol != null && mem.nameAgain {
      answers, u, ns := FirstRun(vol, root, rs);
    }
  }

  method FirstRun(vol: Volume, root: Entry, rs: seq<Request>) returns (answers: seq<Answer>, u: Option<Desk>, ghost ns: seq<Entry>)
    requires vol.Valid() && vol.tree == Mounted<Entry>(vol.top).tree && vol.top == root
    requires root.size == 0 && root.data == null && root.open == [] && root.HandlesOk()
    modifies vol`tree, root
    ensures u.Some? && u.value.v == vol && Ok(u.value) && WorldOk(WorldOf(u.value))
    ensures var w := Begin(root);
            && WorldOk(w) && WorldRuns.NodesNew(w, rs, ns)
            && WorldOf(u.value) == WorldRuns.Run(w, rs, ns) && answers == WorldRuns.Answers(w, rs, ns)
            && Shown(WorldOf(u.value)) == FlatRun(Flat(map[], {"/md"}), WorldRuns.Effects(w, rs, ns))
  {
    FirstDesk(vol, root);
    BeginOk(root);
    hide WorldOk, Ok, Parts, WorldOf, Shown, Volume.Valid, Begin, FlatRun;
    var now;
    now, answers, ns := Run(Desk(vol, map[], map[], {root}, {root}), rs);
    WorldRuns.RunShown(Begin(root), rs, ns);
    u := Some(now);
    WorldIs(now);
  }
}
