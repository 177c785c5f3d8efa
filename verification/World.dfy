/** The whole file system at work, as a value: the tree, and for every entry its bytes, the offsets
    of the handles on it and the cursors of the directory handles.  An entry removed while it is
    open stays behind without a path.  Requests that the virtual file system never passes on are
    refused. */
module World {
  import opened Words
  import opened Lists
  import opened PathTree
  import opened TreeSteps
  import opened TreePaths
  import opened FlatFs
  import opened FileSpec
  import DirCursor

  /** What there is of an entry apart from its place in the tree. */
  datatype Inode<N> = Inode(isDir: bool, file: File<nat>, cursors: map<nat, Option<N>>)

  /** `where` says which entry each open descriptor belongs to. */
  datatype World<N> = World(tree: Tree<N>, nodes: map<N, Inode<N>>, where: map<nat, N>)

  /** A request, and what the kernel answers while it is served. */
  datatype Request =
    | Change(op: Op<()>, mem: Memory, node: NodeResult)
    | OpenFile(path: string, fd: nat, append: bool, memOk: bool)
    | Io(fd: nat, call: Call<nat>)
    | Resize(path: string, size: int, junk: seq<byte>, memOk: bool)
    | OpenDir(path: string, fd: nat, memOk: bool)
    | ReadDir(fd: nat)
    | CloseDir(fd: nat)

  datatype Answer = Refused | Changed(code: int) | Did(reply: Reply) | Listed(name: string, size: nat, isDir: bool)

  function Fresh<N>(isDir: bool): Inode<N> { Inode(isDir, File([], map[]), map[]) }

  ghost function Fds<N>(i: Inode<N>): set<nat> { i.file.offs.Keys + i.cursors.Keys }

  ghost predicate Idle<N>(i: Inode<N>) { Fds(i) == {} }

  // ---------- what always holds

  /** Tree and bytes alone. */
  ghost function VolOf<N>(w: World<N>): Vol<N>
    requires w.tree.kids.Keys <= w.nodes.Keys
  {
    Vol(w.tree, map e | e in w.tree.kids :: w.nodes[e].file.content)
  }

  /** Files have offsets inside them, directories have cursors into their lists. */
  ghost predicate InodeOk<N>(w: World<N>, e: N)
    requires e in w.nodes
  {
    var i := w.nodes[e];
    && InFile(i.file)
    && (if i.isDir then i.file.offs == map[] else i.cursors == map[])
    && (e in w.tree.kids ==> (i.isDir <==> e in w.tree.dirs))
    && (forall fd :: fd in i.cursors && i.cursors[fd].Some? ==> e in w.tree.kids && i.cursors[fd].value in w.tree.kids[e])
  }

  /** Each descriptor is one handle of the entry it belongs to. */
  ghost predicate WhereOk<N>(w: World<N>) {
    && (forall fd :: fd in w.where ==> w.where[fd] in w.nodes && fd in Fds(w.nodes[w.where[fd]]))
    && (forall e, fd :: e in w.nodes && fd in Fds(w.nodes[e]) ==> fd in w.where && w.where[fd] == e)
  }

  ghost predicate WorldOk<N>(w: World<N>) {
    && w.tree.kids.Keys <= w.nodes.Keys
    && Wf(w.tree)
    && (forall e :: e in w.nodes ==> InodeOk(w, e))
    && WhereOk(w)
  }

  lemma VolFits<N>(w: World<N>)
    requires WorldOk(w)
    ensures VolOk(VolOf(w))
  {
    hide Shape, Named;
  }

  /** What users of paths see. */
  ghost function Shown<N>(w: World<N>): Flat
    requires WorldOk(w)
  {
    VolFits(w);
    Abs(VolOf(w))
  }

  lemma WorldFacts<N>(w: World<N>)
    requires WorldOk(w)
    ensures Shape(w.tree) && Wf(w.tree) && w.tree.kids.Keys <= w.nodes.Keys
    ensures forall fd :: fd in w.where ==> w.where[fd] in w.nodes
  {
    hide Shape, Named;
  }

  // ---------- one request

  function With<N>(op: Op<()>, e: N): Op<N> {
    match op
    case Create(dir, name, _) => Op<N>.Create(dir, name, e)
    case Mkdir(dir, name, _) => Op<N>.Mkdir(dir, name, e)
    case Remove(dir, name) => Op<N>.Remove(dir, name)
    case Rmdir(dir, name) => Op<N>.Rmdir(dir, name)
    case Rename(dir, name, newDir, newName) => Op<N>.Rename(dir, name, newDir, newName)
    case Update(path, content) => Op<N>.Update(path, content)
  }

  /** Whether the kernel has what the operation needs: memory for a new entry, a vnode for a renamed
      one. */
  predicate Served(op: Op<()>, mem: Memory, node: NodeResult) {
    match op
    case Create(_, _, _) => mem.entry && mem.name
    case Mkdir(_, _, _) => mem.entry && mem.name
    case Rename(_, _, _, _) => node.Code() >= 0
    case _ => true
  }

  /** The path whose entry an operation takes out of its list. */
  function Uproots(op: Op<()>): Option<string> {
    match op
    case Remove(dir, name) => Some(Join(dir, name))
    case Rmdir(dir, name) => Some(Join(dir, name))
    case Rename(dir, name, _, _) => Some(Join(dir, name))
    case _ => None
  }

  /** No directory handle is about to return this entry. */
  ghost predicate Unread<N>(w: World<N>, x: N) {
    forall e, fd :: e in w.nodes && fd in w.nodes[e].cursors ==> w.nodes[e].cursors[fd] != Some(x)
  }

  /** The call is one on the handle `fd`. */
  predicate OnHandle(c: Call<nat>, fd: nat) {
    match c
    case Open(_, _, _) => false
    case SetSize(_, _, _) => false
    case _ => c.key == fd
  }

  /** What the virtual file system passes on.  It does not take away the entry that a directory
      handle is about to return. */
  ghost predicate Proper<N>(w: World<N>, r: Request)
    requires WorldOk(w)
  {
    match r
    case Change(op, mem, _) =>
      && Legal(Shown(w), op) && !op.Update? && mem.nameAgain
      && (Uproots(op).Some? && Find(w.tree, Uproots(op).value).Some? ==> Unread(w, Find(w.tree, Uproots(op).value).value))
    case OpenFile(path, fd, _, _) => path in Shown(w).files && fd !in w.where
    case Io(fd, c) =>
      && fd in w.where && !w.nodes[w.where[fd]].isDir
      && OnHandle(c, fd) && CallOk(w.nodes[w.where[fd]].file, c)
    case Resize(path, size, junk, memOk) =>
      && path in Shown(w).files
      && (OpenAt(w, path); CallOk(w.nodes[Find(w.tree, path).value].file, Call.SetSize(size, junk, memOk)))
    case OpenDir(path, fd, _) => path in Shown(w).dirs && fd !in w.where
    case ReadDir(fd) => fd in w.where && w.nodes[w.where[fd]].isDir
    case CloseDir(fd) => fd in w.where && w.nodes[w.where[fd]].isDir
  }

  /** A new tree: new entries are added, and an entry that leaves it is freed unless it is open. */
  ghost function ChangeTo<N>(w: World<N>, t: Tree<N>): World<N> {
    World(t,
          map e | e in t.kids.Keys + w.nodes.Keys && (e in t.kids || e !in w.tree.kids || e !in w.nodes || !Idle(w.nodes[e]))
            :: if e in w.nodes then w.nodes[e] else Fresh(e in t.dirs),
          w.where)
  }

  ghost function PutFile<N>(w: World<N>, e: N, f: File<nat>): World<N>
    requires e in w.nodes
  {
    w.(nodes := w.nodes[e := w.nodes[e].(file := f)])
  }

  ghost function PutCursors<N>(w: World<N>, e: N, c: map<nat, Option<N>>): World<N>
    requires e in w.nodes
  {
    w.(nodes := w.nodes[e := w.nodes[e].(cursors := c)])
  }

  /** What releasing an entry returns: nothing if it was freed, an error if it has handles.  The count
      of handles is kept in 32 bits. */
  ghost function ReleaseCode<N>(i: Inode<N>): int {
    if |Fds(i)| % 0x1_0000_0000 != 0 then -1 else if Fds(i) != {} then -2 else 0
  }

  /** What a change of the tree returns, said of the paths there are. */
  ghost function ChangeCode<N>(w: World<N>, op: Op<()>, mem: Memory, node: NodeResult): int
    requires WorldOk(w) && !op.Update?
  {
    hide Shape, Named, Abs, InodeOk, Find;
    var f, p := Shown(w), Join(op.dir, op.name);
    match op
    case Remove(_, _) =>
      if p in f.dirs then -1
      else if p !in f.files then 0x8001_0002 - 0x1_0000_0000
      else OpenAt(w, p); ReleaseCode(w.nodes[Find(w.tree, p).value])
    case Rmdir(_, _) =>
      if !Taken(f, p) then 0x8001_0002 - 0x1_0000_0000
      else if Populated(f, p) then 0x8001_0011 - 0x1_0000_0000
      else if p in f.files then 0x8001_0014 - 0x1_0000_0000
      else OpenAt(w, p); ReleaseCode(w.nodes[Find(w.tree, p).value])
    case Rename(_, _, _, _) =>
      if !Taken(f, p) then 0x8001_0002 - 0x1_0000_0000
      else if node.create < 0 then node.create else if node.wait < 0 then node.wait else 0
    case _ =>
      if Taken(f, p) then 0x8001_0011 - 0x1_0000_0000
      else if !mem.entry || !mem.name then -1
      else if node.create < 0 then node.create else if node.wait < 0 then node.wait else 0
  }

  /** The node for a new entry is new. */
  ghost predicate NewNode<N>(w: World<N>, r: Request, n: N) {
    r.Change? && (r.op.Create? || r.op.Mkdir?) ==> n !in w.nodes
  }

  lemma OpenAt<N>(w: World<N>, path: string)
    requires WorldOk(w) && Taken(Shown(w), path)
    ensures Find(w.tree, path).Some? && Find(w.tree, path).value in w.tree.kids
    ensures var e := Find(w.tree, path).value;
            && e in w.nodes && PathOf(w.tree, e) == path
            && (path in Shown(w).files <==> !w.nodes[e].isDir)
            && (path in Shown(w).files ==> Shown(w).files[path] == w.nodes[e].file.content)
            && (path in Shown(w).dirs <==> w.nodes[e].isDir)
  {
    hide Shape, Named, Abs;
    VolFits(w);
    AbsAt(VolOf(w), path);
    FoundInTree(w.tree, path);
    var e := Find(w.tree, path).value;
    assert InodeOk(w, e);
  }

  /** What a request does to the world, and what it answers. */
  ghost function Step<N>(w: World<N>, r: Request, n: N): (World<N>, Answer)
    requires WorldOk(w)
  {
    hide Shape, Named, Abs, InodeOk, Find, Exec;
    if !Proper(w, r) then (w, Refused)
    else match r
      case Change(op, mem, node) =>
        (if Served(op, mem, node) then ChangeTo(w, VolStep(VolOf(w), With(op, n)).tree) else w,
         Changed(ChangeCode(w, op, mem, node)))
      case OpenFile(path, fd, append, memOk) =>
        OpenAt(w, path);
        var e := Find(w.tree, path).value;
        OpenOk(w, e, fd, append, memOk);
        var (f, reply) := Exec(w.nodes[e].file, Call.Open(fd, append, memOk));
        (PutFile(w, e, f).(where := if memOk then w.where[fd := e] else w.where), Did(reply))
      case Io(fd, c) =>
        var e := w.where[fd];
        FileIn(w, e);
        var (f, reply) := Exec(w.nodes[e].file, c);
        (PutFile(w, e, f).(where := if c.Close? then w.where - {fd} else w.where), Did(reply))
      case Resize(path, size, junk, memOk) =>
        OpenAt(w, path);
        var e := Find(w.tree, path).value;
        FileIn(w, e);
        var (f, reply) := Exec(w.nodes[e].file, Call.SetSize(size, junk, memOk));
        (PutFile(w, e, f), Did(reply))
      case OpenDir(path, fd, memOk) =>
        OpenAt(w, path);
        var d := Find(w.tree, path).value;
        if !memOk then (w, Did(Code(INVALID)))
        else (PutCursors(w, d, w.nodes[d].cursors[fd := DirCursor.First(w.tree.kids[d])]).(where := w.where[fd := d]), Did(Code(0)))
      case ReadDir(fd) =>
        var d := w.where[fd];
        CursorIn(w, d, fd);
        (match w.nodes[d].cursors[fd]
         case None => (w, Did(Code(0)))
         case Some(x) =>
           (PutCursors(w, d, w.nodes[d].cursors[fd := DirCursor.NextIn(w.tree.kids[d], x)]),
            Listed(w.tree.name[x][..Min(|w.tree.name[x]|, DirCursor.NAME_MAX)], |w.nodes[x].file.content|, w.nodes[x].isDir)))
      case CloseDir(fd) =>
        var d := w.where[fd];
        (PutCursors(w, d, w.nodes[d].cursors - {fd}).(where := w.where - {fd}), Did(Code(0)))
  }

  lemma FileIn<N>(w: World<N>, e: N)
    requires WorldOk(w) && e in w.nodes
    ensures InFile(w.nodes[e].file)
  {
    hide Shape, Named;
    assert InodeOk(w, e);
  }

  /** A descriptor that is not in use is not in use at any entry. */
  lemma OpenOk<N>(w: World<N>, e: N, fd: nat, append: bool, memOk: bool)
    requires WorldOk(w) && e in w.nodes && fd !in w.where
    ensures InFile(w.nodes[e].file) && CallOk(w.nodes[e].file, Call.Open(fd, append, memOk))
  {
    hide Shape, Named;
    assert InodeOk(w, e);
    assert fd !in Fds(w.nodes[e]);
  }

  lemma CursorIn<N>(w: World<N>, d: N, fd: nat)
    requires WorldOk(w) && fd in w.where && w.where[fd] == d && w.nodes[d].isDir
    ensures fd in w.nodes[d].cursors
    ensures w.nodes[d].cursors[fd].Some? ==>
              var x := w.nodes[d].cursors[fd].value;
              d in w.tree.kids && x in w.tree.kids[d] && x in w.tree.kids && x in w.nodes && x in w.tree.name
  {
    hide Shape, Named;
    assert InodeOk(w, d);
    assert fd in Fds(w.nodes[d]);
    if w.nodes[d].cursors[fd].Some? {
      Frame(w.tree);
      BelowLevel(w.tree, d);
    }
  }

  // ---------- what a change of the tree does

  /** What is left of a tree after a change: kinds stay, children stay children unless uprooted, and
      only what is made can be new. */
  ghost predicate Outlives<N>(t: Tree<N>, u: Tree<N>, gone: Option<N>, made: Option<N>) {
    && (forall e :: e in t.kids && e in u.kids ==> (e in u.dirs <==> e in t.dirs))
    && (forall d, x :: d in t.kids && x in t.kids[d] && gone != Some(x) ==> d in u.kids && x in u.kids[d])
    && (forall e :: e in u.kids ==> e in t.kids || made == Some(e))
  }

  lemma LinkOutlives<N>(t: Tree<N>, d: N, n: N, name: string, isDir: bool)
    requires Shape(t) && d in t.kids && n !in t.kids
    ensures Outlives(t, LinkNew(t, d, n, name, isDir), None, Some(n))
  {
    hide Shape;
    Frame(t);
  }

  lemma UnlinkOutlives<N>(t: Tree<N>, d: N, e: N)
    requires Shape(t) && d in t.kids && e in t.kids[d] && t.kids[e] == []
    ensures Outlives(t, Unlink(t, d, e), Some(e), None)
  {
    hide Shape;
    Frame(t);
    ListIn(t, d);
    WithoutDistinct(t.kids[d], e);
  }

  lemma MoveOutlives<N>(t: Tree<N>, d: N, e: N, nd: N, name: string)
    requires Shape(t) && Movable(t, d, e, nd)
    ensures Outlives(t, Move(t, d, e, nd, name), Some(e), None)
  {
    hide Shape, MovedTrail;
    Frame(t);
    forall x | x in t.kids
      ensures x in Move(t, d, e, nd, name).kids
      ensures forall y :: y in t.kids[x] && y != e ==> y in Move(t, d, e, nd, name).kids[x]
    {
      MovedKids(t, d, e, nd, name, x);
    }
    MoveKeys(t, d, e, nd, name);
  }

  /** What an operation takes out of its list. */
  ghost function Gone<N>(t: Tree<N>, op: Op<()>): Option<N>
    requires Shape(t)
  {
    if Uproots(op).Some? then Find(t, Uproots(op).value) else None
  }

  /** What an operation makes. */
  function Made<N>(op: Op<()>, n: N): Option<N> {
    if op.Create? || op.Mkdir? then Some(n) else None
  }

  lemma StepOutlives<N>(v: Vol<N>, op: Op<()>, n: N)
    requires VolOk(v) && Legal(Abs(v), op) && !op.Update?
    requires (op.Create? || op.Mkdir?) ==> n !in v.tree.kids
    ensures Outlives(v.tree, VolStep(v, With(op, n)).tree, Gone(v.tree, op), Made(op, n))
  {
    hide Shape, Named, Abs, Outlives;
    var t := v.tree;
    Frame(t);
    SameOutlives(t, Gone(t, op), Made(op, n));
    DirAt(v, op.dir);
    match op
    case Create(dir, name, _) =>
      if VolStep(v, With(op, n)) != v { LinkOutlives(t, At(t, dir), n, name, false); }
    case Mkdir(dir, name, _) =>
      if VolStep(v, With(op, n)) != v { LinkOutlives(t, At(t, dir), n, name, true); }
    case Remove(dir, name) => GoneOutlives(v, op, n);
    case Rmdir(dir, name) => GoneOutlives(v, op, n);
    case Rename(dir, name, newDir, newName) =>
      DirAt(v, newDir);
      if VolStep(v, With(op, n)) != v {
        EntryAt(v, dir, name);
        MoveOutlives(t, At(t, dir), At(t, Join(dir, name)), At(t, newDir), newName);
      }
  }

  lemma SameOutlives<N>(t: Tree<N>, gone: Option<N>, made: Option<N>)
    requires Shape(t)
    ensures Outlives(t, t, gone, made)
  {
    hide Shape;
    Frame(t);
  }

  lemma GoneOutlives<N>(v: Vol<N>, op: Op<()>, n: N)
    requires VolOk(v) && Legal(Abs(v), op) && (op.Remove? || op.Rmdir?)
    ensures Outlives(v.tree, VolStep(v, With(op, n)).tree, Gone(v.tree, op), Made(op, n))
  {
    hide Shape, Named, Abs, Outlives;
    var t := v.tree;
    Frame(t);
    SameOutlives(t, Gone(t, op), Made(op, n));
    DirAt(v, op.dir);
    if VolStep(v, With(op, n)) != v {
      EntryAt(v, op.dir, op.name);
      LeafFile(t, At(t, Join(op.dir, op.name)));
      UnlinkOutlives(t, At(t, op.dir), At(t, Join(op.dir, op.name)));
    }
  }

  /** Entries that stay keep their bytes, and a new one has none. */
  lemma StepBytes<N>(v: Vol<N>, op: Op<()>, n: N)
    requires VolOk(v) && v.bytes.Keys == v.tree.kids.Keys && !op.Update?
    requires (op.Create? || op.Mkdir?) ==> n !in v.tree.kids
    ensures var u := VolStep(v, With(op, n));
            u.bytes == map e | e in u.tree.kids :: if e in v.tree.kids then v.bytes[e] else []
  {
    hide Shape, Named, Find, MovedTrail;
    var t := v.tree;
    Frame(t);
    var u := VolStep(v, With(op, n));
    assert u.bytes.Keys == u.tree.kids.Keys by { BytesKeys(v, op, n); }
  }

  lemma BytesKeys<N>(v: Vol<N>, op: Op<()>, n: N)
    requires VolOk(v) && v.bytes.Keys == v.tree.kids.Keys && !op.Update?
    ensures var u := VolStep(v, With(op, n)); u.bytes.Keys == u.tree.kids.Keys
  {
    hide Shape, Named, Find, MovedTrail;
    var t := v.tree;
    Frame(t);
    if (op.Remove? || op.Rmdir?) && VolStep(v, With(op, n)) != v {
      var d, e := At(t, op.dir), At(t, Join(op.dir, op.name));
      NotItsOwn(t, d, e, op);
    }
  }

  /** What is removed is not the directory it is removed from. */
  lemma NotItsOwn<N>(t: Tree<N>, d: N, e: N, op: Op<()>)
    requires Wf(t) && (op.Remove? || op.Rmdir?)
    requires Find(t, op.dir) == Some(d) && Find(t, Join(op.dir, op.name)) == Some(e)
    ensures d != e
  {
    hide Shape, Named;
    FoundInTree(t, op.dir);
    FoundInTree(t, Join(op.dir, op.name));
  }

  /** A served change: the world stays in order, and shows what the flat volume shows. */
  lemma ChangeOk<N>(w: World<N>, op: Op<()>, mem: Memory, node: NodeResult, n: N)
    requires WorldOk(w) && Proper(w, Change(op, mem, node)) && NewNode(w, Change(op, mem, node), n)
    ensures var u := VolStep(VolOf(w), With(op, n));
            var now := ChangeTo(w, u.tree);
            && WorldOk(now) && VolOf(now) == u && Shown(now) == FlatStep(Shown(w), op)
  {
    hide Shape, Named, Abs, VolStep, FlatStep, Find, Outlives;
    VolFits(w);
    var v := VolOf(w);
    StepOutlives(v, op, n);
    StepBytes(v, op, n);
    assert Legal(Abs(v), With(op, n));
    StepRefines(v, With(op, n));
    SameFlatStep(Abs(v), op, n);
    var u := VolStep(v, With(op, n));
    hide Legal;
    ChangedNodes(w, u.tree, Gone(v.tree, op), Made(op, n));
  }

  lemma SameFlatStep<N>(f: Flat, op: Op<()>, n: N)
    ensures FlatStep(f, With(op, n)) == FlatStep(f, op)
  {
    hide FlatRename;
  }

  lemma ChangedInode<N>(w: World<N>, u: Tree<N>, gone: Option<N>, made: Option<N>, e: N)
    requires w.tree.kids.Keys <= w.nodes.Keys && Outlives(w.tree, u, gone, made)
    requires gone.Some? ==> Unread(w, gone.value)
    requires made.Some? ==> made.value !in w.nodes
    requires e in w.nodes ==> InodeOk(w, e)
    requires e in ChangeTo(w, u).nodes
    ensures InodeOk(ChangeTo(w, u), e)
    ensures ChangeTo(w, u).nodes[e] == if e in w.nodes then w.nodes[e] else Fresh(e in u.dirs)
  {
    hide InFile;
    NewFileOk();
    var now := ChangeTo(w, u);
    if e in w.nodes {
      var i := w.nodes[e];
      forall fd | fd in i.cursors && i.cursors[fd].Some? ensures e in u.kids && i.cursors[fd].value in u.kids[e] {
        assert gone != Some(i.cursors[fd].value);
      }
    }
  }

  lemma NewFileOk()
    ensures InFile<nat>(File([], map[]))
  {
  }

  lemma ChangedWhere<N>(w: World<N>, u: Tree<N>)
    requires WhereOk(w)
    ensures WhereOk(ChangeTo(w, u))
  {
  }

  lemma ChangedNodes<N>(w: World<N>, u: Tree<N>, gone: Option<N>, made: Option<N>)
    requires WorldOk(w) && Wf(u) && Outlives(w.tree, u, gone, made)
    requires gone.Some? ==> Unread(w, gone.value)
    requires made.Some? ==> made.value !in w.nodes
    ensures var now := ChangeTo(w, u);
            && WorldOk(now)
            && (forall e :: e in u.kids ==> now.nodes[e].file.content == if e in w.tree.kids then w.nodes[e].file.content else [])
  {
    hide Shape, Named, InodeOk, WhereOk, Unread;
    var now := ChangeTo(w, u);
    forall e | e in now.nodes
      ensures InodeOk(now, e) && now.nodes[e] == if e in w.nodes then w.nodes[e] else Fresh(e in u.dirs)
    {
      ChangedInode(w, u, gone, made, e);
    }
    ChangedWhere(w, u);
    forall e | e in u.kids ensures now.nodes[e].file.content == if e in w.tree.kids then w.nodes[e].file.content else [] {
      assert e !in w.tree.kids ==> made == Some(e);
    }
  }

  // ---------- what a call on a handle does

  /** An entry gets new handles or bytes; the tree and all other entries are as before. */
  lemma PutInode<N>(w: World<N>, e: N, i: Inode<N>, where': map<nat, N>)
    requires WorldOk(w) && e in w.nodes
    requires InodeOk(w.(nodes := w.nodes[e := i]), e)
    requires forall fd :: fd in Fds(i) ==> fd in where' && where'[fd] == e
    requires forall fd :: fd in where' && where'[fd] == e ==> fd in Fds(i)
    requires forall fd :: fd in where' && where'[fd] != e ==> fd in w.where && w.where[fd] == where'[fd]
    requires forall fd :: fd in w.where && w.where[fd] != e ==> fd in where' && where'[fd] == w.where[fd]
    ensures WorldOk(World(w.tree, w.nodes[e := i], where'))
  {
    hide Shape, Named, InFile, Fds;
    var now := World(w.tree, w.nodes[e := i], where');
    forall x | x in now.nodes ensures InodeOk(now, x) {
      assert InodeOk(w.(nodes := w.nodes[e := i]), e);
      assert x != e ==> InodeOk(w, x);
    }
  }

  /** Which descriptors a file call leaves. */
  lemma ExecOffs(f: File<nat>, c: Call<nat>)
    requires InFile(f) && CallOk(f, c)
    ensures InFile(Exec(f, c).0)
    ensures Exec(f, c).0.offs.Keys == match c
                                      case Open(k, _, memOk) => if memOk then f.offs.Keys + {k} else f.offs.Keys
                                      case Close(k) => f.offs.Keys - {k}
                                      case _ => f.offs.Keys
    ensures c.Open? || c.Close? ==> Exec(f, c).0.content == f.content
  {
    ExecInFile(f, c);
  }

  lemma FileStepOk<N>(w: World<N>, e: N, c: Call<nat>)
    requires WorldOk(w) && e in w.nodes && !w.nodes[e].isDir && InFile(w.nodes[e].file) && CallOk(w.nodes[e].file, c)
    requires c.Open? ==> c.key !in w.where
    ensures var where' := match c
                          case Open(k, _, memOk) => if memOk then w.where[k := e] else w.where
                          case Close(k) => w.where - {k}
                          case _ => w.where;
            WorldOk(PutFile(w, e, Exec(w.nodes[e].file, c).0).(where := where'))
  {
    hide Shape, Named, Exec, CallOk;
    var f := Exec(w.nodes[e].file, c).0;
    assert InodeOk(w, e);
    ExecOffs(w.nodes[e].file, c);
    hide InFile;
    var where' := match c
                  case Open(k, _, memOk) => if memOk then w.where[k := e] else w.where
                  case Close(k) => w.where - {k}
                  case _ => w.where;
    var i := w.nodes[e].(file := f);
    if c.Close? {
      CallNeedsKey(w.nodes[e].file, c.key);
      ClosedHere(w, e, c.key);
    }
    PutInode(w, e, i, where');
  }

  lemma ClosedHere<N>(w: World<N>, e: N, fd: nat)
    requires WorldOk(w) && e in w.nodes && fd in Fds(w.nodes[e])
    ensures fd in w.where && w.where[fd] == e
  {
    hide Shape, Named;
  }

  lemma CallNeedsKey(f: File<nat>, k: nat)
    requires InFile(f) && CallOk(f, Call.Close(k))
    ensures k in f.offs
  {
  }

  /** Directory handles: the cursors of one directory change. */
  lemma DirStepOk<N>(w: World<N>, d: N, cursors: map<nat, Option<N>>, where': map<nat, N>)
    requires WorldOk(w) && d in w.nodes && w.nodes[d].isDir
    requires forall fd :: fd in cursors && cursors[fd].Some? ==> d in w.tree.kids && cursors[fd].value in w.tree.kids[d]
    requires forall fd :: fd in cursors ==> fd in where' && where'[fd] == d
    requires forall fd :: fd in where' && where'[fd] == d ==> fd in cursors
    requires forall fd :: fd in where' && where'[fd] != d ==> fd in w.where && w.where[fd] == where'[fd]
    requires forall fd :: fd in w.where && w.where[fd] != d ==> fd in where' && where'[fd] == w.where[fd]
    ensures WorldOk(PutCursors(w, d, cursors).(where := where'))
  {
    hide Shape, Named;
    assert InodeOk(w, d);
    hide InFile;
    PutInode(w, d, w.nodes[d].(cursors := cursors), where');
  }

  lemma CursorsHere<N>(w: World<N>, d: N)
    requires WorldOk(w) && d in w.nodes && w.nodes[d].isDir
    ensures forall fd :: fd in w.nodes[d].cursors ==> fd in w.where && w.where[fd] == d
    ensures forall fd :: fd in w.where && w.where[fd] == d ==> fd in w.nodes[d].cursors
    ensures forall fd :: fd in w.nodes[d].cursors && w.nodes[d].cursors[fd].Some? ==>
                           d in w.tree.kids && w.nodes[d].cursors[fd].value in w.tree.kids[d]
  {
    hide Shape, Named;
    assert InodeOk(w, d);
  }

  /** Following a `next` link stays in the list. */
  lemma {:induction false} NextStays<N>(s: seq<N>, x: N)
    ensures DirCursor.NextIn(s, x).Some? ==> DirCursor.NextIn(s, x).value in s
    ensures DirCursor.First(s).Some? ==> DirCursor.First(s).value in s
  {
    if s != [] {
      NextStays(s[1..], x);
      if s[1..] != [] {
        assert s[1..][0] == s[1];
      }
    }
  }

  /** Every request, whatever it is, leaves the world in order. */
  lemma StepOk<N>(w: World<N>, r: Request, n: N)
    requires WorldOk(w) && NewNode(w, r, n)
    ensures WorldOk(Step(w, r, n).0)
  {
    hide Shape, Named, Abs, InodeOk, WorldOk, Find, Exec, VolStep, CallOk, Fds;
    WorldFacts(w);
    if Proper(w, r) {
      match r
      case Change(op, mem, node) => ChangeOk(w, op, mem, node, n);
      case OpenFile(path, fd, append, memOk) =>
        OpenAt(w, path);
        var e := Find(w.tree, path).value;
        OpenOk(w, e, fd, append, memOk);
        FileStepOk(w, e, Call.Open(fd, append, memOk));
      case Io(fd, c) =>
        FileIn(w, w.where[fd]);
        FileStepOk(w, w.where[fd], c);
      case Resize(path, size, junk, memOk) =>
        OpenAt(w, path);
        FileIn(w, Find(w.tree, path).value);
        FileStepOk(w, Find(w.tree, path).value, Call.SetSize(size, junk, memOk));
      case OpenDir(path, fd, memOk) =>
        OpenAt(w, path);
        var d := Find(w.tree, path).value;
        NextStays(w.tree.kids[d], d);
        CursorsHere(w, d);
        if memOk {
          DirStepOk(w, d, w.nodes[d].cursors[fd := DirCursor.First(w.tree.kids[d])], w.where[fd := d]);
        }
      case ReadDir(fd) =>
        var d := w.where[fd];
        CursorIn(w, d, fd);
        CursorsHere(w, d);
        if w.nodes[d].cursors[fd].Some? {
          var x := w.nodes[d].cursors[fd].value;
          NextStays(w.tree.kids[d], x);
          DirStepOk(w, d, w.nodes[d].cursors[fd := DirCursor.NextIn(w.tree.kids[d], x)], w.where);
        }
      case CloseDir(fd) =>
        var d := w.where[fd];
        CursorsHere(w, d);
        DirStepOk(w, d, w.nodes[d].cursors - {fd}, w.where - {fd});
    }
  }
}
