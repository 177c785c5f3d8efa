/** Ordinary requests are passed on and answered, in every state there can be: what is asked of an open
    file, of a path, or of an open directory gets the answer its user expects. */
module WorldLaws {
  import opened Words
  import opened Lists
  import opened PathTree
  import opened TreeSteps
  import opened TreePaths
  import opened FlatFs
  import opened FileSpec
  import opened FileLaws
  import opened World
  import opened WorldRuns
  import DirCursor

  /** The descriptor belongs to an open file. */
  ghost predicate FileOpen<N>(w: World<N>, fd: nat)
    requires WorldOk(w)
  {
    WorldFacts(w);
    fd in w.where && !w.nodes[w.where[fd]].isDir
  }

  ghost predicate DirOpen<N>(w: World<N>, fd: nat)
    requires WorldOk(w)
  {
    WorldFacts(w);
    fd in w.where && w.nodes[w.where[fd]].isDir
  }

  /** The file behind a descriptor. */
  ghost function FileAt<N>(w: World<N>, fd: nat): (f: File<nat>)
    requires WorldOk(w) && FileOpen(w, fd)
    ensures InFile(f) && fd in f.offs
  {
    OffsetThere(w, fd);
    w.nodes[w.where[fd]].file
  }

  lemma OffsetThere<N>(w: World<N>, fd: nat)
    requires WorldOk(w) && FileOpen(w, fd)
    ensures w.where[fd] in w.nodes && InFile(w.nodes[w.where[fd]].file) && fd in w.nodes[w.where[fd]].file.offs
  {
    hide Shape, Named;
    var e := w.where[fd];
    assert InodeOk(w, e);
    assert fd in Fds(w.nodes[e]);
  }

  // ---------- open files

  /** A call that suits the file is made on it, and its reply is the answer. */
  lemma CallIsMade<N>(w: World<N>, fd: nat, c: Call<nat>, n: N)
    requires WorldOk(w) && FileOpen(w, fd) && OnHandle(c, fd) && CallOk(FileAt(w, fd), c)
    ensures Step(w, Io(fd, c), n).1 == Did(ReplyTo(FileAt(w, fd), c))
    ensures Step(w, Io(fd, c), n).0 ==
            PutFile(w, w.where[fd], After(FileAt(w, fd), c)).(where := if c.Close? then w.where - {fd} else w.where)
  {
    hide Shape, Named, Abs, InodeOk, WorldOk, Exec, CallOk, Find, InFile, OnHandle;
  }

  /** A write with memory for it that keeps the file below its largest size returns how many bytes it
      has written; they are what the file holds from the offset on, and all else is as before. */
  lemma WriteServed<N>(w: World<N>, fd: nat, d: seq<byte>, n: N)
    requires WorldOk(w) && FileOpen(w, fd) && |FileAt(w, fd).content| + |d| <= 0xFFFF_FE00 && |d| < 0x8000_0000
    ensures Step(w, Io(fd, Call.Write(fd, d, true)), n).1 == Did(Reply(|d|, []))
    ensures var f := FileAt(w, fd);
            var g := Step(w, Io(fd, Call.Write(fd, d, true)), n).0.nodes[w.where[fd]].file;
            && Overlaid(f.content, g.content, f.offs[fd], d)
            && g.offs == f.offs[fd := f.offs[fd] + |d|]
  {
    hide Shape, Named, Abs, InodeOk, WorldOk, FileOpen, Step;
    CallIsMade(w, fd, Call.Write(fd, d, true), n);
  }

  /** A read returns the bytes there are from its offset on. */
  lemma ReadServed<N>(w: World<N>, fd: nat, count: nat, n: N)
    requires WorldOk(w) && FileOpen(w, fd) && count <= 0xFFFF_FFFF && count != 0xDEAD_BEEF
    ensures var f := FileAt(w, fd);
            var got := if count <= |f.content| - f.offs[fd] then count else |f.content| - f.offs[fd];
            var a := Step(w, Io(fd, Call.Read(fd, count)), n).1;
            && a.Did? && a.reply.data == f.content[f.offs[fd]..f.offs[fd] + got]
            && (got < 0x8000_0000 ==> a.reply.res == got)
  {
    hide Shape, Named, Abs, InodeOk, WorldOk, FileOpen, Step, Exec;
    CallIsMade(w, fd, Call.Read(fd, count), n);
    ReadGets(FileAt(w, fd), fd, count);
  }

  /** Seeks to the end, to nowhere and to a position tell where they have gone. */
  lemma SeekServed<N>(w: World<N>, fd: nat, at: nat, n: N)
    requires WorldOk(w) && FileOpen(w, fd) && at <= |FileAt(w, fd).content|
    ensures Step(w, Io(fd, Call.Seek(fd, at, 0)), n).1 == Did(Reply(at, []))
    ensures Step(w, Io(fd, Call.Seek(fd, 0, 1)), n).1 == Did(Reply(FileAt(w, fd).offs[fd], []))
    ensures Step(w, Io(fd, Call.Seek(fd, 0, 2)), n).1 == Did(Reply(|FileAt(w, fd).content|, []))
  {
    hide Shape, Named, Abs, InodeOk, WorldOk, FileOpen, Step;
    CallIsMade(w, fd, Call.Seek(fd, at, 0), n);
    CallIsMade(w, fd, Call.Seek(fd, 0, 1), n);
    CallIsMade(w, fd, Call.Seek(fd, 0, 2), n);
  }

  /** A descriptor can always be closed; it belongs to nothing afterwards. */
  lemma CloseServed<N>(w: World<N>, fd: nat, n: N)
    requires WorldOk(w) && FileOpen(w, fd)
    ensures Step(w, Io(fd, Call.Close(fd)), n).1 == Did(Reply(0, []))
    ensures Step(w, Io(fd, Call.Close(fd)), n).0.where == w.where - {fd}
  {
    hide Shape, Named, Abs, InodeOk, WorldOk, FileOpen, Step;
    CallIsMade(w, fd, Call.Close(fd), n);
  }

  /** Over every run: the bytes a read returns are those put last at their positions by the calls of
      the run on that file, whatever has happened to its path. */
  lemma RunReads<N>(w: World<N>, rs: seq<Request>, ns: seq<N>, e: N, done: seq<Put>, fd: nat, count: nat, n: N)
    requires WorldOk(w) && NodesNew(w, rs, ns) && Lives(w, rs, ns, e) && !w.nodes[e].isDir
    requires MadeBy(w.nodes[e].file.content, done)
    requires var u := Run(w, rs, ns); FileOpen(u, fd) && u.where[fd] == e
    requires count <= 0xFFFF_FFFF && count != 0xDEAD_BEEF
    ensures InFile(w.nodes[e].file) && CallsOk(w.nodes[e].file, Calls(w, rs, ns, e))
    ensures var u, ps := Run(w, rs, ns), Puts(w.nodes[e].file, done, Calls(w, rs, ns, e));
            var f, a := FileAt(u, fd), Step(u, Io(fd, Call.Read(fd, count)), n).1;
            && a.Did? && PutLast(a.reply.data, ps, f.offs[fd])
            && |a.reply.data| == (if count <= |f.content| - f.offs[fd] then count else |f.content| - f.offs[fd])
  {
    hide Shape, Named, Abs, InodeOk, WorldOk, Lives, NodesNew, Run, Calls, CallsOk, Puts, FileOpen, Step, Exec, MadeBy, PutLast;
    LivesOn(w, rs, ns, e);
    FileIsMade(w, rs, ns, e, done);
    var u := Run(w, rs, ns);
    ReadServed(u, fd, count, n);
    var f := FileAt(u, fd);
    PiecePutLast(f.content, Puts(w.nodes[e].file, done, Calls(w, rs, ns, e)), Step(u, Io(fd, Call.Read(fd, count)), n).1.reply.data, f.offs[fd]);
  }

  // ---------- paths

  /** A file that paths show can be opened with a new descriptor; what is read then is what they show. */
  lemma OpenServed<N>(w: World<N>, path: string, fd: nat, append: bool, n: N)
    requires WorldOk(w) && path in Shown(w).files && fd !in w.where
    ensures Step(w, OpenFile(path, fd, append, true), n).1 == Did(Reply(0, []))
    ensures WorldOk(Step(w, OpenFile(path, fd, append, true), n).0)
    ensures var u := Step(w, OpenFile(path, fd, append, true), n).0;
            && FileOpen(u, fd) && FileAt(u, fd).content == Shown(w).files[path]
            && FileAt(u, fd).offs[fd] == if append then |Shown(w).files[path]| else 0
  {
    hide Shape, Named, Abs, InodeOk, WorldOk, Find;
    WorldFacts(w);
    StepOk(w, OpenFile(path, fd, append, true), n);
    OpenAt(w, path);
    OpenOk(w, Find(w.tree, path).value, fd, append, true);
  }

  /** A file opened and read to its end returns what its path shows. */
  lemma ShownIsRead<N>(w: World<N>, path: string, fd: nat, count: nat, n: N, m: N)
    requires WorldOk(w) && path in Shown(w).files && fd !in w.where
    requires |Shown(w).files[path]| <= count <= 0xFFFF_FFFF && count != 0xDEAD_BEEF
    ensures WorldOk(Step(w, OpenFile(path, fd, false, true), n).0)
    ensures var a := Step(Step(w, OpenFile(path, fd, false, true), n).0, Io(fd, Call.Read(fd, count)), m).1;
            a.Did? && a.reply.data == Shown(w).files[path]
  {
    hide Shape, Named, Abs, InodeOk, WorldOk, FileOpen, Step, Shown;
    OpenServed(w, path, fd, false, n);
    ReadServed(Step(w, OpenFile(path, fd, false, true), n).0, fd, count, m);
  }

  const ALL := Memory(true, true, true)
  const GIVEN := NodeResult(0, 0)

  /** In a directory a new name can be used for a file or a directory, which paths then show, also when
      no vnode can be had for it; then the answer is the vnode's error. */
  lemma CreateServed<N>(w: World<N>, dir: string, name: string, node: NodeResult, n: N)
    requires WorldOk(w) && dir in Shown(w).dirs && PlainName(name) && !Taken(Shown(w), dir + "/" + name) && n !in w.nodes
    ensures var (u, a) := Step(w, Change(Op<()>.Create(dir, name, ()), ALL, node), n);
            && a == Changed(if node.create < 0 then node.create else if node.wait < 0 then node.wait else 0)
            && WorldOk(u) && Shown(u) == Shown(w).(files := Shown(w).files[dir + "/" + name := []])
    ensures var (u, a) := Step(w, Change(Op<()>.Mkdir(dir, name, ()), ALL, node), n);
            && a == Changed(if node.create < 0 then node.create else if node.wait < 0 then node.wait else 0)
            && WorldOk(u) && Shown(u) == Shown(w).(dirs := Shown(w).dirs + {dir + "/" + name})
  {
    hide Shape, Named, Abs, InodeOk, WorldOk, Find, VolStep, ChangeTo, VolOf;
    ChangeOk(w, Op<()>.Create(dir, name, ()), ALL, node, n);
    ChangeOk(w, Op<()>.Mkdir(dir, name, ()), ALL, node, n);
  }

  /** A file that no directory handle is about to return can be removed, open or not: paths no longer
      show it, and the answer tells whether it was open. */
  lemma RemoveServed<N>(w: World<N>, dir: string, name: string, n: N)
    requires WorldOk(w) && dir in Shown(w).dirs && PlainName(name) && dir + "/" + name in Shown(w).files
    requires forall x :: Find(w.tree, dir + "/" + name) == Some(x) ==> Unread(w, x)
    ensures var e := Find(w.tree, dir + "/" + name);
            var (u, a) := Step(w, Change(Op<()>.Remove(dir, name), ALL, GIVEN), n);
            && e.Some? && e.value in w.nodes && a.Changed? && (a.code == 0 <==> Idle(w.nodes[e.value])) && (e.value in u.nodes <==> a.code != 0)
            && (0 < |Fds(w.nodes[e.value])| < 0x1_0000_0000 ==> a.code == -1)
            && WorldOk(u) && Shown(u) == Shown(w).(files := Shown(w).files - {dir + "/" + name})
  {
    hide Shape, Named, Abs, InodeOk, WorldOk, Find, VolStep, ChangeTo, VolOf, Unread;
    OpenAt(w, dir + "/" + name);
    ChangeOk(w, Op<()>.Remove(dir, name), ALL, GIVEN, n);
    FileNotDir(w, dir + "/" + name);
    Leaves(w, dir, name, false, n);
    WorldFacts(w);
    ReleaseTells(w.nodes[Find(w.tree, dir + "/" + name).value]);
    hide ReleaseCode, Fds, Idle;
  }

  lemma ReleaseTells<N>(i: Inode<N>)
    ensures ReleaseCode(i) == 0 <==> Idle(i)
    ensures 0 < |Fds(i)| < 0x1_0000_0000 ==> ReleaseCode(i) == -1
  {
  }

  /** What is removed leaves the tree, and is freed unless it has handles. */
  lemma Leaves<N>(w: World<N>, dir: string, name: string, isDir: bool, n: N)
    requires WorldOk(w) && dir in Shown(w).dirs && PlainName(name) && Taken(Shown(w), Join(dir, name))
    requires if isDir then Join(dir, name) in Shown(w).dirs && !Populated(Shown(w), Join(dir, name)) else Join(dir, name) !in Shown(w).dirs
    ensures Find(w.tree, Join(dir, name)).Some?
    ensures var e, op := Find(w.tree, Join(dir, name)).value, if isDir then Op<()>.Rmdir(dir, name) else Op<()>.Remove(dir, name);
            e in w.nodes && (e in ChangeTo(w, VolStep(VolOf(w), With(op, n)).tree).nodes <==> !Idle(w.nodes[e]))
  {
    hide Shape, Named, Abs, InodeOk, Find, Idle;
    var p := Join(dir, name);
    OpenAt(w, p);
    VolFits(w);
    DirAt(VolOf(w), dir);
    EmptyIff(VolOf(w), p);
    hide WorldOk, Populated;
    KindIn(w, Find(w.tree, p).value);
    var op := if isDir then Op<()>.Rmdir(dir, name) else Op<()>.Remove(dir, name);
    assert At(w.tree, p) !in VolStep(VolOf(w), With(op, n)).tree.kids;
  }

  /** An empty directory can be removed likewise. */
  lemma RmdirServed<N>(w: World<N>, dir: string, name: string, n: N)
    requires WorldOk(w) && dir in Shown(w).dirs && PlainName(name) && dir + "/" + name in Shown(w).dirs
    requires forall q :: Taken(Shown(w), q) && q != dir + "/" + name ==> !Under(q, dir + "/" + name)
    requires forall x :: Find(w.tree, dir + "/" + name) == Some(x) ==> Unread(w, x)
    ensures var e := Find(w.tree, dir + "/" + name);
            var (u, a) := Step(w, Change(Op<()>.Rmdir(dir, name), ALL, GIVEN), n);
            && e.Some? && e.value in w.nodes && a.Changed? && (a.code == 0 <==> Idle(w.nodes[e.value])) && (e.value in u.nodes <==> a.code != 0)
            && (0 < |Fds(w.nodes[e.value])| < 0x1_0000_0000 ==> a.code == -1)
            && WorldOk(u) && Shown(u) == Shown(w).(dirs := Shown(w).dirs - {dir + "/" + name})
  {
    hide Shape, Named, Abs, InodeOk, WorldOk, Find, VolStep, ChangeTo, VolOf, Unread, Under, Shown;
    OpenAt(w, dir + "/" + name);
    ChangeOk(w, Op<()>.Rmdir(dir, name), ALL, GIVEN, n);
    FileNotDir(w, dir + "/" + name);
    NothingBelow(Shown(w), dir, name);
    Leaves(w, dir, name, true, n);
    WorldFacts(w);
    ReleaseTells(w.nodes[Find(w.tree, dir + "/" + name).value]);
    hide ReleaseCode, Fds, Idle, FlatStep, Populated;
  }

  lemma NothingBelow(f: Flat, dir: string, name: string)
    requires forall q :: Taken(f, q) && q != dir + "/" + name ==> !Under(q, dir + "/" + name)
    ensures !Populated(f, dir + "/" + name)
    ensures FlatStep(f, Op<()>.Rmdir(dir, name)) == f.(dirs := f.dirs - {dir + "/" + name})
  {
  }

  lemma FileNotDir<N>(w: World<N>, path: string)
    requires WorldOk(w)
    ensures !(path in Shown(w).files && path in Shown(w).dirs)
  {
    hide Shape, Named, Abs, WorldOk, Find;
    if Taken(Shown(w), path) {
      OpenAt(w, path);
    }
  }

  /** An entry can be renamed to a new name in a directory that is not below it; everything below it
      moves along, and every file keeps its bytes. */
  lemma RenameServed<N>(w: World<N>, dir: string, name: string, newDir: string, newName: string, n: N)
    requires WorldOk(w) && dir in Shown(w).dirs && newDir in Shown(w).dirs && PlainName(name) && PlainName(newName)
    requires Taken(Shown(w), dir + "/" + name) && !Taken(Shown(w), newDir + "/" + newName) && !Under(newDir, dir + "/" + name)
    requires forall x :: Find(w.tree, dir + "/" + name) == Some(x) ==> Unread(w, x)
    ensures var (u, a) := Step(w, Change(Op<()>.Rename(dir, name, newDir, newName), ALL, GIVEN), n);
            && a == Changed(0) && WorldOk(u)
            && AllMoved(Shown(w), Shown(u), dir + "/" + name, newDir + "/" + newName)
  {
    hide Shape, Named, Abs, InodeOk, WorldOk, Find, VolStep, ChangeTo, VolOf, Unread, Shown;
    OpenAt(w, dir + "/" + name);
    ChangeOk(w, Op<()>.Rename(dir, name, newDir, newName), ALL, GIVEN, n);
    RenamedThere(Shown(w), dir + "/" + name, newDir + "/" + newName);
    hide FlatRename, AllMoved;
  }

  /** Without a vnode for it nothing is renamed, and the answer is the vnode's error. */
  lemma RenameRefused<N>(w: World<N>, dir: string, name: string, newDir: string, newName: string, node: NodeResult, n: N)
    requires WorldOk(w) && dir in Shown(w).dirs && newDir in Shown(w).dirs && PlainName(name) && PlainName(newName)
    requires Taken(Shown(w), dir + "/" + name) && !Taken(Shown(w), newDir + "/" + newName) && !Under(newDir, dir + "/" + name)
    requires forall x :: Find(w.tree, dir + "/" + name) == Some(x) ==> Unread(w, x)
    requires node.create < 0 || node.wait < 0
    ensures Step(w, Change(Op<()>.Rename(dir, name, newDir, newName), ALL, node), n) ==
            (w, Changed(if node.create < 0 then node.create else node.wait))
  {
    hide Shape, Named, Abs, InodeOk, WorldOk, Find, VolStep, ChangeTo, VolOf, Unread, Shown;
    OpenAt(w, dir + "/" + name);
  }

  /** Without memory nothing is created, and the answer is -1. */
  lemma CreateRefused<N>(w: World<N>, dir: string, name: string, mem: Memory, node: NodeResult, n: N)
    requires WorldOk(w) && dir in Shown(w).dirs && PlainName(name) && !Taken(Shown(w), dir + "/" + name)
    requires mem.nameAgain && (!mem.entry || !mem.name)
    ensures Step(w, Change(Op<()>.Create(dir, name, ()), mem, node), n) == (w, Changed(-1))
    ensures Step(w, Change(Op<()>.Mkdir(dir, name, ()), mem, node), n) == (w, Changed(-1))
  {
    hide Shape, Named, Abs, InodeOk, WorldOk, Find, VolStep, ChangeTo, VolOf, Shown;
  }

  /** What was at `p` and below it is at `q` and below it. */
  ghost predicate AllMoved(f: Flat, g: Flat, p: string, q: string) {
    && (forall s :: (s == "" || s[0] == '/') && p + s in f.files ==> q + s in g.files && g.files[q + s] == f.files[p + s])
    && (forall s :: (s == "" || s[0] == '/') && p + s in f.dirs ==> q + s in g.dirs)
  }

  lemma RenamedThere(f: Flat, p: string, q: string)
    ensures AllMoved(f, FlatRename(f, p, q), p, q)
  {
    forall s | s == "" || s[0] == '/' ensures Rebase(p + s, p, q) == q + s && Unbase(q + s, p, q) == p + s {
      assert (p + s)[|p|..] == s && (q + s)[|q|..] == s && (p + s)[..|p|] == p && (q + s)[..|q|] == q;
    }
  }

  /** A file can be cut to nothing while every offset is 0, and made longer to whole blocks: it keeps its
      bytes. */
  lemma ResizeServed<N>(w: World<N>, path: string, size: nat, junk: seq<byte>, n: N)
    requires WorldOk(w) && path in Shown(w).files && size <= 0xFFFF_FFFF && size % 0x200 == 0 && |junk| == size
    requires size == 0 || |Shown(w).files[path]| <= size
    requires forall x, fd :: Find(w.tree, path) == Some(x) && x in w.nodes && fd in w.nodes[x].file.offs ==> w.nodes[x].file.offs[fd] <= size
    ensures var e := Find(w.tree, path);
            var (u, a) := Step(w, Resize(path, size, junk, true), n);
            && a == Did(Reply(0, [])) && e.Some? && e.value in u.nodes
            && |u.nodes[e.value].file.content| == size
            && (size > 0 ==> Shown(w).files[path] <= u.nodes[e.value].file.content)
  {
    hide Shape, Named, Abs, InodeOk, WorldOk, Find, Shown;
    WorldFacts(w);
    OpenAt(w, path);
  }

  // ---------- open directories

  /** The entry a directory handle is about to return, if there is one left. */
  ghost function CursorAt<N>(w: World<N>, fd: nat): (c: Option<N>)
    requires WorldOk(w) && DirOpen(w, fd)
    ensures c.Some? ==> c.value in w.nodes && c.value in w.tree.name
  {
    hide WorldOk;
    CursorIn(w, w.where[fd], fd);
    w.nodes[w.where[fd]].cursors[fd]
  }

  /** A directory can be opened with a new descriptor, and stands at its first entry. */
  lemma OpenDirServed<N>(w: World<N>, path: string, fd: nat, n: N)
    requires WorldOk(w) && path in Shown(w).dirs && fd !in w.where
    ensures Step(w, OpenDir(path, fd, true), n).1 == Did(Reply(0, []))
    ensures WorldOk(Step(w, OpenDir(path, fd, true), n).0)
    ensures var e, u := Find(w.tree, path), Step(w, OpenDir(path, fd, true), n).0;
            && e.Some? && DirOpen(u, fd) && u.where[fd] == e.value && e.value in w.tree.kids
            && CursorAt(u, fd) == if w.tree.kids[e.value] == [] then None else Some(w.tree.kids[e.value][0])
  {
    hide Shape, Named, Abs, InodeOk, WorldOk, Find;
    StepOk(w, OpenDir(path, fd, true), n);
    OpenAt(w, path);
  }

  /** Reading gives the name of the entry at hand, as far as 255 characters, with its size and kind; at
      the end it gives 0. */
  lemma ReadDirServed<N>(w: World<N>, fd: nat, n: N)
    requires WorldOk(w) && DirOpen(w, fd)
    ensures match CursorAt(w, fd)
            case None => Step(w, ReadDir(fd), n).1 == Did(Reply(0, []))
            case Some(x) =>
              var a, name := Step(w, ReadDir(fd), n).1, w.tree.name[x];
              && a.Listed? && a.name == (if |name| <= 0xFF then name else name[..0xFF])
              && a.size == |w.nodes[x].file.content| && a.isDir == w.nodes[x].isDir
  {
    hide Shape, Named, Abs, InodeOk, WorldOk, Find;
    CursorIn(w, w.where[fd], fd);
  }

  /** Closing always succeeds. */
  lemma CloseDirServed<N>(w: World<N>, fd: nat, n: N)
    requires WorldOk(w) && DirOpen(w, fd)
    ensures Step(w, CloseDir(fd), n).1 == Did(Reply(0, [])) && Step(w, CloseDir(fd), n).0.where == w.where - {fd}
  {
    hide Shape, Named, Abs, InodeOk, WorldOk, Find;
  }
}
