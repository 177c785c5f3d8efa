/** What a directory handle returns over a whole run, with everything else going on meanwhile, and
    which descriptors are open at the end. */
module DirRuns {
  import opened Words
  import opened Lists
  import opened PathTree
  import opened TreeSteps
  import opened TreePaths
  import opened FlatFs
  import opened FileSpec
  import opened World
  import opened WorldRuns
  import DirCursor

  type Event<N> = DirCursor.Event<N>

  /** What a request is to the handle `fd`: a read of its directory, a change of the tree, or
      nothing. */
  ghost function EventOf<N>(w: World<N>, r: Request, n: N, fd: nat): seq<Event<N>>
    requires WorldOk(w)
  {
    WorldFacts(w);
    hide Shape, Named, Abs, InodeOk, WhereOk;
    if !Proper(w, r) then []
    else match r
      case ReadDir(g) => if g == fd then [DirCursor.Next] else []
      case Change(op, mem, node) =>
        DirAtWorld(w, r);
        if Served(op, mem, node) then TreeEvent(w.tree, op, n) else []
      case _ => []
  }

  lemma DirAtWorld<N>(w: World<N>, r: Request)
    requires WorldOk(w) && Proper(w, r) && r.Change?
    ensures Shape(w.tree) && Find(w.tree, r.op.dir).Some?
    ensures r.op.Rename? ==> Find(w.tree, r.op.newDir).Some?
  {
    hide Shape, Named, Abs;
    VolFits(w);
    DirAt(VolOf(w), r.op.dir);
    if r.op.Rename? {
      DirAt(VolOf(w), r.op.newDir);
    }
  }

  /** The change that an operation makes, if it makes one. */
  ghost function TreeEvent<N>(t: Tree<N>, op: Op<()>, n: N): seq<Event<N>>
    requires Shape(t) && !op.Update? && Find(t, op.dir).Some?
    requires op.Rename? ==> Find(t, op.newDir).Some?
  {
    hide Shape;
    var p := Join(op.dir, op.name);
    match op
    case Create(dir, name, _) => if Find(t, p).Some? then [] else [DirCursor.Link(At(t, dir), n, name, false)]
    case Mkdir(dir, name, _) => if Find(t, p).Some? then [] else [DirCursor.Link(At(t, dir), n, name, true)]
    case Remove(dir, name) =>
      if Find(t, p).None? || At(t, p) in t.dirs then [] else [DirCursor.Cut(At(t, dir), At(t, p))]
    case Rmdir(dir, name) =>
      if Find(t, p).None? || t.kids[At(t, p)] != [] || At(t, p) !in t.dirs then [] else [DirCursor.Cut(At(t, dir), At(t, p))]
    case Rename(dir, name, newDir, newName) =>
      if Find(t, p).None? then [] else [DirCursor.Shift(At(t, dir), At(t, p), At(t, newDir), newName)]
  }

  /** It is the change that the step makes to the tree. */
  lemma TreeEventIs<N>(v: Vol<N>, op: Op<()>, n: N)
    requires VolOk(v) && Legal(Abs(v), op) && !op.Update?
    requires (op.Create? || op.Mkdir?) ==> n !in v.tree.kids
    ensures Find(v.tree, op.dir).Some? && (op.Rename? ==> Find(v.tree, op.newDir).Some?)
    ensures var evs := TreeEvent(v.tree, op, n);
            && |evs| <= 1
            && (evs == [] ==> VolStep(v, With(op, n)).tree == v.tree)
            && (evs != [] ==> DirCursor.EventOk(v.tree, evs[0]) && VolStep(v, With(op, n)).tree == DirCursor.Change(v.tree, evs[0]))
            && (evs != [] && !evs[0].Link? ==> Find(v.tree, Join(op.dir, op.name)) == Some(evs[0].node) && Uproots(op).Some?)
  {
    hide Shape, Named, Abs, Find, LinkNew, Unlink, Move;
    var t := v.tree;
    Frame(t);
    DirAt(v, op.dir);
    match op
    case Create(dir, name, _) =>
    case Mkdir(dir, name, _) =>
    case Remove(dir, name) =>
      if Find(t, Join(dir, name)).Some? {
        EntryAt(v, dir, name);
        LeafFile(t, At(t, Join(dir, name)));
      }
    case Rmdir(dir, name) =>
      if Find(t, Join(dir, name)).Some? {
        EntryAt(v, dir, name);
      }
    case Rename(dir, name, newDir, newName) =>
      DirAt(v, newDir);
      if Find(t, Join(dir, name)).Some? {
        RenameMoves(v, dir, name, newDir, newName);
      }
  }

  ghost function Events<N>(w: World<N>, rs: seq<Request>, ns: seq<N>, fd: nat): seq<Event<N>>
    requires WorldOk(w) && NodesNew(w, rs, ns)
    decreases |rs|
  {
    hide WorldOk, EventOf;
    if rs == [] then [] else EventOf(w, rs[0], ns[0], fd) + Events(Next(w, rs[0], ns[0]), rs[1..], ns[1..], fd)
  }

  /** `fd` is a handle on the directory `d`, which is in the tree, before every request of the run
      and after the last. */
  ghost predicate Holds<N>(w: World<N>, rs: seq<Request>, ns: seq<N>, fd: nat, d: N)
    requires WorldOk(w) && NodesNew(w, rs, ns)
    decreases |rs|
  {
    hide WorldOk, Step;
    && HoldsNow(w, fd, d)
    && (rs != [] ==> Holds(Next(w, rs[0], ns[0]), rs[1..], ns[1..], fd, d))
  }

  ghost predicate HoldsNow<N>(w: World<N>, fd: nat, d: N) {
    d in w.tree.kids && d in w.nodes && w.nodes[d].isDir && fd in w.where && w.where[fd] == d && fd in w.nodes[d].cursors
  }

  /** The entries that reads through `fd` return. */
  ghost function Returned<N>(w: World<N>, rs: seq<Request>, ns: seq<N>, fd: nat): seq<N>
    requires WorldOk(w) && NodesNew(w, rs, ns)
    decreases |rs|
  {
    hide WorldOk, ReadNow;
    if rs == [] then [] else ReadNow(w, rs[0], fd) + Returned(Next(w, rs[0], ns[0]), rs[1..], ns[1..], fd)
  }

  ghost function ReadNow<N>(w: World<N>, r: Request, fd: nat): seq<N>
    requires WorldOk(w)
  {
    hide Shape, Named, Abs, InodeOk;
    if r == ReadDir(fd) && Proper(w, r) then
      CursorIn(w, w.where[fd], fd);
      match w.nodes[w.where[fd]].cursors[fd]
      case None => []
      case Some(x) => [x]
    else []
  }

  /** One request, as the handle sees it. */
  lemma StepEvent<N>(w: World<N>, r: Request, n: N, fd: nat, d: N)
    requires WorldOk(w) && NewNode(w, r, n) && HoldsNow(w, fd, d) && HoldsNow(Next(w, r, n), fd, d)
    ensures Shape(w.tree) && |EventOf(w, r, n, fd)| <= 1
    ensures var evs, u, cur := EventOf(w, r, n, fd), Next(w, r, n), w.nodes[d].cursors[fd];
            if evs == [] then u.tree == w.tree && u.nodes[d].cursors[fd] == cur && ReadNow(w, r, fd) == []
            else if evs[0].Next? then
              && u.tree == w.tree
              && (if cur.None? then u.nodes[d].cursors[fd] == None && ReadNow(w, r, fd) == []
                  else u.nodes[d].cursors[fd] == DirCursor.NextIn(w.tree.kids[d], cur.value) && ReadNow(w, r, fd) == [cur.value])
            else
              && DirCursor.EventOk(w.tree, evs[0]) && DirCursor.Spares(d, cur, evs[0])
              && u.tree == DirCursor.Change(w.tree, evs[0]) && u.nodes[d].cursors[fd] == cur && ReadNow(w, r, fd) == []
  {
    hide Shape, Named, Abs, InodeOk, WorldOk, Exec, VolStep, CallOk, Find, InFile, WhereOk;
    WorldFacts(w);
    if Proper(w, r) {
      match r
      case OpenFile(path, fd', append, memOk) =>
        OpenAt(w, path);
        OpenOk(w, Find(w.tree, path).value, fd', append, memOk);
      case Io(fd', c) => FileIn(w, w.where[fd']);
      case Resize(path, _, _, _) =>
        OpenAt(w, path);
        FileIn(w, Find(w.tree, path).value);
      case OpenDir(path, _, _) => OpenAt(w, path);
      case ReadDir(fd') => CursorIn(w, w.where[fd'], fd');
      case CloseDir(_) =>
      case Change(op, mem, node) =>
        VolFits(w);
        TreeEventIs(VolOf(w), op, n);
        DirAtWorld(w, r);
    }
  }

  /** Over every run that leaves the handle open and its directory in the tree, reads return what
      following the links of the changing tree from the cursor returns. */
  lemma {:induction false} ReturnedIsRead<N>(w: World<N>, rs: seq<Request>, ns: seq<N>, fd: nat, d: N)
    requires WorldOk(w) && NodesNew(w, rs, ns) && Holds(w, rs, ns, fd, d)
    ensures Shape(w.tree) && HoldsNow(w, fd, d)
    ensures var cur, evs := w.nodes[d].cursors[fd], Events(w, rs, ns, fd);
            DirCursor.RunOk(w.tree, d, cur, evs) && Returned(w, rs, ns, fd) == DirCursor.Read(w.tree, d, cur, evs)
    decreases |rs|
  {
    hide WorldOk, EventOf, ReadNow, Next, Shape, DirCursor.Change, DirCursor.EventOk;
    WorldFacts(w);
    if rs != [] {
      var u := Next(w, rs[0], ns[0]);
      HoldsOn(u, rs[1..], ns[1..], fd, d);
      StepEvent(w, rs[0], ns[0], fd, d);
      ReturnedIsRead(u, rs[1..], ns[1..], fd, d);
      var ev, rest := EventOf(w, rs[0], ns[0], fd), Events(u, rs[1..], ns[1..], fd);
      if ev == [] {
        assert ev + rest == rest;
      } else {
        assert (ev + rest)[0] == ev[0] && (ev + rest)[1..] == rest;
      }
    }
  }

  lemma HoldsOn<N>(w: World<N>, rs: seq<Request>, ns: seq<N>, fd: nat, d: N)
    requires WorldOk(w) && NodesNew(w, rs, ns) && Holds(w, rs, ns, fd, d)
    ensures HoldsNow(w, fd, d)
  {
    hide WorldOk;
  }

  // ---------- complete enumeration

  /** Nothing is removed or renamed in the run. */
  ghost predicate OnlyAdds<N>(w: World<N>, rs: seq<Request>, ns: seq<N>, fd: nat)
    requires WorldOk(w) && NodesNew(w, rs, ns)
  {
    hide WorldOk;
    forall ev :: ev in Events(w, rs, ns, fd) ==> ev.Next? || ev.Link?
  }

  function Shortened(name: string): string { name[..Min(|name|, DirCursor.NAME_MAX)] }

  /** The names that reads through `fd` are answered with. */
  ghost function Names<N>(w: World<N>, rs: seq<Request>, ns: seq<N>, fd: nat): seq<string>
    requires WorldOk(w) && NodesNew(w, rs, ns)
    decreases |rs|
  {
    hide WorldOk, Step;
    if rs == [] then []
    else
      var now := if rs[0] == ReadDir(fd) && Step(w, rs[0], ns[0]).1.Listed? then [Step(w, rs[0], ns[0]).1.name] else [];
      now + Names(Next(w, rs[0], ns[0]), rs[1..], ns[1..], fd)
  }

  lemma StepName<N>(w: World<N>, r: Request, n: N, fd: nat)
    requires WorldOk(w) && NewNode(w, r, n)
    ensures w.tree.name.Keys == w.tree.kids.Keys
    ensures var a := Step(w, r, n).1;
            if r == ReadDir(fd) && a.Listed? then
              ReadNow(w, r, fd) != [] && ReadNow(w, r, fd)[0] in w.tree.name
              && ReadNow(w, r, fd) == [ReadNow(w, r, fd)[0]] && a.name == Shortened(w.tree.name[ReadNow(w, r, fd)[0]])
            else ReadNow(w, r, fd) == []
  {
    hide Shape, Named, Abs, InodeOk, WorldOk, Exec, VolStep, CallOk, Find, InFile, WhereOk;
    WorldFacts(w);
    Frame(w.tree);
    if r == ReadDir(fd) && Proper(w, r) {
      CursorIn(w, w.where[fd], fd);
    }
  }

  /** A step that removes and renames nothing keeps the names there are. */
  lemma NamesKept<N>(w: World<N>, r: Request, n: N, fd: nat, d: N)
    requires WorldOk(w) && NewNode(w, r, n) && HoldsNow(w, fd, d) && HoldsNow(Next(w, r, n), fd, d)
    requires forall ev :: ev in EventOf(w, r, n, fd) ==> ev.Next? || ev.Link?
    ensures forall x :: x in w.tree.name ==> x in Next(w, r, n).tree.name && Next(w, r, n).tree.name[x] == w.tree.name[x]
  {
    hide WorldOk, EventOf, ReadNow, Next, Shape;
    WorldFacts(w);
    StepEvent(w, r, n, fd, d);
    Frame(w.tree);
    var evs := EventOf(w, r, n, fd);
    if evs != [] {
      assert evs[0] in evs;
    }
  }

  lemma {:induction false} NamesAre<N>(w: World<N>, rs: seq<Request>, ns: seq<N>, fd: nat, d: N)
    requires WorldOk(w) && NodesNew(w, rs, ns) && Holds(w, rs, ns, fd, d) && OnlyAdds(w, rs, ns, fd)
    ensures var got, names := Returned(w, rs, ns, fd), Names(w, rs, ns, fd);
            && |names| == |got|
            && forall i :: 0 <= i < |got| && got[i] in w.tree.name ==> names[i] == Shortened(w.tree.name[got[i]])
    decreases |rs|
  {
    hide WorldOk, EventOf, ReadNow, Next, Step, Shortened;
    if rs != [] {
      var u := Next(w, rs[0], ns[0]);
      HoldsOn(u, rs[1..], ns[1..], fd, d);
      assert forall ev :: ev in EventOf(w, rs[0], ns[0], fd) ==> ev in Events(w, rs, ns, fd);
      assert forall ev :: ev in Events(u, rs[1..], ns[1..], fd) ==> ev in Events(w, rs, ns, fd);
      StepName(w, rs[0], ns[0], fd);
      NamesKept(w, rs[0], ns[0], fd, d);
      NamesAre(u, rs[1..], ns[1..], fd, d);
    }
  }

  /** A directory handle that has just been opened and is read to the end: the answers are the names
      of the children the directory had then, each once and in list order, whatever else is opened,
      written, read, closed, created or made meanwhile. */
  lemma Enumerates<N>(w: World<N>, rs: seq<Request>, ns: seq<N>, fd: nat, d: N)
    requires WorldOk(w) && NodesNew(w, rs, ns) && Holds(w, rs, ns, fd, d) && OnlyAdds(w, rs, ns, fd)
    requires HoldsNow(w, fd, d) && w.nodes[d].cursors[fd] == DirCursor.First(w.tree.kids[d])
    requires DirCursor.Reads(Events(w, rs, ns, fd)) >= |w.tree.kids[d]|
    ensures Returned(w, rs, ns, fd) == w.tree.kids[d] && Distinct(w.tree.kids[d])
    ensures |Names(w, rs, ns, fd)| == |w.tree.kids[d]|
    ensures forall i :: 0 <= i < |w.tree.kids[d]| ==>
              w.tree.kids[d][i] in w.tree.name && Names(w, rs, ns, fd)[i] == Shortened(w.tree.name[w.tree.kids[d][i]])
  {
    hide WorldOk, Events, Returned, Names, Holds, Shape, Shortened;
    ReturnedIsRead(w, rs, ns, fd, d);
    DirCursor.EnumerationIsComplete(w.tree, d, Events(w, rs, ns, fd));
    NamesAre(w, rs, ns, fd, d);
    Frame(w.tree);
    BelowLevel(w.tree, d);
  }
}
