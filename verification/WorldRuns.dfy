/** Whole runs of the file system: what each file, each directory handle, each descriptor and the
    paths see of a run of any requests. */
module WorldRuns {
  import opened Words
  import opened Lists
  import opened PathTree
  import opened TreeSteps
  import opened TreePaths
  import opened FlatFs
  import opened FileSpec
  import opened World
  import DirCursor

  ghost function Next<N>(w: World<N>, r: Request, n: N): (u: World<N>)
    requires WorldOk(w) && NewNode(w, r, n)
    ensures WorldOk(u) && u == Step(w, r, n).0
  {
    hide WorldOk, Step;
    StepOk(w, r, n);
    Step(w, r, n).0
  }

  /** The nodes made in a run are new when they are made. */
  ghost predicate NodesNew<N>(w: World<N>, rs: seq<Request>, ns: seq<N>)
    requires WorldOk(w)
    decreases |rs|
  {
    hide WorldOk, Step;
    && |rs| == |ns|
    && (rs != [] ==> NewNode(w, rs[0], ns[0]) && NodesNew(Next(w, rs[0], ns[0]), rs[1..], ns[1..]))
  }

  ghost function Run<N>(w: World<N>, rs: seq<Request>, ns: seq<N>): (u: World<N>)
    requires WorldOk(w) && NodesNew(w, rs, ns)
    ensures WorldOk(u)
    decreases |rs|
  {
    hide WorldOk, Step;
    if rs == [] then w else Run(Next(w, rs[0], ns[0]), rs[1..], ns[1..])
  }

  ghost function Answers<N>(w: World<N>, rs: seq<Request>, ns: seq<N>): (s: seq<Answer>)
    requires WorldOk(w) && NodesNew(w, rs, ns)
    ensures |s| == |rs|
    decreases |rs|
  {
    hide WorldOk, Step;
    if rs == [] then [] else [Step(w, rs[0], ns[0]).1] + Answers(Next(w, rs[0], ns[0]), rs[1..], ns[1..])
  }

  // ---------- paths and bytes

  /** What a request means to a user of paths and bytes, if it means anything. */
  ghost function Effect<N>(w: World<N>, r: Request): seq<Op<()>>
    requires WorldOk(w)
  {
    hide Shape, Named, Abs, InodeOk, Exec;
    if !Proper(w, r) then []
    else match r
      case Change(op, mem, node) => if Served(op, mem, node) then [op] else []
      case Io(fd, c) =>
        var e := w.where[fd];
        FileIn(w, e);
        if e in w.tree.kids then [Update(PathOf(w.tree, e), Exec(w.nodes[e].file, c).0.content)] else []
      case Resize(path, size, junk, memOk) =>
        OpenAt(w, path);
        var e := Find(w.tree, path).value;
        FileIn(w, e);
        [Update(path, Exec(w.nodes[e].file, Call.SetSize(size, junk, memOk)).0.content)]
      case _ => []
  }

  lemma KindIn<N>(w: World<N>, e: N)
    requires WorldOk(w) && e in w.tree.kids
    ensures e in w.nodes && (w.nodes[e].isDir <==> e in w.tree.dirs) && Shape(w.tree)
  {
    hide Shape, Named, WhereOk;
    assert InodeOk(w, e);
  }

  lemma IoShown<N>(w: World<N>, e: N, f: File<nat>, where': map<nat, N>)
    requires WorldOk(w) && e in w.nodes && !w.nodes[e].isDir && WorldOk(PutFile(w, e, f).(where := where'))
    ensures e in w.tree.kids ==> Shape(w.tree)
    ensures Shown(PutFile(w, e, f).(where := where')) ==
            if e in w.tree.kids then FlatStep(Shown(w), Op<()>.Update(PathOf(w.tree, e), f.content)) else Shown(w)
  {
    hide Shape, Named, Abs, FlatStep, VolStep, WorldOk, VolOf;
    var now := PutFile(w, e, f).(where := where');
    WorldFacts(w);
    VolFits(w);
    VolFits(now);
    var v := VolOf(w);
    SameVol(w, now, e, f);
    if e in w.tree.kids {
      KindIn(w, e);
      UpdateIsStep(v, e, f.content);
      StepRefines(v, Op<N>.Update(PathOf(w.tree, e), f.content));
      SameUpdate<N>(Abs(v), PathOf(w.tree, e), f.content);
    }
  }

  lemma SameVol<N>(w: World<N>, now: World<N>, e: N, f: File<nat>)
    requires w.tree.kids.Keys <= w.nodes.Keys && e in w.nodes && now.tree == w.tree
    requires now.nodes == w.nodes[e := w.nodes[e].(file := f)]
    ensures VolOf(w).tree == w.tree
    ensures VolOf(now) == if e in w.tree.kids then VolOf(w).(bytes := VolOf(w).bytes[e := f.content]) else VolOf(w)
  {
  }

  lemma SameUpdate<N>(f: Flat, path: string, content: seq<byte>)
    ensures FlatStep(f, Op<N>.Update(path, content)) == FlatStep(f, Op<()>.Update(path, content))
  {
  }

  lemma SameShown<N>(w: World<N>, u: World<N>)
    requires WorldOk(w) && WorldOk(u) && u.tree == w.tree
    requires forall e :: e in w.tree.kids ==> u.nodes[e].file.content == w.nodes[e].file.content
    ensures Shown(u) == Shown(w)
  {
    hide Shape, Named, Abs;
    assert VolOf(u) == VolOf(w);
  }

  /** Each request changes what paths show as its effect says. */
  lemma StepShown<N>(w: World<N>, r: Request, n: N)
    requires WorldOk(w) && NewNode(w, r, n)
    ensures Shown(Next(w, r, n)) == FlatRun(Shown(w), Effect(w, r))
  {
    hide Shape, Named, Abs, InodeOk, WorldOk, Exec, VolStep, CallOk, Fds, FlatStep, Find;
    WorldFacts(w);
    FlatOne(Shown(w), Effect(w, r));
    var u := Next(w, r, n);
    if Proper(w, r) {
      match r
      case Change(op, mem, node) => ChangeOk(w, op, mem, node, n);
      case Io(fd, c) =>
        var e := w.where[fd];
        FileIn(w, e);
        IoShown(w, e, Exec(w.nodes[e].file, c).0, u.where);
      case Resize(path, size, junk, memOk) =>
        OpenAt(w, path);
        var e := Find(w.tree, path).value;
        FileIn(w, e);
        IoShown(w, e, Exec(w.nodes[e].file, Call.SetSize(size, junk, memOk)).0, u.where);
      case OpenFile(path, fd, append, memOk) =>
        OpenAt(w, path);
        var e := Find(w.tree, path).value;
        OpenOk(w, e, fd, append, memOk);
        ExecOffs(w.nodes[e].file, Call.Open(fd, append, memOk));
        SameShown(w, u);
      case OpenDir(path, _, _) =>
        OpenAt(w, path);
        SameShown(w, u);
      case ReadDir(fd) =>
        CursorIn(w, w.where[fd], fd);
        SameShown(w, u);
      case CloseDir(_) => SameShown(w, u);
    }
  }

  lemma FlatOne(f: Flat, ops: seq<Op<()>>)
    ensures ops == [] ==> FlatRun(f, ops) == f
    ensures |ops| == 1 ==> FlatRun(f, ops) == FlatStep(f, ops[0])
  {
    hide FlatStep;
    if |ops| == 1 {
      assert ops[1..] == [];
    }
  }

  ghost function Effects<N>(w: World<N>, rs: seq<Request>, ns: seq<N>): seq<Op<()>>
    requires WorldOk(w) && NodesNew(w, rs, ns)
    decreases |rs|
  {
    hide WorldOk, Effect;
    if rs == [] then [] else Effect(w, rs[0]) + Effects(Next(w, rs[0], ns[0]), rs[1..], ns[1..])
  }

  lemma {:induction false} FlatConcat(f: Flat, a: seq<Op<()>>, b: seq<Op<()>>)
    ensures FlatRun(f, a + b) == FlatRun(FlatRun(f, a), b)
    decreases |a|
  {
    hide FlatStep;
    if a == [] {
      assert a + b == b;
    } else {
      assert (a + b)[1..] == a[1..] + b;
      FlatConcat(FlatStep(f, a[0]), a[1..], b);
    }
  }

  /** Over every run, paths show what the flat volume shows after the effects of the run. */
  lemma {:induction false} RunShown<N>(w: World<N>, rs: seq<Request>, ns: seq<N>)
    requires WorldOk(w) && NodesNew(w, rs, ns)
    ensures Shown(Run(w, rs, ns)) == FlatRun(Shown(w), Effects(w, rs, ns))
    decreases |rs|
  {
    hide WorldOk, Effect, Shown, Next;
    if rs != [] {
      var u := Next(w, rs[0], ns[0]);
      StepShown(w, rs[0], ns[0]);
      RunShown(u, rs[1..], ns[1..]);
      FlatConcat(Shown(w), Effect(w, rs[0]), Effects(u, rs[1..], ns[1..]));
    }
  }

  // ---------- one file

  /** The call that a request makes on a file, if it makes one. */
  ghost function CallOf<N>(w: World<N>, r: Request, e: N): seq<Call<nat>>
    requires WorldOk(w)
  {
    hide Abs, InodeOk, Find;
    WorldFacts(w);
    if !Proper(w, r) then []
    else match r
      case OpenFile(path, fd, append, memOk) => if Find(w.tree, path) == Some(e) then [Call.Open(fd, append, memOk)] else []
      case Io(fd, c) => if w.where[fd] == e then [c] else []
      case Resize(path, size, junk, memOk) => if Find(w.tree, path) == Some(e) then [Call.SetSize(size, junk, memOk)] else []
      case _ => []
  }

  /** The entry is there before every request of the run and after the last, in the tree or not. */
  ghost predicate Lives<N>(w: World<N>, rs: seq<Request>, ns: seq<N>, e: N)
    requires WorldOk(w) && NodesNew(w, rs, ns)
    decreases |rs|
  {
    hide WorldOk, Step;
    e in w.nodes && (rs != [] ==> Lives(Next(w, rs[0], ns[0]), rs[1..], ns[1..], e))
  }

  ghost function Calls<N>(w: World<N>, rs: seq<Request>, ns: seq<N>, e: N): seq<Call<nat>>
    requires WorldOk(w) && NodesNew(w, rs, ns)
    decreases |rs|
  {
    hide WorldOk, CallOf;
    if rs == [] then [] else CallOf(w, rs[0], e) + Calls(Next(w, rs[0], ns[0]), rs[1..], ns[1..], e)
  }

  lemma StepCalls<N>(w: World<N>, r: Request, n: N, e: N)
    requires WorldOk(w) && NewNode(w, r, n) && e in w.nodes && e in Next(w, r, n).nodes && !w.nodes[e].isDir
    ensures InFile(w.nodes[e].file) && !Next(w, r, n).nodes[e].isDir
    ensures var cs := CallOf(w, r, e);
            && |cs| <= 1 && (cs != [] ==> CallOk(w.nodes[e].file, cs[0]))
            && Next(w, r, n).nodes[e].file == if cs == [] then w.nodes[e].file else FileSpec.After(w.nodes[e].file, cs[0])
  {
    hide Shape, Named, Abs, InodeOk, WorldOk, Exec, VolStep, CallOk, Fds, Find, InFile;
    WorldFacts(w);
    FileIn(w, e);
    if Proper(w, r) {
      match r
      case OpenFile(path, fd, append, memOk) =>
        OpenAt(w, path);
        OpenOk(w, Find(w.tree, path).value, fd, append, memOk);
      case Io(fd, c) => FileIn(w, w.where[fd]);
      case Resize(path, _, _, _) =>
        OpenAt(w, path);
        FileIn(w, Find(w.tree, path).value);
      case OpenDir(path, _, _) => OpenAt(w, path);
      case ReadDir(fd) => CursorIn(w, w.where[fd], fd);
      case _ =>
    }
  }

  /** Over every run, each file goes through exactly the calls made on it, on whatever handle, under
      whatever path, and also after it has been removed. */
  lemma {:induction false} FileFollows<N>(w: World<N>, rs: seq<Request>, ns: seq<N>, e: N)
    requires WorldOk(w) && NodesNew(w, rs, ns) && Lives(w, rs, ns, e) && !w.nodes[e].isDir
    ensures InFile(w.nodes[e].file) && e in Run(w, rs, ns).nodes
    ensures CallsOk(w.nodes[e].file, Calls(w, rs, ns, e))
    ensures Run(w, rs, ns).nodes[e].file == RunFile(w.nodes[e].file, Calls(w, rs, ns, e))
    decreases |rs|
  {
    hide WorldOk, CallOf, Next, CallOk, InFile, Exec;
    FileIn(w, e);
    if rs != [] {
      var u := Next(w, rs[0], ns[0]);
      LivesOn(u, rs[1..], ns[1..], e);
      StepCalls(w, rs[0], ns[0], e);
      FileFollows(u, rs[1..], ns[1..], e);
      var c, rest := CallOf(w, rs[0], e), Calls(u, rs[1..], ns[1..], e);
      if c == [] {
        assert c + rest == rest;
      } else {
        assert (c + rest)[0] == c[0] && (c + rest)[1..] == rest;
      }
    }
  }

  lemma LivesOn<N>(w: World<N>, rs: seq<Request>, ns: seq<N>, e: N)
    requires WorldOk(w) && NodesNew(w, rs, ns) && Lives(w, rs, ns, e)
    ensures e in w.nodes
  {
    hide WorldOk;
  }

  /** So the content of a file is made by exactly the puts that took effect on it in the run. */
  lemma FileIsMade<N>(w: World<N>, rs: seq<Request>, ns: seq<N>, e: N, done: seq<Put>)
    requires WorldOk(w) && NodesNew(w, rs, ns) && Lives(w, rs, ns, e) && !w.nodes[e].isDir
    requires MadeBy(w.nodes[e].file.content, done)
    ensures e in Run(w, rs, ns).nodes && InFile(w.nodes[e].file) && CallsOk(w.nodes[e].file, Calls(w, rs, ns, e))
    ensures MadeBy(Run(w, rs, ns).nodes[e].file.content, Puts(w.nodes[e].file, done, Calls(w, rs, ns, e)))
  {
    hide WorldOk, Calls, Run, MadeBy, CallsOk, RunFile, Puts, InFile;
    FileFollows(w, rs, ns, e);
    LastWriteWins(w.nodes[e].file, done, Calls(w, rs, ns, e));
  }
}
