/** Which handles are open after a whole run, and which entries are freed in it. */
module HandleRuns {
  import opened Words
  import opened PathTree
  import opened FlatFs
  import opened FileSpec
  import opened World
  import opened WorldRuns
  import opened TreePaths

  datatype Event = Opened(fd: nat) | Closed(fd: nat)

  ghost predicate Opens<N>(w: World<N>, r: Request)
    requires WorldOk(w)
  {
    Proper(w, r) && ((r.OpenFile? && r.memOk) || (r.OpenDir? && r.memOk))
  }

  ghost predicate Closes<N>(w: World<N>, r: Request)
    requires WorldOk(w)
  {
    Proper(w, r) && (r.CloseDir? || (r.Io? && r.call.Close?))
  }

  /** What a request opens or closes. */
  ghost function EventOf<N>(w: World<N>, r: Request): seq<Event>
    requires WorldOk(w)
  {
    if Opens(w, r) then [Opened(r.fd)] else if Closes(w, r) then [Closed(r.fd)] else []
  }

  ghost function History<N>(w: World<N>, rs: seq<Request>, ns: seq<N>): seq<Event>
    requires WorldOk(w) && NodesNew(w, rs, ns)
    decreases |rs|
  {
    hide WorldOk, EventOf;
    if rs == [] then [] else EventOf(w, rs[0]) + History(Next(w, rs[0], ns[0]), rs[1..], ns[1..])
  }

  /** In this history the descriptor has been opened and not closed since. */
  ghost predicate StillOpen(evs: seq<Event>, fd: nat) {
    exists i :: 0 <= i < |evs| && evs[i] == Opened(fd) && Closed(fd) !in evs[i + 1..]
  }

  lemma StillOpenFrom(ev: seq<Event>, rest: seq<Event>, fd: nat)
    requires |ev| <= 1
    ensures StillOpen(ev + rest, fd) <==> StillOpen(rest, fd) || (ev == [Opened(fd)] && Closed(fd) !in rest)
  {
    var all := ev + rest;
    if StillOpen(rest, fd) {
      var i :| 0 <= i < |rest| && rest[i] == Opened(fd) && Closed(fd) !in rest[i + 1..];
      assert all[|ev| + i] == Opened(fd) && all[|ev| + i + 1..] == rest[i + 1..];
    }
    if ev == [Opened(fd)] && Closed(fd) !in rest {
      assert all[0] == Opened(fd) && all[1..] == rest;
    }
    if StillOpen(all, fd) {
      var i :| 0 <= i < |all| && all[i] == Opened(fd) && Closed(fd) !in all[i + 1..];
      if i >= |ev| {
        assert rest[i - |ev|] == Opened(fd) && rest[i - |ev| + 1..] == all[i + 1..];
      } else {
        assert all[1..] == rest;
      }
    }
  }

  lemma StepOpen<N>(w: World<N>, r: Request, n: N, fd: nat)
    requires WorldOk(w) && NewNode(w, r, n)
    ensures |EventOf(w, r)| <= 1
    ensures fd in Next(w, r, n).where <==>
              EventOf(w, r) == [Opened(fd)] || (fd in w.where && EventOf(w, r) != [Closed(fd)])
  {
    hide TreePaths.Find, WorldOk, InodeOk, Exec, VolStep, CallOk, InFile, PathTree.Shape, PathTree.Named, Abs;
    WorldFacts(w);
    if Proper(w, r) {
      match r
      case OpenFile(path, fd', append, memOk) =>
        OpenAt(w, path);
        OpenOk(w, Find(w.tree, path).value, fd', append, memOk);
      case Io(fd', c) => FileIn(w, w.where[fd']);
      case Resize(path, _, _, _) =>
        OpenAt(w, path);
        FileIn(w, Find(w.tree, path).value);
      case OpenDir(path, _, _) => OpenAt(w, path);
      case ReadDir(fd') => CursorIn(w, w.where[fd'], fd');
      case _ =>
    }
  }

  /** After every run from no open handles, the descriptors in use are exactly those that were opened
      and not closed since, and each is a handle of one entry that has not been freed. */
  lemma OpenHandles<N>(w: World<N>, rs: seq<Request>, ns: seq<N>, fd: nat)
    requires WorldOk(w) && NodesNew(w, rs, ns) && w.where == map[]
    ensures var u := Run(w, rs, ns);
            && (fd in u.where <==> StillOpen(History(w, rs, ns), fd))
            && (fd in u.where ==> u.where[fd] in u.nodes && fd in Fds(u.nodes[u.where[fd]]))
            && (forall e :: e in u.nodes && fd in Fds(u.nodes[e]) ==> fd in u.where && u.where[fd] == e)
  {
    hide Run, History, StillOpen, Fds, PathTree.Shape, PathTree.Named;
    OpenAlong(w, rs, ns, fd);
  }

  lemma {:induction false} OpenAlong<N>(w: World<N>, rs: seq<Request>, ns: seq<N>, fd: nat)
    requires WorldOk(w) && NodesNew(w, rs, ns)
    ensures var h := History(w, rs, ns);
            fd in Run(w, rs, ns).where <==> StillOpen(h, fd) || (fd in w.where && Closed(fd) !in h)
    decreases |rs|
  {
    hide WorldOk, Next, EventOf, StillOpen;
    if rs == [] {
      assert !StillOpen([], fd) by { NoneOpen(fd); }
    } else {
      StepOpen(w, rs[0], ns[0], fd);
      var u := Next(w, rs[0], ns[0]);
      OpenAlong(u, rs[1..], ns[1..], fd);
      StillOpenFrom(EventOf(w, rs[0]), History(u, rs[1..], ns[1..]), fd);
    }
  }

  lemma NoneOpen(fd: nat)
    ensures !StillOpen([], fd)
  {
  }

  lemma NodesStay<N>(w: World<N>, r: Request, n: N)
    requires WorldOk(w) && NewNode(w, r, n) && !r.Change?
    ensures w.nodes.Keys <= Next(w, r, n).nodes.Keys
  {
    hide TreePaths.Find, WorldOk, InodeOk, Exec, VolStep, CallOk, InFile, PathTree.Shape, PathTree.Named, Abs;
    WorldFacts(w);
    if Proper(w, r) {
      match r
      case OpenFile(path, fd', append, memOk) =>
        OpenAt(w, path);
        OpenOk(w, Find(w.tree, path).value, fd', append, memOk);
      case Io(fd', c) => FileIn(w, w.where[fd']);
      case Resize(path, _, _, _) =>
        OpenAt(w, path);
        FileIn(w, Find(w.tree, path).value);
      case OpenDir(path, _, _) => OpenAt(w, path);
      case ReadDir(fd') => CursorIn(w, w.where[fd'], fd');
      case _ =>
    }
  }

  /** An entry is freed only by leaving the tree, and only with no handle on it. */
  lemma FreedIsIdle<N>(w: World<N>, r: Request, n: N, e: N)
    requires WorldOk(w) && NewNode(w, r, n) && e in w.nodes && e !in Next(w, r, n).nodes
    ensures r.Change? && Proper(w, r) && Idle(w.nodes[e]) && e in w.tree.kids && e !in Next(w, r, n).tree.kids
    ensures forall fd :: fd in w.where ==> w.where[fd] != e
  {
    hide WorldOk, VolStep, Proper, Idle;
    WorldFacts(w);
    if r.Change? {
      NotHere(w, e);
    } else {
      NodesStay(w, r, n);
    }
  }

  lemma NotHere<N>(w: World<N>, e: N)
    requires WorldOk(w) && e in w.nodes
    ensures Idle(w.nodes[e]) ==> forall fd :: fd in w.where ==> w.where[fd] != e
  {
    hide PathTree.Shape, PathTree.Named;
  }
}
