/** The one thing about directory handles that the virtual file system is left to see to: an entry that
    a handle is about to return must not be taken out of its directory. */
module LostCursors {
  import opened Lists
  import opened PathTree
  import opened TreeSteps
  import opened TreePaths
  import opened FlatFs
  import opened FileSpec
  import opened World

  /** A removal or rename that acts: the directory, the entry and, for a rename, the new directory. */
  ghost predicate Acts<N>(w: World<N>, op: Op<()>, n: N, d: N, x: N)
    requires WorldOk(w)
  {
    WorldFacts(w);
    hide WorldOk, Shape, Named;
    && (op.Remove? || op.Rmdir? || op.Rename?) && Legal(Shown(w), op)
    && Find(w.tree, op.dir) == Some(d) && Find(w.tree, Join(op.dir, op.name)) == Some(x)
    && VolStep(VolOf(w), With(op, n)) != VolOf(w)
  }

  /** The list that `x` was in, after the step. */
  lemma ListAfter<N>(w: World<N>, op: Op<()>, n: N, d: N, x: N)
    requires WorldOk(w) && Acts(w, op, n, d, x)
    ensures Shape(w.tree) && d in w.tree.kids && x in w.tree.kids[d] && d != x
    ensures var u := VolStep(VolOf(w), With(op, n)).tree;
            d in u.kids && (x in u.kids[d] <==> op.Rename? && op.newDir == op.dir)
  {
    hide Shape, Named, Abs, Find, MovedTrail;
    WorldFacts(w);
    VolFits(w);
    var v, t := VolOf(w), w.tree;
    DirAt(v, op.dir);
    EntryAt(v, op.dir, op.name);
    ListIn(t, d);
    WithoutDistinct(t.kids[d], x);
    ChildFacts(t, d, x);
    if op.Rename? {
      DirAt(v, op.newDir);
      assert op.newDir == op.dir <==> At(t, op.newDir) == d;
    }
  }

  /** Cursors at an entry are those of the directory it is in. */
  lemma CursorsAt<N>(w: World<N>, d: N, x: N)
    requires WorldOk(w) && d in w.tree.kids && x in w.tree.kids[d]
    ensures forall e, fd :: e in w.nodes && fd in w.nodes[e].cursors && w.nodes[e].cursors[fd] == Some(x) ==> e == d
  {
    hide Shape, Named;
    forall e, fd | e in w.nodes && fd in w.nodes[e].cursors && w.nodes[e].cursors[fd] == Some(x) ensures e == d {
      assert InodeOk(w, e);
      OneParent(w.tree, e, d, x);
    }
  }

  lemma InodeStays<N>(w: World<N>, u: Tree<N>, d: N, x: N, e: N)
    requires w.tree.kids.Keys <= w.nodes.Keys && Outlives(w.tree, u, Some(x), None)
    requires Unread(w, x) || (d in u.kids && x in u.kids[d])
    requires forall e, fd :: e in w.nodes && fd in w.nodes[e].cursors && w.nodes[e].cursors[fd] == Some(x) ==> e == d
    requires e in w.nodes && InodeOk(w, e) && e in ChangeTo(w, u).nodes
    ensures InodeOk(ChangeTo(w, u), e)
  {
    hide InFile;
    var i := w.nodes[e];
    forall fd | fd in i.cursors && i.cursors[fd].Some? ensures e in u.kids && i.cursors[fd].value in u.kids[e] {
      assert i.cursors[fd] == Some(x) ==> e == d;
    }
  }

  lemma StaysOk<N>(w: World<N>, u: Tree<N>, d: N, x: N)
    requires WorldOk(w) && Wf(u) && Outlives(w.tree, u, Some(x), None)
    requires Unread(w, x) || (d in u.kids && x in u.kids[d])
    requires forall e, fd :: e in w.nodes && fd in w.nodes[e].cursors && w.nodes[e].cursors[fd] == Some(x) ==> e == d
    ensures WorldOk(ChangeTo(w, u))
  {
    hide Shape, Named, InodeOk, WhereOk, Unread;
    var now := ChangeTo(w, u);
    forall e | e in now.nodes ensures InodeOk(now, e) {
      assert e in w.nodes && InodeOk(w, e);
      InodeStays(w, u, d, x, e);
    }
    ChangedWhere(w, u);
  }

  /** Every directory cursor still points into the list of its directory exactly when no handle was
      about to return the entry, or the entry is renamed within its directory. */
  lemma LostCursorIff<N>(w: World<N>, op: Op<()>, n: N, d: N, x: N)
    requires WorldOk(w) && Acts(w, op, n, d, x) && w.tree.kids.Keys <= w.nodes.Keys
    ensures WorldOk(ChangeTo(w, VolStep(VolOf(w), With(op, n)).tree)) <==>
            Unread(w, x) || (op.Rename? && op.newDir == op.dir)
  {
    ListAfter(w, op, n, d, x);
    CursorsAt(w, d, x);
    StepIs(w, op, n, d, x);
    hide WorldOk, Acts, VolStep, Outlives, VolOf, Shape, Named;
    var u := VolStep(VolOf(w), With(op, n)).tree;
    if Unread(w, x) || (op.Rename? && op.newDir == op.dir) {
      StaysOk(w, u, d, x);
    } else {
      var e, fd :| e in w.nodes && fd in w.nodes[e].cursors && w.nodes[e].cursors[fd] == Some(x);
      Lost(w, u, d, x, fd);
    }
  }

  lemma StepIs<N>(w: World<N>, op: Op<()>, n: N, d: N, x: N)
    requires WorldOk(w) && Acts(w, op, n, d, x)
    ensures w.tree.kids.Keys <= w.nodes.Keys
    ensures var u := VolStep(VolOf(w), With(op, n)).tree; Wf(u) && Outlives(w.tree, u, Some(x), None)
  {
    hide Shape, Named, Abs, VolStep, FlatStep, Find, Outlives;
    VolFits(w);
    StepOutlives(VolOf(w), op, n);
    assert Legal(Abs(VolOf(w)), With(op, n));
    StepRefines(VolOf(w), With(op, n));
  }

  lemma Lost<N>(w: World<N>, u: Tree<N>, d: N, x: N, fd: nat)
    requires d in w.nodes && fd in w.nodes[d].cursors && w.nodes[d].cursors[fd] == Some(x)
    requires d in u.kids && x !in u.kids[d]
    ensures !WorldOk(ChangeTo(w, u))
  {
    hide Shape, Named, InFile;
    var now := ChangeTo(w, u);
    assert d in now.nodes && now.nodes[d] == w.nodes[d];
    assert !InodeOk(now, d);
  }

  // ---------- such an input

  /** A root with the directories "a" and "b", and "c" in "a", where a handle on "a" is about to return
      "c". */
  function Reading(): World<nat> {
    World(Sample(),
          map[0 := Fresh(true), 1 := Inode(true, File([], map[]), map[7 := Some(3)]), 2 := Fresh(true), 3 := Fresh(true)],
          map[7 := 1])
  }

  lemma ReadingOk()
    ensures WorldOk(Reading())
  {
    var w := Reading();
    SampleOk();
    hide Shape, Named;
    NewFileOk();
    hide InFile;
    assert InodeOk(w, 0) && InodeOk(w, 1) && InodeOk(w, 2) && InodeOk(w, 3);
  }

  lemma SamplePaths()
    ensures Wf(Sample()) && PathOf(Sample(), 1) == "/md/a" && PathOf(Sample(), 3) == Join("/md/a", "c")
  {
    var t := Sample();
    SampleOk();
    hide Shape, Named;
    assert [0, 1][1..] == [1] && [0, 1, 3][1..] == [1, 3] && [1, 3][1..] == [3];
    assert Spell(t.name, [3]) == "/c";
    assert Spell(t.name, [1]) == "/a";
    assert Spell(t.name, [0, 1]) == "/md/a";
    assert Spell(t.name, [1, 3]) == "/a/c";
    assert Spell(t.name, [0, 1, 3]) == "/md/a/c";
  }

  function Removal(): Op<()> { Rmdir("/md/a", "c") }

  lemma SampleFinds()
    ensures Wf(Sample()) && Find(Sample(), "/md/a") == Some(1) && Find(Sample(), Join("/md/a", "c")) == Some(3)
  {
    SamplePaths();
    hide Shape, Named, PathOf;
    FindIff(Sample(), "/md/a", 1);
    FindIff(Sample(), Join("/md/a", "c"), 3);
  }

  /** The step that removes "c". */
  lemma RemovalIs(n: nat)
    ensures WorldOk(Reading()) && Reading().tree.kids.Keys <= Reading().nodes.Keys && Shape(Reading().tree)
    ensures var v, u := VolOf(Reading()), VolStep(VolOf(Reading()), With(Removal(), n));
            u != v && u.tree == Unlink(Sample(), 1, 3) && 3 !in u.tree.kids && 1 in u.tree.kids
  {
    SampleFinds();
    ReadingOk();
    hide Shape, Named, Find, WorldOk;
    assert Reading().tree == Sample();
  }

  lemma RemovalActs(n: nat)
    ensures WorldOk(Reading()) && Acts(Reading(), Removal(), n, 1, 3)
  {
    SampleFinds();
    RemovalIs(n);
    hide Shape, Named, Abs, WorldOk, Find, VolStep;
    VolFits(Reading());
    AbsAt(VolOf(Reading()), "/md/a");
    assert PlainName("c");
  }

  /** Removing the directory "c" then leaves that handle pointing out of the list, at an entry that has
      been freed. */
  lemma CursorLost(n: nat)
    ensures WorldOk(Reading()) && Acts(Reading(), Removal(), n, 1, 3)
    ensures var now := ChangeTo(Reading(), Unlink(Sample(), 1, 3));
            !WorldOk(now) && 3 !in now.nodes && 1 in now.nodes && now.nodes[1].cursors == map[7 := Some(3)]
  {
    RemovalActs(n);
    RemovalIs(n);
    hide Shape, Named, Acts, Unlink, VolStep, WorldOk;
    LostCursorIff(Reading(), Removal(), n, 1, 3);
    assert Reading().nodes[1].cursors[7] == Some(3);
  }
}
