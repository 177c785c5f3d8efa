/** The volume as its users see it: a map from paths to bytes and a set of directory paths.
    Every run of create, mkdir, remove, rmdir, rename and file updates on the linked tree is
    shown to be a run of the obvious operations on that flat volume. */
module FlatFs {
  import opened Words
  import opened PathTree
  import opened TreeSteps
  import opened TreePaths

  datatype Flat = Flat(files: map<string, seq<byte>>, dirs: set<string>)

  datatype Op<N> =
    | Create(dir: string, name: string, node: N)
    | Mkdir(dir: string, name: string, node: N)
    | Remove(dir: string, name: string)
    | Rmdir(dir: string, name: string)
    | Rename(dir: string, name: string, newDir: string, newName: string)
    | Update(path: string, content: seq<byte>)

  function Join(dir: string, name: string): string {
    dir + "/" + name
  }

  // ---------- the flat volume

  predicate Taken(f: Flat, p: string) {
    p in f.files || p in f.dirs
  }

  /** Some path lies strictly below. */
  ghost predicate Populated(f: Flat, p: string) {
    exists q :: Taken(f, q) && q != p && Under(q, p)
  }

  function Rebase(p: string, old_: string, new_: string): string {
    if Under(p, old_) then new_ + p[|old_|..] else p
  }

  function Unbase(p: string, old_: string, new_: string): string {
    if Under(p, new_) then old_ + p[|new_|..] else p
  }

  ghost function FlatRename(f: Flat, old_: string, new_: string): Flat {
    Flat(map p | p in (set q | q in f.files :: Rebase(q, old_, new_)) && Unbase(p, old_, new_) in f.files
           :: f.files[Unbase(p, old_, new_)],
         set q | q in f.dirs :: Rebase(q, old_, new_))
  }

  // ---------- what the kernel answers

  /** Which of the heap allocations made for a new entry succeed: the entry itself, the first
      copy of the name (tested and dropped), and the second copy (kept, untested). */
  datatype Memory = Memory(entry: bool, name: bool, nameAgain: bool)

  /** What creating a vnode and waiting for it return. */
  datatype NodeResult = NodeResult(create: int, wait: int) {
    function Code(): (r: int)
      ensures create < 0 ==> r == create
      ensures create >= 0 ==> r == if wait < 0 then wait else 0
    {
      if create < 0 then create else if wait < 0 then wait else 0
    }
  }

  /** What each operation means to a user of paths. */
  ghost function FlatStep<N>(f: Flat, op: Op<N>): Flat {
    match op
    case Create(dir, name, _) =>
      if Taken(f, Join(dir, name)) then f else f.(files := f.files[Join(dir, name) := []])
    case Mkdir(dir, name, _) =>
      if Taken(f, Join(dir, name)) then f else f.(dirs := f.dirs + {Join(dir, name)})
    case Remove(dir, name) =>
      f.(files := f.files - {Join(dir, name)})
    case Rmdir(dir, name) =>
      var p := Join(dir, name);
      if Populated(f, p) then f else f.(dirs := f.dirs - {p})
    case Rename(dir, name, newDir, newName) =>
      if Taken(f, Join(dir, name)) then FlatRename(f, Join(dir, name), Join(newDir, newName)) else f
    case Update(path, content) =>
      if path in f.files then f.(files := f.files[path := content]) else f
  }

  /** What the virtual file system guarantees before it calls an operation. */
  ghost predicate Legal<N>(f: Flat, op: Op<N>) {
    match op
    case Create(dir, name, _) => dir in f.dirs && PlainName(name)
    case Mkdir(dir, name, _) => dir in f.dirs && PlainName(name)
    case Remove(dir, name) => dir in f.dirs && PlainName(name)
    case Rmdir(dir, name) => dir in f.dirs && PlainName(name)
    case Rename(dir, name, newDir, newName) =>
      && dir in f.dirs && PlainName(name)
      && newDir in f.dirs && PlainName(newName)
      && !Taken(f, Join(newDir, newName))
      && !Under(newDir, Join(dir, name))
    case Update(_, _) => true
  }

  // ---------- the linked tree

  datatype Vol<N> = Vol(tree: Tree<N>, bytes: map<N, seq<byte>>)

  ghost predicate VolOk<N>(v: Vol<N>) {
    Wf(v.tree) && v.tree.kids.Keys <= v.bytes.Keys
  }

  ghost function VolStep<N>(v: Vol<N>, op: Op<N>): Vol<N>
    requires Shape(v.tree)
  {
    var t := v.tree;
    match op
    case Create(dir, name, n) =>
      if Find(t, Join(dir, name)).Some? || Find(t, dir).None? then v
      else Vol(LinkNew(t, At(t, dir), n, name, false), v.bytes[n := []])
    case Mkdir(dir, name, n) =>
      if Find(t, Join(dir, name)).Some? || Find(t, dir).None? then v
      else Vol(LinkNew(t, At(t, dir), n, name, true), v.bytes[n := []])
    case Remove(dir, name) =>
      if Find(t, Join(dir, name)).None? || Find(t, dir).None? || At(t, Join(dir, name)) in t.dirs then v
      else Vol(Unlink(t, At(t, dir), At(t, Join(dir, name))), v.bytes - {At(t, Join(dir, name))})
    case Rmdir(dir, name) =>
      if Find(t, Join(dir, name)).None? || Find(t, dir).None? then v
      else
        var e := At(t, Join(dir, name));
        if t.kids[e] != [] || e !in t.dirs then v else Vol(Unlink(t, At(t, dir), e), v.bytes - {e})
    case Rename(dir, name, newDir, newName) =>
      if Find(t, Join(dir, name)).None? || Find(t, dir).None? || Find(t, newDir).None? then v
      else Vol(Move(t, At(t, dir), At(t, Join(dir, name)), At(t, newDir), newName), v.bytes)
    case Update(path, content) =>
      if Find(t, path).None? || At(t, path) in t.dirs then v
      else v.(bytes := v.bytes[At(t, path) := content])
  }

  ghost function At<N>(t: Tree<N>, p: string): (e: N)
    requires Shape(t) && Find(t, p).Some?
    ensures e in t.kids
  {
    hide Shape;
    FindsEntries(t, p);
    Find(t, p).value
  }

  lemma FindsEntries<N>(t: Tree<N>, p: string)
    requires Shape(t)
    ensures Find(t, p).Some? ==> Find(t, p).value in t.kids
  {
    hide Shape;
    if Find(t, p).Some? {
      RootLevel(t);
      ScanSound(t, [t.root], [], p, 0);
    }
  }

  /** The nodes of an operation are new to the volume. */
  ghost predicate FreshNode<N>(v: Vol<N>, op: Op<N>) {
    (op.Create? || op.Mkdir?) ==> op.node !in v.tree.kids
  }

  // ---------- the abstraction

  ghost function Paths<N>(t: Tree<N>, nodes: set<N>): set<string>
    requires Shape(t) && nodes <= t.kids.Keys
  {
    set e | e in nodes :: PathOf(t, e)
  }

  ghost function Abs<N>(v: Vol<N>): Flat
    requires VolOk(v)
  {
    var t := v.tree;
    FilePathsFind(t);
    Flat(map p | p in Paths(t, t.kids.Keys - t.dirs) :: v.bytes[At(t, p)],
         Paths(t, t.dirs * t.kids.Keys))
  }

  lemma FilePathsFind<N>(t: Tree<N>)
    requires Wf(t)
    ensures forall p :: p in Paths(t, t.kids.Keys - t.dirs) ==> Find(t, p).Some?
  {
    hide Shape, Named;
    forall p | p in Paths(t, t.kids.Keys - t.dirs) ensures Find(t, p).Some? {
      var e :| e in t.kids && PathOf(t, e) == p;
      FindIff(t, p, e);
    }
  }

  /** What the abstraction says about one path. */
  lemma AbsAt<N>(v: Vol<N>, p: string)
    requires VolOk(v)
    ensures p in Abs(v).files <==> Find(v.tree, p).Some? && At(v.tree, p) !in v.tree.dirs
    ensures p in Abs(v).dirs <==> Find(v.tree, p).Some? && At(v.tree, p) in v.tree.dirs
    ensures p in Abs(v).files ==> Abs(v).files[p] == v.bytes[At(v.tree, p)]
    ensures Taken(Abs(v), p) <==> Find(v.tree, p).Some?
  {
    hide Shape, Named;
    var t := v.tree;
    FoundInTree(t, p);
    forall e | e in t.kids && PathOf(t, e) == p ensures Find(t, p) == Some(e) {
      FindIff(t, p, e);
    }
  }

  predicate SameAt(f: Flat, g: Flat, p: string) {
    && (p in f.files <==> p in g.files)
    && (p in f.files ==> f.files[p] == g.files[p])
    && (p in f.dirs <==> p in g.dirs)
  }

  lemma FlatEqual(f: Flat, g: Flat)
    requires forall p :: SameAt(f, g, p)
    ensures f == g
  {
    assert forall p :: p in f.files <==> p in g.files by {
      forall p ensures p in f.files <==> p in g.files { assert SameAt(f, g, p); }
    }
    assert forall p :: p in f.files ==> f.files[p] == g.files[p] by {
      forall p | p in f.files ensures f.files[p] == g.files[p] { assert SameAt(f, g, p); }
    }
    assert f.dirs == g.dirs by {
      forall p ensures p in f.dirs <==> p in g.dirs { assert SameAt(f, g, p); }
    }
  }

  // ---------- one operation at a time, at one path

  lemma DirAt<N>(v: Vol<N>, dir: string)
    requires VolOk(v) && dir in Abs(v).dirs
    ensures Find(v.tree, dir).Some? && At(v.tree, dir) in v.tree.dirs && PathOf(v.tree, At(v.tree, dir)) == dir
  {
    hide Shape, Named;
    AbsAt(v, dir);
    FoundInTree(v.tree, dir);
  }

  /** Entry and directory of "directory path, name" operations: the entry hangs in the
      directory's sibling list. */
  lemma EntryAt<N>(v: Vol<N>, dir: string, name: string)
    requires VolOk(v) && dir in Abs(v).dirs && PlainName(name) && Find(v.tree, Join(dir, name)).Some?
    ensures Find(v.tree, dir).Some?
    ensures var e := At(v.tree, Join(dir, name));
            e in v.tree.kids[At(v.tree, dir)] && PathOf(v.tree, e) == Join(dir, name)
  {
    hide Shape, Named;
    DirAt(v, dir);
    FoundInTree(v.tree, Join(dir, name));
    OnlyChild(v.tree, At(v.tree, dir), At(v.tree, Join(dir, name)), name);
  }

  lemma NewEntryAt<N>(v: Vol<N>, dir: string, name: string, n: N, isDir: bool, p: string)
    requires VolOk(v) && dir in Abs(v).dirs && PlainName(name) && n !in v.tree.kids
    requires Find(v.tree, Join(dir, name)).None? && Find(v.tree, dir).Some?
    ensures var w := Vol(LinkNew(v.tree, At(v.tree, dir), n, name, isDir), v.bytes[n := []]);
            var f := Abs(v);
            VolOk(w) && SameAt(Abs(w), if isDir then f.(dirs := f.dirs + {Join(dir, name)})
                                       else f.(files := f.files[Join(dir, name) := []]), p)
  {
    hide Shape, Named, Abs;
    DirAt(v, dir);
    Frame(v.tree);
    var d := At(v.tree, dir);
    var w := Vol(LinkNew(v.tree, d, n, name, isDir), v.bytes[n := []]);
    AfterLink(v.tree, d, n, name, isDir, p);
    assert VolOk(w);
    AbsAt(v, p);
    AbsAt(w, p);
    FoundInTree(v.tree, p);
  }

  lemma GoneEntryAt<N>(v: Vol<N>, dir: string, name: string, p: string)
    requires VolOk(v) && dir in Abs(v).dirs && PlainName(name)
    requires Find(v.tree, Join(dir, name)).Some? && Find(v.tree, dir).Some?
    requires v.tree.kids[At(v.tree, Join(dir, name))] == []
    ensures var w := Vol(Unlink(v.tree, At(v.tree, dir), At(v.tree, Join(dir, name))), v.bytes - {At(v.tree, Join(dir, name))});
            var f := Abs(v);
            VolOk(w) && SameAt(Abs(w), Flat(f.files - {Join(dir, name)}, f.dirs - {Join(dir, name)}), p)
  {
    hide Shape, Named, Abs;
    EntryAt(v, dir, name);
    var e := At(v.tree, Join(dir, name));
    ChildFacts(v.tree, At(v.tree, dir), e);
    var w := Vol(Unlink(v.tree, At(v.tree, dir), e), v.bytes - {e});
    AfterUnlink(v.tree, At(v.tree, dir), e, p);
    UnlinkKeys(v, At(v.tree, dir), e);
    assert VolOk(w);
    AbsAt(v, p);
    AbsAt(w, p);
    FoundInTree(v.tree, p);
  }

  lemma UnlinkKeys<N>(v: Vol<N>, d: N, e: N)
    requires VolOk(v) && d in v.tree.kids
    ensures e != d ==> Unlink(v.tree, d, e).kids.Keys <= (v.bytes - {e}).Keys
  {
    hide Shape, Named;
  }

  /** An entry has no children exactly when no path lies strictly below it. */
  lemma EmptyIff<N>(v: Vol<N>, p: string)
    requires VolOk(v) && Find(v.tree, p).Some?
    ensures v.tree.kids[At(v.tree, p)] == [] <==>
            !exists q :: Taken(Abs(v), q) && q != p && Under(q, p)
  {
    hide Shape, Named, Abs;
    var t := v.tree;
    var e := At(t, p);
    FoundInTree(t, p);
    Frame(t);
    if t.kids[e] != [] {
      var y := t.kids[e][0];
      ChildPath(t, e, y);
      var q := PathOf(t, y);
      FindIff(t, q, y);
      AbsAt(v, q);
      assert q[..|p|] == p;
      assert Taken(Abs(v), q) && q != p && Under(q, p);
    }
    forall q | Taken(Abs(v), q) && q != p && Under(q, p)
      ensures t.kids[e] != []
    {
      AbsAt(v, q);
      FoundInTree(t, q);
      var x := At(t, q);
      UnderIff(t, x, e);
      var y := StepBelow(t, x, e);
    }
  }

  lemma StepBelow<N>(t: Tree<N>, x: N, e: N) returns (y: N)
    requires Wf(t) && x in t.kids && e in t.kids && t.trail.Keys == t.kids.Keys && e in t.trail[x] && x != e
    ensures y in t.kids[e] && y in t.kids && y in t.trail[x]
  {
    hide Shape, Named;
    ThroughIff(t, x, e);
    TrailEnds(t, x);
    TrailEnds(t, e);
    BelowLevel(t, e);
    assert t.trail[e] < t.trail[x];
    NextOnTrail(t, t.kids[e], t.trail[e], x);
    y := t.trail[x][|t.trail[e]|];
  }

  /** Two paths that go on differently from the same place go on with the same component. */
  lemma SameComponent(q: string, i: nat, s: string, r: string, s': string, r': string)
    requires i <= |q| && q[i..] == "/" + s + r && q[i..] == "/" + s' + r' && '/' !in s && '/' !in s'
    requires (r == "" || r[0] == '/') && (r' == "" || r'[0] == '/')
    ensures s == s'
  {
    CutName(q, i, s, r);
    CutName(q, i, s', r');
  }

  lemma Splits(q: string, b: string, s: string)
    requires Under(q, Join(b, s))
    ensures |Join(b, s)| <= |q| && |b| < |q| && q[..|b|] == b && q[|b|] == '/'
    ensures q[|b|..] == "/" + s + q[|Join(b, s)|..]
    ensures var r := q[|Join(b, s)|..]; r == "" || r[0] == '/'
  {
    UnderSplit(q, Join(b, s));
    assert q == b + ("/" + s + q[|Join(b, s)|..]);
  }

  /** Nothing lies below a free path. */
  lemma NothingUnderFree<N>(t: Tree<N>, d: N, s: string, x: N)
    requires Wf(t) && d in t.kids && x in t.kids && PlainName(s) && Find(t, Join(PathOf(t, d), s)).None?
    ensures !Under(PathOf(t, x), Join(PathOf(t, d), s))
  {
    hide Shape, Named;
    var q, p, b := PathOf(t, x), Join(PathOf(t, d), s), PathOf(t, d);
    Frame(t);
    if Under(q, p) {
      Splits(q, b, s);
      UnderIff(t, x, d);
      hide Under, PathOf;
      if x != d {
        var y := BelowComponent(t, d, x);
        Splits(q, b, t.name[y]);
        SameComponent(q, |b|, s, q[|p|..], t.name[y], q[|Join(b, t.name[y])|..]);
        FreeIff(t, d, s);
      }
    }
  }

  /** The child of a directory on the way to an entry below it. */
  lemma BelowComponent<N>(t: Tree<N>, d: N, x: N) returns (y: N)
    requires Wf(t) && t.trail.Keys == t.kids.Keys && d in t.kids && x in t.kids && x != d && d in t.trail[x]
    ensures y in t.kids[d] && y in t.name && PlainName(t.name[y]) && Under(PathOf(t, x), Join(PathOf(t, d), t.name[y]))
  {
    hide Shape, Named;
    y := StepBelow(t, x, d);
    ChildPath(t, d, y);
    PathBelow(t, x, y);
    NamesIn(t, y);
  }

  ghost predicate RenameReady<N>(v: Vol<N>, dir: string, name: string, newDir: string, newName: string)
    requires VolOk(v)
  {
    && Find(v.tree, Join(dir, name)).Some?
    && Find(v.tree, dir).Some?
    && Find(v.tree, newDir).Some?
    && Legal(Abs(v), Op<N>.Rename(dir, name, newDir, newName))
  }

  ghost function Renamed<N>(v: Vol<N>, dir: string, name: string, newDir: string, newName: string): Vol<N>
    requires VolOk(v) && RenameReady(v, dir, name, newDir, newName)
  {
    Vol(Move(v.tree, At(v.tree, dir), At(v.tree, Join(dir, name)), At(v.tree, newDir), newName), v.bytes)
  }

  lemma RenameMoves<N>(v: Vol<N>, dir: string, name: string, newDir: string, newName: string)
    requires VolOk(v) && RenameReady(v, dir, name, newDir, newName)
    ensures CanMove(v.tree, At(v.tree, dir), At(v.tree, Join(dir, name)), At(v.tree, newDir))
    ensures PathOf(v.tree, At(v.tree, Join(dir, name))) == Join(dir, name)
    ensures PathOf(v.tree, At(v.tree, newDir)) == newDir
    ensures Find(v.tree, Join(newDir, newName)).None?
  {
    hide Shape, Named, Abs;
    EntryAt(v, dir, name);
    DirAt(v, newDir);
    AbsAt(v, Join(newDir, newName));
    Frame(v.tree);
    UnderIff(v.tree, At(v.tree, newDir), At(v.tree, Join(dir, name)));
  }

  /** What a path leads to after a rename. */
  ghost predicate FindsMoved<N>(v: Vol<N>, w: Vol<N>, old_: string, new_: string, p: string) {
    && VolOk(v) && VolOk(w) && w.tree.dirs == v.tree.dirs
    && Find(w.tree, p) == if Under(p, new_) then Find(v.tree, old_ + p[|new_|..])
                          else if Under(p, old_) then None
                          else Find(v.tree, p)
  }

  lemma RenamedEntryAt<N>(v: Vol<N>, dir: string, name: string, newDir: string, newName: string, p: string)
    requires VolOk(v) && RenameReady(v, dir, name, newDir, newName)
    ensures FindsMoved(v, Renamed(v, dir, name, newDir, newName), Join(dir, name), Join(newDir, newName), p)
  {
    hide Shape, Named, Abs;
    RenameMoves(v, dir, name, newDir, newName);
    hide RenameReady;
    var t := v.tree;
    AfterMove(t, At(t, dir), At(t, Join(dir, name)), At(t, newDir), newName, p);
    MoveKeys(t, At(t, dir), At(t, Join(dir, name)), At(t, newDir), newName);
  }

  /** Which path a renamed path came from. */
  lemma RebaseIff<N>(v: Vol<N>, q: string, p: string, newDir: string, newName: string, old_: string)
    requires VolOk(v) && Taken(Abs(v), q) && newDir in Abs(v).dirs && PlainName(newName)
    requires Find(v.tree, Join(newDir, newName)).None?
    ensures var new_ := Join(newDir, newName);
            Rebase(q, old_, new_) == p <==> LeadsBack(p, q, old_, new_)
  {
    hide Shape, Named, Abs;
    var new_ := Join(newDir, newName);
    AbsAt(v, q);
    FoundInTree(v.tree, q);
    DirAt(v, newDir);
    NothingUnderFree(v.tree, At(v.tree, newDir), newName, At(v.tree, q));
    if Under(q, old_) {
      InsideMoved(p, q, old_, new_);
    } else {
      OutsideMoved(p, q, old_, new_);
    }
  }

  ghost predicate Came(s: set<string>, p: string, old_: string, new_: string) {
    if Under(p, new_) then old_ + p[|new_|..] in s
    else !Under(p, old_) && p in s
  }

  /** Membership after a rename, path by path. */
  lemma FlatRenameAt<N>(v: Vol<N>, dir: string, name: string, newDir: string, newName: string, p: string)
    requires VolOk(v) && RenameReady(v, dir, name, newDir, newName)
    ensures var f := Abs(v);
            var old_, new_ := Join(dir, name), Join(newDir, newName);
            var g := FlatRename(f, old_, new_);
            && (p in g.files <==> Came(f.files.Keys, p, old_, new_))
            && (p in g.files ==> g.files[p] == f.files[Unbase(p, old_, new_)])
            && (p in g.dirs <==> Came(f.dirs, p, old_, new_))
  {
    hide Shape, Named, Abs;
    RenameMoves(v, dir, name, newDir, newName);
    var f := Abs(v);
    var old_, new_ := Join(dir, name), Join(newDir, newName);
    forall q | Taken(f, q) ensures Rebase(q, old_, new_) == p <==> LeadsBack(p, q, old_, new_) {
      RebaseIff(v, q, p, newDir, newName, old_);
    }
    FlatCame(f, p, old_, new_);
  }

  lemma FlatCame(f: Flat, p: string, old_: string, new_: string)
    requires forall q :: Taken(f, q) ==> (Rebase(q, old_, new_) == p <==> LeadsBack(p, q, old_, new_))
    ensures var g := FlatRename(f, old_, new_);
            && (p in g.files <==> Came(f.files.Keys, p, old_, new_))
            && (p in g.files ==> g.files[p] == f.files[Unbase(p, old_, new_)])
            && (p in g.dirs <==> Came(f.dirs, p, old_, new_))
  {
    hide Rebase, Under;
    var g := FlatRename(f, old_, new_);
    var q0 := Unbase(p, old_, new_);
    if Came(f.files.Keys, p, old_, new_) {
      assert Taken(f, q0);
      assert Rebase(q0, old_, new_) == p;
    }
    if Came(f.dirs, p, old_, new_) {
      assert Taken(f, q0);
      assert Rebase(q0, old_, new_) == p;
    }
    forall q | q in f.files && Rebase(q, old_, new_) == p ensures Came(f.files.Keys, p, old_, new_) {
      assert Taken(f, q);
    }
    forall q | q in f.dirs && Rebase(q, old_, new_) == p ensures Came(f.dirs, p, old_, new_) {
      assert Taken(f, q);
    }
  }

  lemma RenameAt<N>(v: Vol<N>, dir: string, name: string, newDir: string, newName: string, p: string)
    requires VolOk(v) && RenameReady(v, dir, name, newDir, newName)
    ensures var w := Renamed(v, dir, name, newDir, newName);
            VolOk(w) && SameAt(Abs(w), FlatRename(Abs(v), Join(dir, name), Join(newDir, newName)), p)
  {
    hide Shape, Named, Abs;
    var old_, new_ := Join(dir, name), Join(newDir, newName);
    var w := Renamed(v, dir, name, newDir, newName);
    RenamedEntryAt(v, dir, name, newDir, newName, p);
    FlatRenameAt(v, dir, name, newDir, newName, p);
    hide RenameReady, FlatRename;
    AbsAt(w, p);
    AbsAt(v, p);
    AbsAt(v, Unbase(p, old_, new_));
  }

  // ---------- one operation, and whole runs

  lemma CreateRefines<N>(v: Vol<N>, op: Op<N>)
    requires VolOk(v) && FreshNode(v, op) && Legal(Abs(v), op) && (op.Create? || op.Mkdir?)
    ensures VolOk(VolStep(v, op)) && Abs(VolStep(v, op)) == FlatStep(Abs(v), op)
  {
    hide Shape, Named, Abs;
    DirAt(v, op.dir);
    AbsAt(v, Join(op.dir, op.name));
    if !Taken(Abs(v), Join(op.dir, op.name)) {
      forall p ensures VolOk(VolStep(v, op)) && SameAt(Abs(VolStep(v, op)), FlatStep(Abs(v), op), p) {
        NewEntryAt(v, op.dir, op.name, op.node, op.Mkdir?, p);
      }
      assert VolOk(VolStep(v, op)) by {
        NewEntryAt(v, op.dir, op.name, op.node, op.Mkdir?, "");
      }
      FlatEqual(Abs(VolStep(v, op)), FlatStep(Abs(v), op));
    }
  }

  lemma RemoveRefines<N>(v: Vol<N>, op: Op<N>)
    requires VolOk(v) && Legal(Abs(v), op) && (op.Remove? || op.Rmdir?)
    ensures VolOk(VolStep(v, op)) && Abs(VolStep(v, op)) == FlatStep(Abs(v), op)
  {
    hide Shape, Named, Abs;
    var p := Join(op.dir, op.name);
    DirAt(v, op.dir);
    AbsAt(v, p);
    if Find(v.tree, p).Some? {
      EmptyIff(v, p);
      LeafFile(v.tree, At(v.tree, p));
      hide Find;
      if VolStep(v, op) != v {
        forall q ensures VolOk(VolStep(v, op)) && SameAt(Abs(VolStep(v, op)), FlatStep(Abs(v), op), q) {
          GoneEntryAt(v, op.dir, op.name, q);
        }
        assert VolOk(VolStep(v, op)) by {
          GoneEntryAt(v, op.dir, op.name, "");
        }
        FlatEqual(Abs(VolStep(v, op)), FlatStep(Abs(v), op));
      }
    }
  }

  lemma LeafFile<N>(t: Tree<N>, e: N)
    requires Shape(t) && e in t.kids
    ensures e !in t.dirs ==> t.kids[e] == []
  {
    hide Shape;
    ListIn(t, e);
  }

  lemma RenameRefines<N>(v: Vol<N>, op: Op<N>)
    requires VolOk(v) && Legal(Abs(v), op) && op.Rename?
    ensures VolOk(VolStep(v, op)) && Abs(VolStep(v, op)) == FlatStep(Abs(v), op)
  {
    hide Shape, Named, Abs, FlatRename;
    DirAt(v, op.dir);
    DirAt(v, op.newDir);
    AbsAt(v, Join(op.dir, op.name));
    if Find(v.tree, Join(op.dir, op.name)).Some? {
      forall p ensures VolOk(VolStep(v, op)) && SameAt(Abs(VolStep(v, op)), FlatStep(Abs(v), op), p) {
        RenameAt(v, op.dir, op.name, op.newDir, op.newName, p);
      }
      assert VolOk(VolStep(v, op)) by {
        RenameAt(v, op.dir, op.name, op.newDir, op.newName, "");
      }
      FlatEqual(Abs(VolStep(v, op)), FlatStep(Abs(v), op));
    }
  }

  lemma UpdateRefines<N>(v: Vol<N>, op: Op<N>)
    requires VolOk(v) && op.Update?
    ensures VolOk(VolStep(v, op)) && Abs(VolStep(v, op)) == FlatStep(Abs(v), op)
  {
    hide Shape, Named, Abs;
    var w := VolStep(v, op);
    AbsAt(v, op.path);
    forall p ensures SameAt(Abs(w), FlatStep(Abs(v), op), p) {
      AbsAt(v, p);
      AbsAt(w, p);
      FoundInTree(v.tree, p);
      FoundInTree(v.tree, op.path);
    }
    FlatEqual(Abs(w), FlatStep(Abs(v), op));
  }

  /** Each operation on the linked tree is the flat operation, and keeps the tree well formed. */
  lemma StepRefines<N>(v: Vol<N>, op: Op<N>)
    requires VolOk(v) && FreshNode(v, op) && Legal(Abs(v), op)
    ensures VolOk(VolStep(v, op)) && Abs(VolStep(v, op)) == FlatStep(Abs(v), op)
  {
    hide *;
    match op
    case Create(_, _, _) => CreateRefines(v, op);
    case Mkdir(_, _, _) => CreateRefines(v, op);
    case Remove(_, _) => RemoveRefines(v, op);
    case Rmdir(_, _) => RemoveRefines(v, op);
    case Rename(_, _, _, _) => RenameRefines(v, op);
    case Update(_, _) => UpdateRefines(v, op);
  }

  // ---------- whole runs

  ghost predicate Allowed<N>(v: Vol<N>, op: Op<N>)
    requires VolOk(v)
  {
    FreshNode(v, op) && Legal(Abs(v), op)
  }

  ghost function Do<N>(v: Vol<N>, op: Op<N>): (w: Vol<N>)
    requires VolOk(v) && Allowed(v, op)
    ensures VolOk(w) && Abs(w) == FlatStep(Abs(v), op)
  {
    hide Shape, Named, Abs, VolStep, FlatStep, Legal;
    StepRefines(v, op);
    VolStep(v, op)
  }

  ghost function FlatRun<N>(f: Flat, ops: seq<Op<N>>): Flat
    decreases |ops|
  {
    if ops == [] then f else FlatRun(FlatStep(f, ops[0]), ops[1..])
  }

  /** Every operation of the run is one the virtual file system may issue at that point. */
  ghost predicate LegalRun<N>(v: Vol<N>, ops: seq<Op<N>>)
    requires VolOk(v)
    decreases |ops|
  {
    hide *;
    ops == [] || (Allowed(v, ops[0]) && LegalRun(Do(v, ops[0]), ops[1..]))
  }

  ghost function VolRun<N>(v: Vol<N>, ops: seq<Op<N>>): (w: Vol<N>)
    requires VolOk(v) && LegalRun(v, ops)
    decreases |ops|
  {
    hide VolOk, Allowed, Do;
    if ops == [] then v else VolRun(Do(v, ops[0]), ops[1..])
  }

  /** Over every run, the linked tree stays well formed and shows its users exactly the files and
      directories that the flat volume has. */
  lemma {:induction false} RunRefines<N>(v: Vol<N>, ops: seq<Op<N>>)
    requires VolOk(v) && LegalRun(v, ops)
    ensures VolOk(VolRun(v, ops)) && Abs(VolRun(v, ops)) == FlatRun(Abs(v), ops)
    decreases |ops|
  {
    hide VolOk, Allowed, Do, Abs, FlatStep;
    if ops != [] {
      RunRefines(Do(v, ops[0]), ops[1..]);
    }
  }

  /** A freshly mounted volume: the root directory "md" and nothing else. */
  ghost function Mounted<N>(root: N): (v: Vol<N>)
  {
    Vol(Tree(root, map[root := []], map[root := "md"], {root}, map[root := [root]]), map[root := []])
  }

  lemma MountedIsFlat<N>(root: N)
    ensures VolOk(Mounted(root)) && Abs(Mounted(root)) == Flat(map[], {"/md"})
  {
    var v := Mounted(root);
    var t := v.tree;
    assert ListOk(t, root);
    MakeShape(t);
    assert NamesOk(t, root);
    MountedPath(v);
    hide Shape, Named;
    assert t.kids.Keys - t.dirs == {};
    assert t.dirs * t.kids.Keys == {root};
  }

  /** The root's name is the copy of "md" or, without memory for it, nothing. */
  lemma NamelessRoot<N>(root: N, name: string)
    ensures var t := Mounted(root).tree.(name := map[root := name]);
            Shape(t) && (name == "md" ==> Named(t)) && (name == "" ==> !Named(t))
  {
    var t := Mounted(root).tree.(name := map[root := name]);
    assert ListOk(t, root);
    MakeShape(t);
    hide Shape;
    assert NamesOk(t, root) <==> PlainName(name);
    assert forall d :: d in t.kids ==> d == root;
  }

  lemma MountedPath<N>(v: Vol<N>)
    requires Shape(v.tree) && v.tree.name.Keys == v.tree.kids.Keys && v.tree.root in v.tree.name
    requires v.tree.name[v.tree.root] == "md"
    ensures v.tree.root in v.tree.kids && PathOf(v.tree, v.tree.root) == "/md"
  {
    hide Shape;
    Frame(v.tree);
    TrailNamed(v.tree, v.tree.root);
    var c := v.tree.trail[v.tree.root];
    assert c[1..] == [];
    assert Spell(v.tree.name, c) == "/" + "md" + "";
  }

  // ---------- the operations as the program is called: directory entry, name and full path

  lemma HereIs<N>(t: Tree<N>, d: N)
    requires Wf(t) && d in t.kids
    ensures Find(t, PathOf(t, d)).Some? && At(t, PathOf(t, d)) == d
  {
    hide Shape, Named;
    FindIff(t, PathOf(t, d), d);
  }

  lemma CreateIsStep<N>(v: Vol<N>, d: N, name: string, n: N)
    requires VolOk(v) && d in v.tree.kids && Find(v.tree, Join(PathOf(v.tree, d), name)).None?
    ensures VolStep(v, Op.Create(PathOf(v.tree, d), name, n)) == Vol(LinkNew(v.tree, d, n, name, false), v.bytes[n := []])
    ensures VolStep(v, Op.Mkdir(PathOf(v.tree, d), name, n)) == Vol(LinkNew(v.tree, d, n, name, true), v.bytes[n := []])
  {
    hide Shape, Named;
    HereIs(v.tree, d);
  }

  /** A remove or rmdir of "directory path / name" acts on a child of that directory, so the search
      for its link succeeds. */
  lemma RemoveIsStep<N>(v: Vol<N>, d: N, name: string)
    requires VolOk(v) && d in v.tree.kids && PlainName(name)
    ensures var p := Join(PathOf(v.tree, d), name);
            && VolStep(v, Op<N>.Remove(PathOf(v.tree, d), name)) ==
               (match ToRemove(v.tree, d, p)
                case Keep(_) => v
                case Act(e) => Vol(Unlink(v.tree, d, e), v.bytes - {e}))
            && VolStep(v, Op<N>.Rmdir(PathOf(v.tree, d), name)) ==
               (match ToRmdir(v.tree, d, p)
                case Keep(_) => v
                case Act(e) => Vol(Unlink(v.tree, d, e), v.bytes - {e}))
  {
    hide Shape, Named;
    HereIs(v.tree, d);
    ChildOf(v.tree, d, name);
  }

  lemma ChildOf<N>(t: Tree<N>, d: N, name: string)
    requires Wf(t) && d in t.kids && PlainName(name)
    ensures match Resolve(t, Join(PathOf(t, d), name))
            case Found(e) => e in t.kids[d] && At(t, Join(PathOf(t, d), name)) == e
            case Failed(_) => Find(t, Join(PathOf(t, d), name)).None?
  {
    hide Shape, Named;
    match Resolve(t, Join(PathOf(t, d), name))
    case Found(e) =>
      ResolveIff(t, Join(PathOf(t, d), name), e);
      OnlyChild(t, d, e, name);
    case Failed(_) =>
  }

  lemma RenameIsStep<N>(v: Vol<N>, d: N, name: string, nd: N, newName: string)
    requires VolOk(v) && d in v.tree.kids && nd in v.tree.kids && PlainName(name)
    ensures VolStep(v, Op<N>.Rename(PathOf(v.tree, d), name, PathOf(v.tree, nd), newName)) ==
            match ToRename(v.tree, true, d, Join(PathOf(v.tree, d), name), 0)
            case Keep(_) => v
            case Act(e) => Vol(Move(v.tree, d, e, nd, newName), v.bytes)
  {
    hide Shape, Named;
    HereIs(v.tree, d);
    HereIs(v.tree, nd);
    ChildOf(v.tree, d, name);
  }

  lemma UpdateIsStep<N>(v: Vol<N>, e: N, content: seq<byte>)
    requires VolOk(v) && e in v.tree.kids && e !in v.tree.dirs
    ensures VolStep(v, Op<N>.Update(PathOf(v.tree, e), content)) == v.(bytes := v.bytes[e := content])
  {
    hide Shape, Named;
    HereIs(v.tree, e);
  }
}
