/** What the operations on the tree return, said of the paths there are. */
module Refusals {
  import opened PathTree
  import opened TreePaths
  import opened FlatFs

  /** A path put together from a directory's path and a name is clean. */
  lemma JoinClean<N>(t: Tree<N>, d: N, name: string)
    requires Wf(t) && d in t.kids && PlainName(name)
    ensures Clean(Join(PathOf(t, d), name))
  {
    hide Shape, Named;
    var b := PathOf(t, d);
    ResolveIff(t, b, d);
    OnlyCleanPathsResolve(t, b);
    var p := Join(b, name);
    assert forall i :: 0 <= i < |name| ==> name[i] in name && p[|b| + 1 + i] == name[i];
    forall k | 0 <= k < |p| && p[k] == '/' ensures k + 1 < |p| && p[k + 1] != '/' {
      assert k <= |b| && (k < |b| ==> p[k] == b[k]);
      assert k + 1 < |b| ==> p[k + 1] == b[k + 1];
    }
  }

  /** Where a path that leads nowhere fails. */
  lemma NothingThere<N>(v: Vol<N>, d: N, name: string)
    requires VolOk(v) && d in v.tree.kids && PlainName(name)
    ensures var p := Join(PathOf(v.tree, d), name);
            match Resolve(v.tree, p)
            case Found(e) => e in v.tree.kids && e in v.tree.kids[d] && Taken(Abs(v), p) && (p in Abs(v).dirs <==> e in v.tree.dirs) && (p in Abs(v).files <==> e !in v.tree.dirs)
                             && (Populated(Abs(v), p) <==> v.tree.kids[e] != [])
            case Failed(code) => code == 0x8001_0002 - 0x1_0000_0000 && !Taken(Abs(v), p)
  {
    hide Shape, Named, Abs;
    var p := Join(PathOf(v.tree, d), name);
    JoinClean(v.tree, d, name);
    FailureCodes(v.tree, p);
    AbsAt(v, p);
    ChildOf(v.tree, d, name);
    if Resolve(v.tree, p).Found? {
      EmptyIff(v, p);
    }
  }

  /** Removing a file: an error for a path that leads nowhere, another for a directory. */
  ghost predicate RemoveReturns<N>(v: Vol<N>, p: string, res: int) {
    && VolOk(v)
    && (res == 0x8001_0002 - 0x1_0000_0000 <==> !Taken(Abs(v), p))
    && (p in Abs(v).dirs ==> res == -1)
    && (p in Abs(v).files ==> res in {0, -1, -2})
  }

  /** Removing a directory: errors for a path that leads nowhere, for one with paths below, and for a
      file. */
  ghost predicate RmdirReturns<N>(v: Vol<N>, p: string, res: int) {
    && VolOk(v)
    && (res == 0x8001_0002 - 0x1_0000_0000 <==> !Taken(Abs(v), p))
    && (res == 0x8001_0011 - 0x1_0000_0000 <==> Taken(Abs(v), p) && exists q :: Taken(Abs(v), q) && q != p && Under(q, p))
    && (res == 0x8001_0014 - 0x1_0000_0000 <==> p in Abs(v).files)
    && (res in {0, -1, -2} <==> p in Abs(v).dirs && !exists q :: Taken(Abs(v), q) && q != p && Under(q, p))
  }

  /** Renaming: an error for another mount, for a path that leads nowhere, or when no vnode can be had. */
  ghost predicate RenameReturns<N>(v: Vol<N>, sameMount: bool, p: string, node: NodeResult, res: int) {
    && VolOk(v)
    && res == (if !sameMount then 0x8001_0001 - 0x1_0000_0000
               else if !Taken(Abs(v), p) then 0x8001_0002 - 0x1_0000_0000
               else if node.create < 0 then node.create
               else if node.wait < 0 then node.wait
               else 0)
  }

  /** Creating: an error for a path that is taken, and when memory or a vnode cannot be had. */
  ghost predicate CreateReturns<N>(v: Vol<N>, dir: string, name: string, mem: Memory, node: NodeResult, res: int) {
    && VolOk(v)
    && res == (if Taken(Abs(v), Join(dir, name)) then 0x8001_0011 - 0x1_0000_0000
               else if !mem.entry || !mem.name || name == "" then -1
               else if node.create < 0 then node.create
               else if node.wait < 0 then node.wait
               else 0)
  }

  /** Making a directory: also an error if it is to be made in a file. */
  ghost predicate MkdirReturns<N>(v: Vol<N>, dir: string, name: string, mem: Memory, node: NodeResult, res: int) {
    && VolOk(v)
    && if dir in Abs(v).files then res == 0x8001_0014 - 0x1_0000_0000 else CreateReturns(v, dir, name, mem, node, res)
  }

  lemma CreateCode<N>(v: Vol<N>, d: N, name: string, mem: Memory, node: NodeResult, res: int)
    requires VolOk(v) && d in v.tree.kids
    requires var there := Find(v.tree, Join(PathOf(v.tree, d), name)).Some?;
             res == if there then 0x8001_0011 - 0x1_0000_0000
                    else if !mem.entry || !mem.name || name == "" then -1 else node.Code()
    ensures CreateReturns(v, PathOf(v.tree, d), name, mem, node, res)
  {
    hide Shape, Named, Abs;
    AbsAt(v, Join(PathOf(v.tree, d), name));
  }

  lemma MkdirCode<N>(v: Vol<N>, d: N, name: string, mem: Memory, node: NodeResult, res: int)
    requires VolOk(v) && d in v.tree.kids
    requires if d in v.tree.dirs then CreateReturns(v, PathOf(v.tree, d), name, mem, node, res) else res == 0x8001_0014 - 0x1_0000_0000
    ensures MkdirReturns(v, PathOf(v.tree, d), name, mem, node, res)
  {
    hide Shape, Named, Abs;
    AbsAt(v, PathOf(v.tree, d));
    FindIff(v.tree, PathOf(v.tree, d), d);
  }

  /** The decisions of remove, rmdir and rename give these codes. */
  lemma RemoveCode<N>(v: Vol<N>, d: N, name: string, res: int)
    requires VolOk(v) && d in v.tree.kids && PlainName(name)
    requires match ToRemove(v.tree, d, Join(PathOf(v.tree, d), name)) case Keep(code) => res == code case Act(_) => res in {0, -1, -2}
    ensures RemoveReturns(v, Join(PathOf(v.tree, d), name), res)
  {
    hide Shape, Named, Abs, Populated;
    NothingThere(v, d, name);
  }

  lemma RmdirCode<N>(v: Vol<N>, d: N, name: string, res: int)
    requires VolOk(v) && d in v.tree.kids && PlainName(name)
    requires match ToRmdir(v.tree, d, Join(PathOf(v.tree, d), name)) case Keep(code) => res == code case Act(_) => res in {0, -1, -2}
    ensures RmdirReturns(v, Join(PathOf(v.tree, d), name), res)
  {
    hide Shape, Named, Abs;
    NothingThere(v, d, name);
    LeafOnly(v, d, name);
    assert Populated(Abs(v), Join(PathOf(v.tree, d), name)) <==>
           exists q :: Taken(Abs(v), q) && q != Join(PathOf(v.tree, d), name) && Under(q, Join(PathOf(v.tree, d), name));
    hide Populated;
  }

  /** Nothing lies below a file. */
  lemma LeafOnly<N>(v: Vol<N>, d: N, name: string)
    requires VolOk(v) && d in v.tree.kids && PlainName(name)
    ensures var p := Join(PathOf(v.tree, d), name); p in Abs(v).files ==> !Populated(Abs(v), p)
  {
    hide Shape, Named, Abs, Populated;
    NothingThere(v, d, name);
    match Resolve(v.tree, Join(PathOf(v.tree, d), name))
    case Found(e) => ListIn(v.tree, e);
    case Failed(_) =>
  }

  lemma RenameCode<N>(v: Vol<N>, sameMount: bool, d: N, name: string, node: NodeResult, res: int)
    requires VolOk(v) && d in v.tree.kids && PlainName(name)
    requires match ToRename(v.tree, sameMount, d, Join(PathOf(v.tree, d), name), node.Code())
             case Keep(code) => res == code case Act(_) => res == 0
    ensures RenameReturns(v, sameMount, Join(PathOf(v.tree, d), name), node, res)
  {
    hide Shape, Named, Abs, Populated;
    NothingThere(v, d, name);
  }
}
