/** What linking, unlinking and moving do to paths: which entry each path leads to afterwards,
    for every path. */
module TreePaths {
  import opened PathTree
  import opened TreeSteps

  ghost function Find<N>(t: Tree<N>, p: string): Option<N>
    requires Shape(t)
  {
    match Resolve(t, p)
    case Found(e) => Some(e)
    case Failed(_) => None
  }

  lemma FindIff<N>(t: Tree<N>, p: string, e: N)
    requires Wf(t)
    ensures Find(t, p) == Some(e) <==> e in t.kids && PathOf(t, e) == p
  {
    hide Shape, Named;
    ResolveIff(t, p, e);
  }

  /** `p` is `top` itself or lies somewhere below it. */
  predicate Under(p: string, top: string) {
    p == top || (|top| < |p| && p[..|top|] == top && p[|top|] == '/')
  }

  lemma {:induction false} SpellConcat<N>(name: map<N, string>, a: seq<N>, b: seq<N>)
    requires forall x :: x in a || x in b ==> x in name
    ensures (forall x :: x in a + b ==> x in name) && Spell(name, a + b) == Spell(name, a) + Spell(name, b)
  {
    if a == [] {
      assert a + b == b;
    } else {
      assert (a + b)[1..] == a[1..] + b;
      SpellConcat(name, a[1..], b);
    }
  }

  lemma {:induction false} SpellSame<N>(name: map<N, string>, name': map<N, string>, a: seq<N>)
    requires forall x :: x in a ==> x in name && x in name' && name[x] == name'[x]
    ensures Spell(name, a) == Spell(name', a)
  {
    if a != [] {
      SpellSame(name, name', a[1..]);
    }
  }

  lemma TrailNamed<N>(t: Tree<N>, e: N)
    requires Shape(t) && e in t.kids
    ensures e in t.trail && t.trail.Keys == t.kids.Keys == t.name.Keys
    ensures forall x :: x in t.trail[e] ==> x in t.kids && x in t.name
  {
    hide Shape;
    Frame(t);
    TrailMembers(t, e);
  }

  /** The path of an entry below `e` is the path of `e` and then the rest. */
  lemma PathBelow<N>(t: Tree<N>, x: N, e: N)
    requires Shape(t) && x in t.kids && e in t.kids && t.trail.Keys == t.kids.Keys && e in t.trail[x]
    ensures Under(PathOf(t, x), PathOf(t, e))
    ensures |t.trail[e]| <= |t.trail[x]|
    ensures forall y :: y in t.trail[x][|t.trail[e]|..] ==> y in t.name
    ensures PathOf(t, x) == PathOf(t, e) + Spell(t.name, t.trail[x][|t.trail[e]|..])
  {
    hide Shape;
    ThroughIff(t, x, e);
    TrailNamed(t, x);
    TrailNamed(t, e);
    var rest := t.trail[x][|t.trail[e]|..];
    assert t.trail[x] == t.trail[e] + rest;
    SpellConcat(t.name, t.trail[e], rest);
    SpellStart(t.name, rest);
  }

  /** Below in the tree is below in the paths, and conversely. */
  lemma UnderIff<N>(t: Tree<N>, x: N, e: N)
    requires Wf(t) && x in t.kids && e in t.kids && t.trail.Keys == t.kids.Keys
    ensures Under(PathOf(t, x), PathOf(t, e)) <==> e in t.trail[x]
  {
    hide Shape, Named;
    if e in t.trail[x] {
      PathBelow(t, x, e);
    } else {
      var q, p := PathOf(t, x), PathOf(t, e);
      ResolveIff(t, q, x);
      ResolveIff(t, p, e);
      if q == p {
        PathsAreUnique(t, x, e);
        TrailEnds(t, x);
      } else if Under(q, p) {
        NotStrictlyUnder(t, x, e);
      }
    }
  }

  lemma NotStrictlyUnder<N>(t: Tree<N>, x: N, e: N)
    requires Wf(t) && x in t.kids && e in t.kids && t.trail.Keys == t.kids.Keys
    requires Under(PathOf(t, x), PathOf(t, e)) && PathOf(t, x) != PathOf(t, e)
    ensures e in t.trail[x]
  {
    hide Shape, Named;
    var q, p := PathOf(t, x), PathOf(t, e);
    ResolveIff(t, q, x);
    ResolveIff(t, p, e);
    var j := |p|;
    assert q[..j] == p;
    Frame(t);
    PathStarts(t, e);
    RootLevel(t);
    ScanPasses(t, [t.root], [], q, 0, j);
    BelowLevel(t, e);
    ScanSound(t, t.kids[e], t.trail[e], q, j);
    TrailEnds(t, e);
    assert t.trail[x][|t.trail[e]| - 1] == e;
  }

  lemma PathStarts<N>(t: Tree<N>, e: N)
    requires Shape(t) && e in t.kids
    ensures PathOf(t, e) != "" && PathOf(t, e)[0] == '/'
  {
    hide Shape;
    TrailNamed(t, e);
    TrailEnds(t, e);
    SpellStart(t.name, t.trail[e]);
  }

  lemma RootLevel<N>(t: Tree<N>)
    requires Shape(t)
    ensures Level(t, [t.root], []) && forall x :: x in [t.root] ==> x in t.kids
  {
    hide Shape;
    Frame(t);
  }

  lemma BelowLevel<N>(t: Tree<N>, e: N)
    requires Shape(t) && e in t.kids
    ensures e in t.trail && Level(t, t.kids[e], t.trail[e]) && forall x :: x in t.kids[e] ==> x in t.kids
  {
    hide Shape;
    Frame(t);
    ListIn(t, e);
    TrailEnds(t, e);
  }

  lemma ChildPath<N>(t: Tree<N>, d: N, y: N)
    requires Shape(t) && d in t.kids && y in t.kids[d]
    ensures y in t.kids && y in t.name && PathOf(t, y) == PathOf(t, d) + "/" + t.name[y]
  {
    hide Shape;
    ChildFacts(t, d, y);
    TrailNamed(t, y);
    TrailNamed(t, d);
    SpellAppend(t.name, t.trail[d], y);
  }

  /** A chain that prints as "/" and one name is a single entry with that name. */
  lemma OneName<N>(name: map<N, string>, chain: seq<N>, s: string)
    requires (forall x :: x in chain ==> x in name && PlainName(name[x])) && PlainName(s)
    requires Spell(name, chain) == "/" + s
    ensures |chain| == 1 && name[chain[0]] == s
  {
    var rest := Spell(name, chain[1..]);
    SpellStart(name, chain[1..]);
    assert Spell(name, chain) == "/" + name[chain[0]] + rest;
    CutName("/" + s, 0, name[chain[0]], rest);
    CutName("/" + s, 0, s, "");
    assert name[chain[0]] == Spell(name, chain)[1..] == s;
  }

  /** A path one name below directory `d` is free exactly when no child of `d` has that name. */
  lemma FreeIff<N>(t: Tree<N>, d: N, s: string)
    requires Wf(t) && d in t.kids && PlainName(s)
    ensures Find(t, PathOf(t, d) + "/" + s).None? <==> forall y :: y in t.kids[d] ==> y in t.name && t.name[y] != s
  {
    hide Shape, Named;
    var p := PathOf(t, d) + "/" + s;
    forall y | y in t.kids[d] && y in t.name && t.name[y] == s
      ensures Find(t, p) == Some(y)
    {
      ChildPath(t, d, y);
      FindIff(t, p, y);
    }
    ListIn(t, d);
    Frame(t);
    match Find(t, p)
    case None =>
    case Some(x) =>
      FindIff(t, p, x);
      OnlyChild(t, d, x, s);
  }

  lemma OnlyChild<N>(t: Tree<N>, d: N, x: N, s: string)
    requires Wf(t) && d in t.kids && x in t.kids && PlainName(s) && PathOf(t, x) == PathOf(t, d) + "/" + s
    ensures x in t.kids[d] && x in t.name && t.name[x] == s
  {
    hide Shape, Named;
    Frame(t);
    assert Under(PathOf(t, x), PathOf(t, d));
    UnderIff(t, x, d);
    PathBelow(t, x, d);
    var rest := t.trail[x][|t.trail[d]|..];
    assert Spell(t.name, rest) == "/" + s;
    TrailPlain(t, x);
    OneName(t.name, rest, s);
    ThroughIff(t, x, d);
    TrailEnds(t, d);
    TrailEnds(t, x);
    assert t.trail[x] == t.trail[d] + rest;
    RootTop(t, x);
    HangsIn(t, x);
  }

  lemma RootTop<N>(t: Tree<N>, x: N)
    requires Shape(t) && x in t.kids && t.trail.Keys == t.kids.Keys && |t.trail[x]| > 1
    ensures x != t.root
  {
    hide Shape;
    Frame(t);
  }

  lemma TrailPlain<N>(t: Tree<N>, x: N)
    requires Wf(t) && x in t.kids
    ensures x in t.trail && forall y :: y in t.trail[x] ==> y in t.name && PlainName(t.name[y])
  {
    hide Shape, Named;
    TrailNamed(t, x);
    forall y | y in t.trail[x] ensures y in t.name && PlainName(t.name[y]) {
      NamesIn(t, y);
    }
  }

  // ---------- paths after each change

  lemma LinkPaths<N>(t: Tree<N>, d: N, n: N, name: string, isDir: bool, x: N)
    requires Shape(t) && d in t.dirs && d in t.kids && n !in t.kids && (x in t.kids || x == n)
    requires Shape(LinkNew(t, d, n, name, isDir)) && x in LinkNew(t, d, n, name, isDir).kids
    ensures PathOf(LinkNew(t, d, n, name, isDir), x) ==
            if x == n then PathOf(t, d) + "/" + name else PathOf(t, x)
  {
    hide Shape;
    var u := LinkNew(t, d, n, name, isDir);
    TrailNamed(u, x);
    TrailNamed(t, d);
    if x == n {
      SpellAppend(u.name, t.trail[d], n);
      SpellSame(t.name, u.name, t.trail[d]);
    } else {
      TrailNamed(t, x);
      SpellSame(t.name, u.name, t.trail[x]);
    }
  }

  lemma UnlinkPaths<N>(t: Tree<N>, d: N, e: N, x: N)
    requires Shape(t) && d in t.kids && x in t.kids && x != e
    requires Shape(Unlink(t, d, e)) && x in Unlink(t, d, e).kids
    ensures PathOf(Unlink(t, d, e), x) == PathOf(t, x)
  {
    hide Shape;
    var u := Unlink(t, d, e);
    TrailNamed(u, x);
    TrailNamed(t, x);
    SpellSame(t.name, u.name, t.trail[x]);
  }

  /** The path of any entry after a move: those in the moved subtree get the new path of its top
      in front, all others keep theirs. */
  lemma MovePaths<N>(t: Tree<N>, d: N, e: N, nd: N, name: string, x: N)
    requires Wf(t) && CanMove(t, d, e, nd) && x in t.kids && t.trail.Keys == t.kids.Keys
    requires Shape(Move(t, d, e, nd, name)) && x in Move(t, d, e, nd, name).kids
    ensures e in t.trail[x] ==> |PathOf(t, e)| <= |PathOf(t, x)|
    ensures PathOf(Move(t, d, e, nd, name), x) ==
            if e in t.trail[x] then PathOf(t, nd) + "/" + name + PathOf(t, x)[|PathOf(t, e)|..]
            else PathOf(t, x)
  {
    hide Shape, Named;
    var u := Move(t, d, e, nd, name);
    TrailNamed(t, x);
    TrailNamed(u, x);
    TrailEnds(t, e);
    ThroughIff(t, x, e);
    if e in t.trail[x] {
      PathBelow(t, x, e);
      TrailNamed(t, nd);
      var rest := t.trail[x][|t.trail[e]|..];
      assert u.trail[x] == (t.trail[nd] + [e]) + rest;
      RestAvoids(t, x, e);
      SpellSame(t.name, u.name, rest);
      SpellSame(t.name, u.name, t.trail[nd]);
      SpellAppend(u.name, t.trail[nd], e);
      SpellConcat(u.name, t.trail[nd] + [e], rest);
    } else {
      SpellSame(t.name, u.name, t.trail[x]);
    }
  }

  /** An entry occurs only once on a trail. */
  lemma RestAvoids<N>(t: Tree<N>, x: N, e: N)
    requires Shape(t) && x in t.kids && e in t.kids && t.trail.Keys == t.kids.Keys && t.trail[e] <= t.trail[x]
    ensures e !in t.trail[x][|t.trail[e]|..]
  {
    hide Shape;
    var rest := t.trail[x][|t.trail[e]|..];
    if e in rest {
      var k :| 0 <= k < |rest| && rest[k] == e;
      TrailInTree(t, x, |t.trail[e]| + k);
    }
  }

  // ---------- where every path leads after each change

  lemma AfterLink<N>(t: Tree<N>, d: N, n: N, name: string, isDir: bool, p: string)
    requires Wf(t) && d in t.dirs && d in t.kids && n !in t.kids && PlainName(name)
    requires Find(t, PathOf(t, d) + "/" + name).None?
    ensures var u := LinkNew(t, d, n, name, isDir);
            Wf(u) && Find(u, p) == if p == PathOf(t, d) + "/" + name then Some(n) else Find(t, p)
  {
    hide Shape, Named;
    FreeIff(t, d, name);
    LinkKeepsNames(t, d, n, name, isDir);
    var u := LinkNew(t, d, n, name, isDir);
    var new_ := PathOf(t, d) + "/" + name;
    forall x | x in u.kids ensures Find(u, p) == Some(x) <==> p == if x == n then new_ else PathOf(t, x) {
      FindIff(u, p, x);
      LinkPaths(t, d, n, name, isDir, x);
    }
    forall x | x in t.kids ensures Find(t, p) == Some(x) <==> p == PathOf(t, x) {
      FindIff(t, p, x);
    }
    FoundInTree(u, p);
    FoundInTree(t, p);
  }

  lemma FoundInTree<N>(t: Tree<N>, p: string)
    requires Wf(t)
    ensures Find(t, p).Some? ==> Find(t, p).value in t.kids && PathOf(t, Find(t, p).value) == p
  {
    hide Shape, Named;
    if Find(t, p).Some? {
      FindIff(t, p, Find(t, p).value);
    }
  }

  lemma AfterUnlink<N>(t: Tree<N>, d: N, e: N, p: string)
    requires Wf(t) && d in t.kids && e in t.kids[d] && e in t.kids && t.kids[e] == []
    ensures var u := Unlink(t, d, e);
            Wf(u) && Find(u, p) == if p == PathOf(t, e) then None else Find(t, p)
  {
    hide Shape, Named;
    ChildFacts(t, d, e);
    UnlinkKeepsNames(t, d, e);
    var u := Unlink(t, d, e);
    forall x | x in u.kids ensures Find(u, p) == Some(x) <==> p == PathOf(t, x) {
      FindIff(u, p, x);
      UnlinkPaths(t, d, e, x);
    }
    forall x | x in t.kids ensures Find(t, p) == Some(x) <==> p == PathOf(t, x) {
      FindIff(t, p, x);
    }
    FoundInTree(u, p);
    FoundInTree(t, p);
  }

  lemma UnderSplit(q: string, top: string)
    requires Under(q, top)
    ensures |top| <= |q| && q == top + q[|top|..] && (q[|top|..] == "" || q[|top|..][0] == '/')
  {
  }

  lemma UnderJoin(top: string, rest: string)
    requires rest == "" || rest[0] == '/'
    ensures Under(top + rest, top) && (top + rest)[|top|..] == rest
  {
    assert (top + rest)[..|top|] == top;
  }

  /** What a move does to one path string: `q` is where an entry was, `p` the path asked for. */
  predicate LeadsBack(p: string, q: string, old_: string, new_: string) {
    if Under(p, new_) then q == old_ + p[|new_|..]
    else !Under(p, old_) && q == p
  }

  lemma InsideMoved(p: string, q: string, old_: string, new_: string)
    requires Under(q, old_)
    ensures new_ + q[|old_|..] == p <==> LeadsBack(p, q, old_, new_)
  {
    UnderSplit(q, old_);
    var rest := q[|old_|..];
    UnderJoin(new_, rest);
    if Under(p, new_) {
      UnderSplit(p, new_);
      var r := p[|new_|..];
      assert (new_ + rest)[|new_|..] == rest && (old_ + r)[|old_|..] == r;
    }
  }

  lemma OutsideMoved(p: string, q: string, old_: string, new_: string)
    requires !Under(q, old_) && !Under(q, new_)
    ensures q == p <==> LeadsBack(p, q, old_, new_)
  {
    if Under(p, new_) {
      UnderSplit(p, new_);
      UnderJoin(old_, p[|new_|..]);
    }
  }

  lemma MovedPathBack<N>(t: Tree<N>, d: N, e: N, nd: N, name: string, p: string, x: N)
    requires Wf(t) && CanMove(t, d, e, nd) && x in t.kids
    requires var u := Move(t, d, e, nd, name); Wf(u) && x in u.kids && e in u.kids
    ensures PathOf(Move(t, d, e, nd, name), x) == p <==>
            LeadsBack(p, PathOf(t, x), PathOf(t, e), PathOf(t, nd) + "/" + name)
  {
    hide Shape, Named;
    Frame(t);
    var u := Move(t, d, e, nd, name);
    Frame(u);
    var old_, new_ := PathOf(t, e), PathOf(t, nd) + "/" + name;
    MovePaths(t, d, e, nd, name, x);
    UnderIff(t, x, e);
    if e in t.trail[x] {
      InsideMoved(p, PathOf(t, x), old_, new_);
    } else {
      TopPath(t, d, e, nd, name);
      UnderIff(u, x, e);
      OutsideMoved(p, PathOf(t, x), old_, new_);
    }
  }

  lemma TopPath<N>(t: Tree<N>, d: N, e: N, nd: N, name: string)
    requires Wf(t) && CanMove(t, d, e, nd) && t.trail.Keys == t.kids.Keys
    requires var u := Move(t, d, e, nd, name); Shape(u) && e in u.kids
    ensures PathOf(Move(t, d, e, nd, name), e) == PathOf(t, nd) + "/" + name
  {
    hide Shape, Named;
    MovePaths(t, d, e, nd, name, e);
    TrailEnds(t, e);
    assert PathOf(t, e)[|PathOf(t, e)|..] == "";
  }

  /** After a move, for every path `p`: at or below the new path, `p` leads where the same rest
      behind the old path led; at or below the old path it leads nowhere; any other path leads
      where it led before. */
  lemma AfterMove<N>(t: Tree<N>, d: N, e: N, nd: N, name: string, p: string)
    requires Wf(t) && CanMove(t, d, e, nd) && PlainName(name)
    requires Find(t, PathOf(t, nd) + "/" + name).None?
    ensures var u := Move(t, d, e, nd, name);
            var old_, new_ := PathOf(t, e), PathOf(t, nd) + "/" + name;
            Wf(u) && Find(u, p) == if Under(p, new_) then Find(t, old_ + p[|new_|..])
                                   else if Under(p, old_) then None
                                   else Find(t, p)
  {
    hide Shape, Named;
    FreeIff(t, nd, name);
    MoveKeepsNames(t, d, e, nd, name);
    MoveKeys(t, d, e, nd, name);
    var u := Move(t, d, e, nd, name);
    var old_, new_ := PathOf(t, e), PathOf(t, nd) + "/" + name;
    var q := if Under(p, new_) then old_ + p[|new_|..] else p;
    forall x | x in t.kids
      ensures Find(u, p) == Some(x) <==> LeadsBack(p, PathOf(t, x), old_, new_)
      ensures Find(t, q) == Some(x) <==> q == PathOf(t, x)
    {
      FindIff(u, p, x);
      MovedPathBack(t, d, e, nd, name, p, x);
      FindIff(t, q, x);
    }
    FoundInTree(u, p);
    FoundInTree(t, q);
  }

  // ---------- what the operations decide before they change anything

  const EXISTS: int := 0x8001_0011 - 0x1_0000_0000
  const NOT_DIRECTORY: int := 0x8001_0014 - 0x1_0000_0000
  const OTHER_MOUNT: int := 0x8001_0001 - 0x1_0000_0000

  /** Either nothing changes and a code is returned, or the operation acts on an entry. */
  datatype Decision<+N> = Keep(code: int) | Act(entry: N)

  ghost function ToRemove<N>(t: Tree<N>, dir: N, path: string): Decision<N>
    requires Shape(t) && dir in t.kids
  {
    match Resolve(t, path)
    case Failed(_) => Keep(NO_ENTRY)
    case Found(e) =>
      if e in t.dirs then Keep(-1)
      else if e !in t.kids[dir] then Keep(NO_ENTRY)
      else Act(e)
  }

  ghost function ToRmdir<N>(t: Tree<N>, dir: N, path: string): Decision<N>
    requires Shape(t) && dir in t.kids
  {
    match Resolve(t, path)
    case Failed(code) => Keep(code)
    case Found(e) =>
      if t.kids[e] != [] then Keep(EXISTS)
      else if e !in t.dirs then Keep(NOT_DIRECTORY)
      else if e !in t.kids[dir] then Keep(NO_ENTRY)
      else Act(e)
  }

  ghost function ToRename<N>(t: Tree<N>, sameMount: bool, dir: N, path: string, nodeCode: int): Decision<N>
    requires Shape(t) && dir in t.kids
  {
    if !sameMount then Keep(OTHER_MOUNT)
    else match Resolve(t, path)
    case Failed(code) => Keep(code)
    case Found(e) =>
      if e !in t.kids[dir] then Keep(NO_ENTRY)
      else if nodeCode < 0 then Keep(nodeCode)
      else Act(e)
  }

  /** The directory `nd` does not lie at or below the entry that `path` leads to. */
  ghost predicate Clear<N>(t: Tree<N>, path: string, nd: N)
    requires Shape(t) && nd in t.kids
  {
    hide *;
    Frame(t);
    Resolve(t, path).Found? ==> Resolve(t, path).entry !in t.trail[nd]
  }
}
