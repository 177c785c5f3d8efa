/** The three ways the program changes the tree: linking a new entry at the head of a sibling
    list, unlinking an entry without children, and moving an entry with all that hangs below it.
    Each keeps the tree a tree, and each changes the paths of entries in exactly one way. */
module TreeSteps {
  import opened Lists
  import opened PathTree

  // ---------- position in the tree

  /** The trail of `x` passes through `e` exactly when it extends the trail of `e`. */
  lemma ThroughIff<N>(t: Tree<N>, x: N, e: N)
    requires Shape(t) && x in t.kids && e in t.kids
    ensures e in t.trail[x] <==> t.trail[e] <= t.trail[x]
  {
    TrailEnds(t, e);
    if e in t.trail[x] {
      var m :| 0 <= m < |t.trail[x]| && t.trail[x][m] == e;
      TrailInTree(t, x, m);
    }
    if t.trail[e] <= t.trail[x] {
      assert t.trail[x][|t.trail[e]| - 1] == e;
    }
  }

  lemma OneParent<N>(t: Tree<N>, d1: N, d2: N, x: N)
    requires Shape(t) && d1 in t.kids && d2 in t.kids && x in t.kids[d1] && x in t.kids[d2]
    ensures d1 == d2
  {
    hide Hangs;
    assert ListOk(t, d1) && ListOk(t, d2);
    assert t.trail[d1] + [x] == t.trail[d2] + [x];
    assert t.trail[d1] == (t.trail[d1] + [x])[..|t.trail[d1]|];
    assert t.trail[d2] == (t.trail[d2] + [x])[..|t.trail[d2]|];
    TrailEnds(t, d1);
    TrailEnds(t, d2);
  }

  lemma ChildFacts<N>(t: Tree<N>, d: N, x: N)
    requires Shape(t) && d in t.kids && x in t.kids[d]
    ensures x in t.kids && t.trail[x] == t.trail[d] + [x] && x != d && x != t.root && x !in t.trail[d]
    ensures d in t.dirs
  {
    hide Hangs;
    assert ListOk(t, d);
    TrailEnds(t, d);
    ThroughIff(t, d, x);
    TrailEnds(t, x);
  }

  // ---------- linking a new entry

  ghost function LinkNew<N>(t: Tree<N>, d: N, n: N, name: string, isDir: bool): Tree<N>
    requires Shape(t) && d in t.kids
  {
    Tree(t.root,
         t.kids[d := [n] + t.kids[d]][n := []],
         t.name[n := name],
         if isDir then t.dirs + {n} else t.dirs,
         t.trail[n := t.trail[d] + [n]])
  }

  lemma LinkListOk<N>(t: Tree<N>, d: N, n: N, name: string, isDir: bool, x: N)
    requires Shape(t) && d in t.dirs && n !in t.kids && (x in t.kids || x == n)
    ensures var u := LinkNew(t, d, n, name, isDir);
            x in u.kids && u.trail.Keys == u.kids.Keys && ListOk(u, x)
  {
    hide Shape, Hangs;
    Frame(t);
    ListIn(t, d);
    if x != n {
      ListIn(t, x);
    }
  }

  lemma LinkHangs<N>(t: Tree<N>, d: N, n: N, name: string, isDir: bool, x: N)
    requires Shape(t) && d in t.dirs && n !in t.kids && (x in t.kids || x == n) && x != t.root
    ensures var u := LinkNew(t, d, n, name, isDir);
            x in u.kids && u.trail.Keys == u.kids.Keys && Hangs(u, x)
  {
    hide Shape, ListOk;
    Frame(t);
    var u := LinkNew(t, d, n, name, isDir);
    if x == n {
      TrailEnds(t, d);
      assert u.kids[d][0] == n;
    } else {
      HangsIn(t, x);
      var p := t.trail[x][|t.trail[x]| - 2];
      assert p == d ==> u.kids[d][1..] == t.kids[d];
    }
  }

  lemma LinkKeepsShape<N>(t: Tree<N>, d: N, n: N, name: string, isDir: bool)
    requires Shape(t) && d in t.dirs && n !in t.kids
    ensures Shape(LinkNew(t, d, n, name, isDir))
  {
    hide Shape, ListOk, Hangs;
    Frame(t);
    var u := LinkNew(t, d, n, name, isDir);
    forall x | x in u.kids
      ensures u.trail.Keys == u.kids.Keys && ListOk(u, x) && (x in u.dirs || u.kids[x] == [])
      ensures x != u.root ==> Hangs(u, x)
    {
      LinkListOk(t, d, n, name, isDir, x);
      if x != n {
        ListIn(t, x);
      }
      if x != t.root {
        LinkHangs(t, d, n, name, isDir, x);
      }
    }
    MakeShape(u);
  }

  lemma NamesIn<N>(t: Tree<N>, d: N)
    requires Wf(t) && d in t.kids
    ensures forall x :: x in t.kids[d] ==> x in t.kids && x in t.name
    ensures d in t.name && PlainName(t.name[d]) && Apart(t.name, t.kids[d])
  {
    hide Shape;
    ListIn(t, d);
    Frame(t);
    assert NamesOk(t, d);
  }

  lemma LinkKeepsNames<N>(t: Tree<N>, d: N, n: N, name: string, isDir: bool)
    requires Wf(t) && d in t.dirs && d in t.kids && n !in t.kids && PlainName(name)
    requires forall x :: x in t.kids[d] ==> x in t.name && t.name[x] != name
    ensures Wf(LinkNew(t, d, n, name, isDir))
  {
    hide Shape, NamesOk;
    LinkKeepsShape(t, d, n, name, isDir);
    var u := LinkNew(t, d, n, name, isDir);
    forall x | x in u.kids ensures NamesOk(u, x) {
      LinkNamesOk(t, d, n, name, isDir, x);
    }
  }

  lemma LinkNamesOk<N>(t: Tree<N>, d: N, n: N, name: string, isDir: bool, x: N)
    requires Wf(t) && d in t.kids && n !in t.kids && PlainName(name)
    requires forall y :: y in t.kids[d] ==> y in t.name && t.name[y] != name
    requires Shape(LinkNew(t, d, n, name, isDir)) && (x in t.kids || x == n)
    ensures NamesOk(LinkNew(t, d, n, name, isDir), x)
  {
    hide Shape, Named;
    if x != n {
      NamesIn(t, x);
    }
  }

  // ---------- unlinking an entry without children

  ghost function Unlink<N>(t: Tree<N>, d: N, e: N): Tree<N>
    requires Shape(t) && d in t.kids
  {
    Tree(t.root,
         (t.kids - {e})[d := Without(t.kids[d], e)],
         t.name - {e},
         t.dirs - {e},
         t.trail - {e})
  }

  lemma UnlinkListOk<N>(t: Tree<N>, d: N, e: N, x: N)
    requires Shape(t) && d in t.kids && e in t.kids[d] && x in t.kids && x != e
    ensures var u := Unlink(t, d, e);
            x in u.kids && u.trail.Keys == u.kids.Keys && ListOk(u, x)
  {
    hide Shape;
    ChildFacts(t, d, e);
    ListIn(t, d);
    ListIn(t, x);
    WithoutDistinct(t.kids[d], e);
    if x != d && e in t.kids[x] {
      OneParent(t, d, x, e);
    }
    var u := Unlink(t, d, e);
    assert u.trail.Keys == u.kids.Keys;
  }

  lemma UnlinkHangs<N>(t: Tree<N>, d: N, e: N, x: N)
    requires Shape(t) && d in t.kids && e in t.kids[d] && t.kids[e] == []
    requires x in t.kids && x != e && x != t.root
    ensures var u := Unlink(t, d, e);
            x in u.kids && u.trail.Keys == u.kids.Keys && Hangs(u, x)
  {
    hide Shape;
    ChildFacts(t, d, e);
    ListIn(t, d);
    WithoutDistinct(t.kids[d], e);
    hide ListOk;
    HangsIn(t, x);
    var u := Unlink(t, d, e);
    assert u.trail.Keys == u.kids.Keys;
  }

  lemma UnlinkKeepsShape<N>(t: Tree<N>, d: N, e: N)
    requires Shape(t) && d in t.kids && e in t.kids[d] && t.kids[e] == []
    ensures Shape(Unlink(t, d, e))
  {
    hide Shape, ListOk, Hangs;
    Frame(t);
    ChildFacts(t, d, e);
    var u := Unlink(t, d, e);
    forall x | x in u.kids
      ensures u.trail.Keys == u.kids.Keys && ListOk(u, x) && (x in u.dirs || u.kids[x] == [])
      ensures x != u.root ==> Hangs(u, x)
    {
      UnlinkListOk(t, d, e, x);
      ListIn(t, x);
      if x != t.root {
        UnlinkHangs(t, d, e, x);
      }
    }
    MakeShape(u);
  }

  lemma ApartWithout<N>(name: map<N, string>, s: seq<N>, e: N)
    requires e in s && (forall x :: x in s ==> x in name) && Apart(name, s)
    ensures (forall x :: x in Without(s, e) ==> x in s) && Apart(name, Without(s, e))
  {
    WithoutDistinct(s, e);
    var k := WithoutOrder(s, e);
    var w := Without(s, e);
    hide Without;
    forall i, j | 0 <= i < j < |w| ensures name[w[i]] != name[w[j]] {
      assert Skip(k, i) < Skip(k, j) && w[i] == s[Skip(k, i)] && w[j] == s[Skip(k, j)];
    }
  }

  lemma UnlinkNamesOk<N>(t: Tree<N>, d: N, e: N, x: N)
    requires Wf(t) && d in t.kids && e in t.kids[d] && x in t.kids && x != e
    requires Shape(Unlink(t, d, e)) && x in Unlink(t, d, e).kids
    ensures NamesOk(Unlink(t, d, e), x)
  {
    hide Shape, Named, Apart;
    NamesIn(t, x);
    NamesIn(t, d);
    ListIn(Unlink(t, d, e), x);
    Frame(Unlink(t, d, e));
    ApartWithout(t.name, t.kids[d], e);
    ApartSame(t.name, Unlink(t, d, e).name, Unlink(t, d, e).kids[x]);
  }

  lemma ApartSame<N>(name: map<N, string>, name': map<N, string>, s: seq<N>)
    requires forall x :: x in s ==> x in name && x in name' && name[x] == name'[x]
    ensures Apart(name, s) <==> Apart(name', s)
  {
  }

  lemma UnlinkKeepsNames<N>(t: Tree<N>, d: N, e: N)
    requires Wf(t) && d in t.kids && e in t.kids[d] && t.kids[e] == []
    ensures Wf(Unlink(t, d, e))
  {
    hide Shape, NamesOk;
    UnlinkKeepsShape(t, d, e);
    ChildFacts(t, d, e);
    var u := Unlink(t, d, e);
    forall x | x in u.kids ensures NamesOk(u, x) {
      UnlinkNamesOk(t, d, e, x);
    }
  }

  // ---------- moving an entry with everything below it

  ghost function MovedTrail<N>(t: Tree<N>, e: N, nd: N, x: N): seq<N>
    requires Shape(t) && e in t.kids && nd in t.kids && x in t.kids
  {
    TrailEnds(t, e);
    ThroughIff(t, x, e);
    if e in t.trail[x] then t.trail[nd] + t.trail[x][|t.trail[e]| - 1..] else t.trail[x]
  }

  /** `e` leaves the sibling list of `d` and becomes the head of the list of `nd`, under a new
      name.  `d` and `nd` may be the same entry. */
  ghost function Move<N>(t: Tree<N>, d: N, e: N, nd: N, name: string): Tree<N>
    requires Shape(t) && d in t.kids && e in t.kids && nd in t.kids
  {
    var cut := t.kids[d := Without(t.kids[d], e)];
    Tree(t.root,
         cut[nd := [e] + cut[nd]],
         t.name[e := name],
         t.dirs,
         map x | x in t.kids :: MovedTrail(t, e, nd, x))
  }

  ghost predicate Movable<N>(t: Tree<N>, d: N, e: N, nd: N)
    requires Shape(t)
  {
    d in t.kids && e in t.kids[d] && nd in t.dirs && nd in t.kids && e in t.kids
  }

  ghost predicate CanMove<N>(t: Tree<N>, d: N, e: N, nd: N)
    requires Shape(t)
  {
    Movable(t, d, e, nd) && e !in t.trail[nd]
  }

  /** The sibling lists after a move. */
  lemma MovedKids<N>(t: Tree<N>, d: N, e: N, nd: N, name: string, x: N)
    requires Shape(t) && Movable(t, d, e, nd) && x in t.kids
    ensures var u := Move(t, d, e, nd, name);
            && u.kids.Keys == t.kids.Keys == u.trail.Keys
            && (forall y :: y in u.kids[x] ==> if y == e then x == nd else y in t.kids[x])
            && (forall y :: y in t.kids[x] && y != e ==> y in u.kids[x])
            && (x == nd ==> e in u.kids[x])
            && (forall i, j :: 0 <= i < j < |u.kids[x]| ==> u.kids[x][i] != u.kids[x][j])
  {
    hide Shape, MovedTrail, Hangs;
    Frame(t);
    ListIn(t, d);
    ListIn(t, x);
    WithoutDistinct(t.kids[d], e);
    if x != d && e in t.kids[x] {
      OneParent(t, d, x, e);
    }
    var u := Move(t, d, e, nd, name);
    if x == nd {
      assert u.kids[x][0] == e;
      assert u.kids[x][1..] == if d == nd then Without(t.kids[d], e) else t.kids[x];
    }
  }

  lemma ThroughChild<N>(t: Tree<N>, e: N, p: N, y: N)
    requires Shape(t) && e in t.kids && p in t.kids && y in t.kids[p] && y != e
    ensures y in t.kids && t.trail[y] == t.trail[p] + [y] && (e in t.trail[y] <==> e in t.trail[p])
  {
    ChildFacts(t, p, y);
  }

  lemma MovedTrailStep<N>(t: Tree<N>, e: N, nd: N, p: N, y: N)
    requires Shape(t) && e in t.kids && nd in t.kids && p in t.kids && y in t.kids[p] && y != e
    ensures y in t.kids && MovedTrail(t, e, nd, y) == MovedTrail(t, e, nd, p) + [y]
  {
    hide Shape;
    ThroughChild(t, e, p, y);
    ThroughIff(t, p, e);
    TrailEnds(t, e);
  }

  lemma MovedTrailTop<N>(t: Tree<N>, e: N, nd: N)
    requires Shape(t) && e in t.kids && nd in t.kids && e !in t.trail[nd]
    ensures MovedTrail(t, e, nd, e) == MovedTrail(t, e, nd, nd) + [e]
  {
    hide Shape;
    Frame(t);
    TrailEnds(t, e);
    assert t.trail[e][|t.trail[e]| - 1..] == [e];
  }

  lemma MoveListOk<N>(t: Tree<N>, d: N, e: N, nd: N, name: string, x: N)
    requires Shape(t) && CanMove(t, d, e, nd) && x in t.kids
    ensures var u := Move(t, d, e, nd, name);
            x in u.kids && u.trail.Keys == u.kids.Keys && ListOk(u, x)
  {
    hide Shape, MovedTrail;
    MovedKids(t, d, e, nd, name, x);
    var u := Move(t, d, e, nd, name);
    forall y | y in u.kids[x] ensures y in u.kids && u.trail[y] == u.trail[x] + [y] {
      if y == e {
        MovedTrailTop(t, e, nd);
      } else {
        MovedTrailStep(t, e, nd, x, y);
      }
    }
  }

  lemma MoveHangs<N>(t: Tree<N>, d: N, e: N, nd: N, name: string, x: N)
    requires Shape(t) && CanMove(t, d, e, nd) && x in t.kids && x != t.root
    ensures var u := Move(t, d, e, nd, name);
            x in u.kids && u.trail.Keys == u.kids.Keys && Hangs(u, x)
  {
    hide Shape, MovedTrail, ListOk;
    Frame(t);
    var u := Move(t, d, e, nd, name);
    var p := nd;
    if x == e {
      MovedTrailTop(t, e, nd);
    } else {
      HangsIn(t, x);
      p := t.trail[x][|t.trail[x]| - 2];
      MovedTrailStep(t, e, nd, p, x);
    }
    MovedKids(t, d, e, nd, name, p);
    MovedTrailEnds(t, e, nd, p);
    assert u.trail[x] == u.trail[p] + [x];
  }

  lemma MovedTrailEnds<N>(t: Tree<N>, e: N, nd: N, x: N)
    requires Shape(t) && e in t.kids && nd in t.kids && x in t.kids
    ensures var c := MovedTrail(t, e, nd, x); c != [] && c[|c| - 1] == x
  {
    hide Shape;
    TrailEnds(t, x);
    TrailEnds(t, e);
    ThroughIff(t, x, e);
  }

  /** Moving an entry to a directory outside its own subtree keeps the tree a tree. */
  lemma MoveKeepsShape<N>(t: Tree<N>, d: N, e: N, nd: N, name: string)
    requires Shape(t) && CanMove(t, d, e, nd)
    ensures Shape(Move(t, d, e, nd, name))
  {
    hide Shape, ListOk, Hangs, MovedTrail;
    Frame(t);
    var u := Move(t, d, e, nd, name);
    forall x | x in u.kids
      ensures u.trail.Keys == u.kids.Keys && ListOk(u, x) && (x in u.dirs || u.kids[x] == [])
      ensures x != u.root ==> Hangs(u, x)
    {
      MoveListOk(t, d, e, nd, name, x);
      MovedKids(t, d, e, nd, name, x);
      ListIn(t, x);
      if x != t.root {
        MoveHangs(t, d, e, nd, name, x);
      }
    }
    RootStays(t, d, e, nd);
    MakeShape(u);
  }

  lemma RootStays<N>(t: Tree<N>, d: N, e: N, nd: N)
    requires Shape(t) && CanMove(t, d, e, nd)
    ensures t.root in t.kids && MovedTrail(t, e, nd, t.root) == [t.root]
  {
    hide Shape;
    Frame(t);
    ChildFacts(t, d, e);
  }

  lemma Siblings<N>(t: Tree<N>, d: N, e: N, nd: N)
    requires Shape(t) && CanMove(t, d, e, nd)
    ensures forall y :: y in (if d == nd then Without(t.kids[d], e) else t.kids[nd]) ==> y in t.kids[nd] && y != e
  {
    hide Shape, Hangs;
    ListIn(t, d);
    WithoutDistinct(t.kids[d], e);
    if d != nd && e in t.kids[nd] {
      OneParent(t, d, nd, e);
    }
  }

  lemma MoveNamesOk<N>(t: Tree<N>, d: N, e: N, nd: N, name: string, x: N)
    requires Wf(t) && CanMove(t, d, e, nd) && PlainName(name) && x in t.kids
    requires forall y :: y in t.kids[nd] && y != e ==> y in t.name && t.name[y] != name
    requires Shape(Move(t, d, e, nd, name)) && x in Move(t, d, e, nd, name).kids
    ensures NamesOk(Move(t, d, e, nd, name), x)
  {
    hide Shape, Named, MovedTrail;
    var u := Move(t, d, e, nd, name);
    MovedKids(t, d, e, nd, name, x);
    NamesIn(t, x);
    NamesIn(t, d);
    ListIn(u, x);
    Frame(u);
    ApartWithout(t.name, t.kids[d], e);
    if x == nd {
      var rest := if d == nd then Without(t.kids[d], e) else t.kids[nd];
      assert u.kids[x] == [e] + rest;
      Siblings(t, d, e, nd);
      ApartPush(t.name, u.name, rest, e);
    } else {
      assert u.kids[x] == if x == d then Without(t.kids[d], e) else t.kids[x];
      ApartSame(t.name, u.name, u.kids[x]);
    }
  }

  lemma ApartPush<N>(name: map<N, string>, name': map<N, string>, s: seq<N>, e: N)
    requires forall x :: x in s ==> x in name && x in name' && name[x] == name'[x]
    requires e in name' && forall x :: x in s ==> name'[x] != name'[e]
    requires Apart(name, s)
    ensures Apart(name', [e] + s)
  {
    var r := [e] + s;
    forall i, j | 0 <= i < j < |r| ensures name'[r[i]] != name'[r[j]] {
      assert r[j] == s[j - 1];
      if i > 0 {
        assert r[i] == s[i - 1];
      }
    }
  }

  lemma MoveKeepsNames<N>(t: Tree<N>, d: N, e: N, nd: N, name: string)
    requires Wf(t) && CanMove(t, d, e, nd) && NameFits(t, nd, e, name)
    ensures Wf(Move(t, d, e, nd, name))
  {
    hide Shape, NamesOk, MovedTrail;
    MoveKeepsShape(t, d, e, nd, name);
    var u := Move(t, d, e, nd, name);
    MoveKeys(t, d, e, nd, name);
    forall x | x in u.kids ensures NamesOk(u, x) {
      MoveNamesOk(t, d, e, nd, name, x);
    }
  }

  /** `name` is a name that no child of `nd` other than `e` has. */
  ghost predicate NameFits<N>(t: Tree<N>, nd: N, e: N, name: string)
    requires nd in t.kids
  {
    PlainName(name) && forall y :: y in t.kids[nd] && y != e ==> y in t.name && t.name[y] != name
  }

  /** A move within the tree keeps every name usable and every path unambiguous exactly when the
      new name is a name and no other child of the target directory has it. */
  lemma MoveNamesIff<N>(t: Tree<N>, d: N, e: N, nd: N, name: string)
    requires Wf(t) && CanMove(t, d, e, nd)
    ensures Wf(Move(t, d, e, nd, name)) <==> NameFits(t, nd, e, name)
  {
    hide Shape, Named, MovedTrail;
    Frame(t);
    ListIn(t, nd);
    var u := Move(t, d, e, nd, name);
    if NameFits(t, nd, e, name) {
      MoveKeepsNames(t, d, e, nd, name);
    }
    if Wf(u) {
      NamesIn(u, e);
      NamesIn(u, nd);
      MovedKids(t, d, e, nd, name, nd);
      forall y | y in t.kids[nd] && y != e ensures t.name[y] != name {
        ApartPair(u.name, u.kids[nd], e, y);
      }
    }
  }

  lemma ApartPair<N>(name: map<N, string>, s: seq<N>, x: N, y: N)
    requires (forall z :: z in s ==> z in name) && Apart(name, s) && x in s && y in s && x != y
    ensures name[x] != name[y]
  {
    var i :| 0 <= i < |s| && s[i] == x;
    var j :| 0 <= j < |s| && s[j] == y;
    assert if i < j then name[s[i]] != name[s[j]] else name[s[j]] != name[s[i]];
  }

  lemma MoveKeys<N>(t: Tree<N>, d: N, e: N, nd: N, name: string)
    requires Shape(t) && Movable(t, d, e, nd)
    ensures Move(t, d, e, nd, name).kids.Keys == t.kids.Keys
  {
    hide Shape, MovedTrail;
  }

  // ---------- the move that must not happen

  /** Along the old trail below `e`, any trails that fit the moved links only get longer. */
  lemma {:induction false} DeeperBelow<N>(t: Tree<N>, d: N, e: N, nd: N, name: string, trail: map<N, seq<N>>, x: N)
    requires Shape(t) && Movable(t, d, e, nd) && x in t.kids && t.trail.Keys == t.kids.Keys && e in t.trail[x]
    requires Shape(Move(t, d, e, nd, name).(trail := trail))
    ensures trail.Keys == t.kids.Keys && |trail[e]| <= |trail[x]|
    decreases |t.trail[x]|
  {
    hide Shape, MovedTrail;
    Frame(t);
    var u := Move(t, d, e, nd, name).(trail := trail);
    MovedKids(t, d, e, nd, name, x);
    Frame(u);
    if x != e {
      NotRoot(t, x, e);
      HangsIn(t, x);
      var p := t.trail[x][|t.trail[x]| - 2];
      ThroughChild(t, e, p, x);
      DeeperBelow(t, d, e, nd, name, trail, p);
      MovedKids(t, d, e, nd, name, p);
      ListIn(u, p);
    }
  }

  lemma NotRoot<N>(t: Tree<N>, x: N, e: N)
    requires Shape(t) && x in t.kids && t.trail.Keys == t.kids.Keys && e in t.trail[x] && x != e
    ensures x != t.root
  {
    hide Shape;
    Frame(t);
  }

  /** The relinking done by a rename yields a tree exactly when the target directory does not lie
      in the moved subtree: otherwise no assignment of trails fits the new links. */
  lemma MoveIsTreeIff<N>(t: Tree<N>, d: N, e: N, nd: N, name: string)
    requires Shape(t) && Movable(t, d, e, nd) && t.trail.Keys == t.kids.Keys
    ensures (exists trail :: Shape(Move(t, d, e, nd, name).(trail := trail))) <==> e !in t.trail[nd]
  {
    hide Shape, MovedTrail;
    var u := Move(t, d, e, nd, name);
    if e !in t.trail[nd] {
      MoveKeepsShape(t, d, e, nd, name);
      assert u.(trail := u.trail) == u;
    } else {
      forall trail | Shape(u.(trail := trail)) ensures false {
        DeeperBelow(t, d, e, nd, name, trail, nd);
        MovedKids(t, d, e, nd, name, nd);
        ListIn(u.(trail := trail), nd);
      }
    }
  }

  lemma MoveShapeIff<N>(t: Tree<N>, d: N, e: N, nd: N, name: string)
    requires Shape(t) && Movable(t, d, e, nd) && t.trail.Keys == t.kids.Keys
    ensures Shape(Move(t, d, e, nd, name)) <==> e !in t.trail[nd]
  {
    hide Shape, MovedTrail;
    var u := Move(t, d, e, nd, name);
    MoveIsTreeIff(t, d, e, nd, name);
    if e !in t.trail[nd] {
      MoveKeepsShape(t, d, e, nd, name);
    } else {
      assert u.(trail := u.trail) == u;
    }
  }

  // ---------- two renames that go wrong

  /** A root with the directories "a" and "b", and "c" in "a". */
  function Sample(): Tree<nat> {
    Tree(0, map[0 := [1, 2], 1 := [3], 2 := [], 3 := []],
         map[0 := "md", 1 := "a", 2 := "b", 3 := "c"], {0, 1, 2, 3},
         map[0 := [0], 1 := [0, 1], 2 := [0, 2], 3 := [0, 1, 3]])
  }

  lemma SampleLinks()
    ensures var t := Sample();
            Hangs(t, 1) && Hangs(t, 2) && Hangs(t, 3) && ListOk(t, 0) && ListOk(t, 1) && ListOk(t, 2) && ListOk(t, 3)
  {
  }

  lemma SampleOk()
    ensures Wf(Sample())
  {
    SampleLinks();
    hide Hangs, ListOk, Shape, Named;
    MakeShape(Sample());
    SampleNames();
  }

  lemma SampleNames()
    requires Shape(Sample())
    ensures Named(Sample())
  {
    hide Shape;
    var t := Sample();
    assert "a" != "b" by { assert "a"[0] != "b"[0]; }
    assert Apart(t.name, [1, 2]) && Apart(t.name, [3]) && Apart(t.name, []);
    assert forall n :: n in ["md", "a", "b", "c"] ==> PlainName(n);
  }

  /** "a" renamed into its own child "c": no trails make a tree of what the links become. */
  lemma IntoItsChild()
    ensures Wf(Sample()) && Movable(Sample(), 0, 1, 3)
    ensures !exists trail :: Shape(Move(Sample(), 0, 1, 3, "a").(trail := trail))
  {
    SampleOk();
    hide Shape, Named, Move;
    MoveIsTreeIff(Sample(), 0, 1, 3, "a");
  }

  /** "c" renamed to "b" in the root, where there is a "b": the tree stays, the names do not. */
  lemma OntoTakenName()
    ensures Wf(Sample()) && CanMove(Sample(), 1, 3, 0)
    ensures Shape(Move(Sample(), 1, 3, 0, "b")) && !Named(Move(Sample(), 1, 3, 0, "b"))
  {
    SampleOk();
    hide Shape, Named, Move;
    MoveKeepsShape(Sample(), 1, 3, 0, "b");
    MoveNamesIff(Sample(), 1, 3, 0, "b");
    assert 2 in Sample().kids[0] && Sample().name[2] == "b";
  }
}
