/** The directory tree of the in-memory volume, as a value, and the meaning of paths in it.

    Entries are opaque identities of type `N`.  `kids` gives the sibling list that hangs off each
    entry (the chain `next_dir`, `next`, `next`, ... of the program), and `trail` the chain of
    entries from the root down to each entry.  An entry whose name pointer is null has name "". */
module PathTree {

  datatype Option<+T> = None | Some(value: T)

  datatype Lookup<+N> = Found(entry: N) | Failed(code: int)

  const BAD_PATH := -1
  const BAD_COMPONENT := -2
  const NO_ENTRY: int := 0x8001_0002 - 0x1_0000_0000

  datatype Tree<N> = Tree(
    root: N,
    kids: map<N, seq<N>>,
    name: map<N, string>,
    dirs: set<N>,
    trail: map<N, seq<N>>)

  /** The sibling list of `d`: distinct entries, each one step below `d`. */
  ghost predicate ListOk<N>(t: Tree<N>, d: N)
    requires d in t.kids && t.trail.Keys == t.kids.Keys
  {
    && (forall x :: x in t.kids[d] ==> x in t.kids && t.trail[x] == t.trail[d] + [x])
    && (forall i, j :: 0 <= i < j < |t.kids[d]| ==> t.kids[d][i] != t.kids[d][j])
  }

  /** `x` hangs in the sibling list of the entry just above it on its trail. */
  ghost predicate Hangs<N>(t: Tree<N>, x: N)
    requires x in t.kids && t.trail.Keys == t.kids.Keys
  {
    var c := t.trail[x];
    && |c| >= 2
    && c[|c| - 1] == x
    && c[|c| - 2] in t.kids
    && x in t.kids[c[|c| - 2]]
  }

  /** The links form one finite tree: every entry other than the root has exactly one incoming
      link, and its trail leads to it from the root. */
  ghost predicate Shape<N>(t: Tree<N>) {
    && t.root in t.kids
    && t.root in t.dirs
    && t.trail.Keys == t.kids.Keys
    && t.name.Keys == t.kids.Keys
    && t.dirs <= t.kids.Keys
    && t.trail[t.root] == [t.root]
    && (forall x :: x in t.kids && x != t.root ==> Hangs(t, x))
    && (forall d :: d in t.kids ==> ListOk(t, d))
    && (forall d :: d in t.kids && d !in t.dirs ==> t.kids[d] == [])
  }

  lemma Frame<N>(t: Tree<N>)
    requires Shape(t)
    ensures t.root in t.kids && t.root in t.dirs && t.trail.Keys == t.kids.Keys == t.name.Keys
    ensures t.dirs <= t.kids.Keys && t.trail[t.root] == [t.root]
  {
    hide ListOk, Hangs;
  }

  lemma HangsIn<N>(t: Tree<N>, x: N)
    requires Shape(t) && x in t.kids && x != t.root
    ensures t.trail.Keys == t.kids.Keys && Hangs(t, x)
  {
    hide ListOk;
  }

  lemma ListIn<N>(t: Tree<N>, d: N)
    requires Shape(t) && d in t.kids
    ensures t.trail.Keys == t.kids.Keys && ListOk(t, d)
    ensures d !in t.dirs ==> t.kids[d] == []
  {
    hide Hangs;
  }

  lemma MakeShape<N>(t: Tree<N>)
    requires t.root in t.kids && t.root in t.dirs && t.trail.Keys == t.kids.Keys && t.name.Keys == t.kids.Keys
    requires t.dirs <= t.kids.Keys && t.trail[t.root] == [t.root]
    requires forall x :: x in t.kids && x != t.root ==> Hangs(t, x)
    requires forall d :: d in t.kids ==> ListOk(t, d)
    requires forall d :: d in t.kids && d !in t.dirs ==> t.kids[d] == []
    ensures Shape(t)
  {
    hide ListOk, Hangs;
  }

  predicate PlainName(s: string) {
    s != "" && '/' !in s && '\0' !in s
  }

  ghost predicate Apart<N>(name: map<N, string>, list: seq<N>)
    requires forall x :: x in list ==> x in name
  {
    forall i, j :: 0 <= i < j < |list| ==> name[list[i]] != name[list[j]]
  }

  ghost predicate NamesOk<N>(t: Tree<N>, d: N)
    requires Shape(t) && d in t.kids
  {
    ListIn(t, d);
    PlainName(t.name[d]) && Apart(t.name, t.kids[d])
  }

  /** Every entry has a name without '/', and siblings have different names. */
  ghost predicate Named<N>(t: Tree<N>)
    requires Shape(t)
  {
    forall d :: d in t.kids ==> NamesOk(t, d)
  }

  ghost predicate Wf<N>(t: Tree<N>) {
    Shape(t) && Named(t)
  }

  // ---------- paths

  /** Prints a chain of entries: "/" and the name of each. */
  ghost function Spell<N>(name: map<N, string>, chain: seq<N>): string
    requires forall x :: x in chain ==> x in name
  {
    if chain == [] then "" else "/" + name[chain[0]] + Spell(name, chain[1..])
  }

  lemma TrailEnds<N>(t: Tree<N>, e: N)
    requires Shape(t) && e in t.kids
    ensures t.trail[e] != [] && t.trail[e][|t.trail[e]| - 1] == e
  {
    assert e == t.root || Hangs(t, e);
  }

  lemma TrailInTree<N>(t: Tree<N>, e: N, k: nat)
    requires Shape(t) && e in t.kids && k < |t.trail[e]|
    ensures t.trail[e][k] in t.kids && t.trail[t.trail[e][k]] == t.trail[e][..k + 1]
    decreases |t.trail[e]|
  {
    var c := t.trail[e];
    if k == |c| - 1 {
      assert c[..k + 1] == c;
    } else {
      var p := c[|c| - 2];
      assert c == t.trail[p] + [e];
      TrailInTree(t, p, k);
      assert t.trail[p][..k + 1] == c[..k + 1];
    }
  }

  lemma TrailMembers<N>(t: Tree<N>, e: N)
    requires Shape(t) && e in t.kids
    ensures forall x :: x in t.trail[e] ==> x in t.kids
  {
    forall x | x in t.trail[e] ensures x in t.kids {
      var k :| 0 <= k < |t.trail[e]| && t.trail[e][k] == x;
      TrailInTree(t, e, k);
    }
  }

  /** The absolute path of an entry. */
  ghost function PathOf<N>(t: Tree<N>, e: N): string
    requires Shape(t) && e in t.kids
  {
    TrailMembers(t, e);
    Spell(t.name, t.trail[e])
  }

  /** Where the next '/' at or after `i` is; the length of the string if there is none. */
  function NextSlash(p: string, i: nat): (j: nat)
    requires i <= |p|
    ensures i <= j <= |p|
    ensures '/' !in p[i..j]
    ensures j < |p| ==> p[j] == '/'
    decreases |p| - i
  {
    if i == |p| || p[i] == '/' then i else NextSlash(p, i + 1)
  }

  function FindNamed<N>(name: map<N, string>, level: seq<N>, component: string): (r: Option<N>)
    requires forall x :: x in level ==> x in name
    ensures r.Some? ==> r.value in level && name[r.value] == component
    ensures r.None? ==> forall x :: x in level ==> name[x] != component
  {
    if level == [] then None
    else if name[level[0]] == component then Some(level[0])
    else FindNamed(name, level[1..], component)
  }

  /** The scan of one path from position `i`, which is at a '/', with `level` the sibling list
      to search. */
  ghost function Scan<N>(t: Tree<N>, level: seq<N>, p: string, i: nat): (r: Lookup<N>)
    requires Shape(t) && i < |p| && p[i] == '/'
    requires forall x :: x in level ==> x in t.kids
    ensures match r { case Found(e) => e in t.kids case Failed(code) => code in {BAD_COMPONENT, NO_ENTRY} }
    decreases |p| - i
  {
    hide Hangs;
    var j := NextSlash(p, i + 1);
    if j == i + 1 then Failed(BAD_COMPONENT)
    else match FindNamed(t.name, level, p[i + 1..j])
      case None => Failed(NO_ENTRY)
      case Some(e) => if j == |p| then Found(e) else Scan(t, t.kids[e], p, j)
  }

  ghost function Resolve<N>(t: Tree<N>, p: string): (r: Lookup<N>)
    requires Shape(t)
    ensures match r { case Found(e) => e in t.kids case Failed(code) => code in {BAD_PATH, BAD_COMPONENT, NO_ENTRY} }
  {
    if p == "" || p[0] != '/' then Failed(BAD_PATH) else Scan(t, [t.root], p, 0)
  }

  // ---------- soundness and completeness of path resolution

  /** `level` is the sibling list below the chain `above`. */
  ghost predicate Level<N>(t: Tree<N>, level: seq<N>, above: seq<N>)
    requires Shape(t)
  {
    if above == [] then level == [t.root]
    else
      var d := above[|above| - 1];
      d in t.kids && t.trail[d] == above && level == t.kids[d]
  }

  lemma LevelEntry<N>(t: Tree<N>, level: seq<N>, above: seq<N>, x: N)
    requires Shape(t) && Level(t, level, above) && x in level
    ensures x in t.kids && t.trail[x] == above + [x] && Level(t, t.kids[x], t.trail[x])
    ensures forall y :: y in t.kids[x] ==> y in t.kids
  {
    assert ListOk(t, x);
  }

  lemma LevelDistinct<N>(t: Tree<N>, level: seq<N>, above: seq<N>, x: N, y: N)
    requires Wf(t) && Level(t, level, above) && x in level && y in level
    requires t.name[x] == t.name[y]
    ensures x == y
  {
    if above != [] {
      var d := above[|above| - 1];
      assert NamesOk(t, d);
    }
  }

  lemma {:induction false} ScanSound<N>(t: Tree<N>, level: seq<N>, above: seq<N>, p: string, i: nat)
    requires Shape(t) && Level(t, level, above) && i < |p| && p[i] == '/'
    requires forall x :: x in level ==> x in t.kids
    requires Scan(t, level, p, i).Found?
    ensures var e := Scan(t, level, p, i).entry;
            e in t.kids && above < t.trail[e] && (forall x :: x in t.trail[e] ==> x in t.name)
            && p[i..] == Spell(t.name, t.trail[e][|above|..])
    decreases |p| - i
  {
    hide ListOk, Hangs;
    var e := Scan(t, level, p, i).entry;
    var j := NextSlash(p, i + 1);
    var x := FindNamed(t.name, level, p[i + 1..j]).value;
    LevelEntry(t, level, above, x);
    assert p[i..] == "/" + t.name[x] + p[j..];
    if j == |p| {
      assert t.trail[e][|above|..] == [x];
      TrailMembers(t, e);
    } else {
      ScanSound(t, t.kids[x], t.trail[x], p, j);
      assert t.trail[e][|above|..][1..] == t.trail[e][|t.trail[x]|..];
    }
  }

  lemma SpellStart<N>(name: map<N, string>, chain: seq<N>)
    requires forall x :: x in chain ==> x in name
    ensures chain == [] <==> Spell(name, chain) == ""
    ensures chain != [] ==> Spell(name, chain)[0] == '/'
  {
  }

  lemma {:induction false} NextSlashAt(p: string, i: nat, j: nat)
    requires i <= j <= |p| && '/' !in p[i..j] && (j == |p| || p[j] == '/')
    ensures NextSlash(p, i) == j
    decreases j - i
  {
    if i < j {
      assert p[i..j][0] == p[i] && p[i..j][1..] == p[i + 1..j];
      NextSlashAt(p, i + 1, j);
    }
  }

  /** A name without '/' is cut off exactly where it ends. */
  lemma CutName(p: string, i: nat, s: string, rest: string)
    requires i <= |p| && p[i..] == "/" + s + rest && '/' !in s && (rest == "" || rest[0] == '/')
    ensures NextSlash(p, i + 1) == i + 1 + |s| && p[i + 1..i + 1 + |s|] == s && p[i + 1 + |s|..] == rest
  {
    var q := p[i..];
    var j := i + 1 + |s|;
    assert p[i + 1..j] == q[1..1 + |s|] == s;
    assert p[j..] == q[1 + |s|..] == rest;
    NextSlashAt(p, i + 1, j);
  }

  lemma NextOnTrail<N>(t: Tree<N>, level: seq<N>, above: seq<N>, e: N)
    requires Wf(t) && Level(t, level, above) && e in t.kids && above < t.trail[e]
    ensures var x := t.trail[e][|above|];
            x in level && t.trail[x] == above + [x] && x in t.kids && PlainName(t.name[x])
  {
    var k := |above|;
    var x := t.trail[e][k];
    TrailInTree(t, e, k);
    assert t.trail[x][..k] == above;
    if k > 0 {
      assert Hangs(t, x);
    }
  }

  lemma {:induction false} ScanComplete<N>(t: Tree<N>, level: seq<N>, above: seq<N>, p: string, i: nat, e: N)
    requires Wf(t) && Level(t, level, above) && i < |p| && p[i] == '/'
    requires forall x :: x in level ==> x in t.kids
    requires e in t.kids && above < t.trail[e] && (forall x :: x in t.trail[e] ==> x in t.name)
    requires p[i..] == Spell(t.name, t.trail[e][|above|..])
    ensures Scan(t, level, p, i) == Found(e)
    decreases |p| - i
  {
    hide ListOk, Hangs, Named;
    var c := t.trail[e];
    var k := |above|;
    var x := c[k];
    NextOnTrail(t, level, above, e);
    var rest := Spell(t.name, c[k..][1..]);
    assert c[k..][1..] == c[k + 1..];
    SpellStart(t.name, c[k + 1..]);
    CutName(p, i, t.name[x], rest);
    var j := NextSlash(p, i + 1);
    var y := FindNamed(t.name, level, p[i + 1..j]).value;
    LevelDistinct(t, level, above, x, y);
    LevelEntry(t, level, above, x);
    assert t.trail[x] == c[..k + 1];
    if j == |p| {
      assert c == t.trail[x];
      TrailEnds(t, e);
    } else {
      assert k + 1 < |c|;
      ScanComplete(t, t.kids[x], t.trail[x], p, j, e);
    }
  }

  /** Path resolution is sound and complete: a lookup finds `e` exactly when the path is the
      printed path of `e`. */
  lemma ResolveIff<N>(t: Tree<N>, p: string, e: N)
    requires Wf(t)
    ensures Resolve(t, p) == Found(e) <==> e in t.kids && PathOf(t, e) == p
  {
    if Resolve(t, p) == Found(e) {
      ScanSound(t, [t.root], [], p, 0);
      assert t.trail[e][0..] == t.trail[e];
    }
    if e in t.kids && PathOf(t, e) == p {
      TrailMembers(t, e);
      SpellStart(t.name, t.trail[e]);
      assert t.trail[e][0..] == t.trail[e];
      assert t.trail[e] != [];
      assert p[0..] == p;
      ScanComplete(t, [t.root], [], p, 0, e);
    }
  }

  lemma PathsAreUnique<N>(t: Tree<N>, a: N, b: N)
    requires Wf(t) && a in t.kids && b in t.kids && PathOf(t, a) == PathOf(t, b)
    ensures a == b
  {
    ResolveIff(t, PathOf(t, a), a);
    ResolveIff(t, PathOf(t, a), b);
  }

  // ---------- which paths are rejected, and how

  /** Position `j` of the path is a '/' that nothing follows, and the part before it resolves. */
  ghost predicate EmptyComponentAt<N>(t: Tree<N>, p: string, j: nat)
    requires Shape(t)
  {
    && j < |p| && p[j] == '/'
    && (j + 1 == |p| || p[j + 1] == '/')
    && (j == 0 || Resolve(t, p[..j]).Found?)
  }

  lemma SpellAppend<N>(name: map<N, string>, a: seq<N>, x: N)
    requires x in name && forall y :: y in a ==> y in name
    ensures Spell(name, a + [x]) == Spell(name, a) + "/" + name[x]
  {
    if a != [] {
      assert (a + [x])[1..] == a[1..] + [x];
      SpellAppend(name, a[1..], x);
    } else {
      assert (a + [x])[1..] == [];
    }
  }

  lemma AboveResolves<N>(t: Tree<N>, level: seq<N>, above: seq<N>, p: string)
    requires Wf(t) && Level(t, level, above) && above != []
    requires (forall x :: x in above ==> x in t.name) && Spell(t.name, above) == p
    ensures Resolve(t, p).Found?
  {
    ResolveIff(t, p, above[|above| - 1]);
  }

  lemma {:induction false} ScanReachesEmpty<N>(t: Tree<N>, level: seq<N>, above: seq<N>, p: string, i: nat)
    returns (j: nat)
    requires Wf(t) && Level(t, level, above) && i < |p| && p[i] == '/'
    requires forall x :: x in level ==> x in t.kids
    requires (forall x :: x in above ==> x in t.name) && Spell(t.name, above) == p[..i]
    requires Scan(t, level, p, i) == Failed(BAD_COMPONENT)
    ensures EmptyComponentAt(t, p, j)
    decreases |p| - i
  {
    hide ListOk, Hangs, Named;
    j := NextSlash(p, i + 1);
    if j == i + 1 {
      j := i;
      if i > 0 {
        AboveResolves(t, level, above, p[..i]);
      }
    } else {
      var x := FindNamed(t.name, level, p[i + 1..j]).value;
      LevelEntry(t, level, above, x);
      SpellAppend(t.name, above, x);
      assert p[..j] == p[..i] + "/" + p[i + 1..j];
      TrailMembers(t, x);
      j := ScanReachesEmpty(t, t.kids[x], t.trail[x], p, j);
    }
  }

  /** A scan that succeeds on a part of the path passes through the entry it found there. */
  lemma {:induction false} ScanPasses<N>(t: Tree<N>, level: seq<N>, above: seq<N>, p: string, i: nat, j: nat)
    requires Shape(t) && Level(t, level, above) && i < j < |p| && p[i] == '/' && p[j] == '/'
    requires forall x :: x in level ==> x in t.kids
    requires Scan(t, level, p[..j], i).Found?
    ensures var e := Scan(t, level, p[..j], i).entry;
            e in t.kids && Scan(t, level, p, i) == Scan(t, t.kids[e], p, j)
    decreases |p| - i
  {
    hide ListOk, Hangs;
    var q := p[..j];
    var k := NextSlash(q, i + 1);
    assert p[i + 1..k] == q[i + 1..k];
    NextSlashAt(p, i + 1, k);
    var x := FindNamed(t.name, level, q[i + 1..k]).value;
    LevelEntry(t, level, above, x);
    if k < j {
      ScanPasses(t, t.kids[x], t.trail[x], p, k, j);
    }
  }

  /** The lookup reports an empty component exactly when its scan reaches one; so a path with
      "//" or a trailing '/' never resolves. */
  lemma EmptyComponentIff<N>(t: Tree<N>, p: string)
    requires Wf(t) && p != "" && p[0] == '/'
    ensures Resolve(t, p) == Failed(BAD_COMPONENT) <==> exists j :: EmptyComponentAt(t, p, j)
  {
    if Resolve(t, p) == Failed(BAD_COMPONENT) {
      var j := ScanReachesEmpty(t, [t.root], [], p, 0);
    }
    forall j: nat | EmptyComponentAt(t, p, j)
      ensures Resolve(t, p) == Failed(BAD_COMPONENT)
    {
      if j > 0 {
        ScanPasses(t, [t.root], [], p, 0, j);
      }
    }
  }

  lemma {:induction false} SpellIsClean<N>(name: map<N, string>, chain: seq<N>, k: nat)
    requires (forall x :: x in chain ==> x in name && PlainName(name[x]))
    requires k < |Spell(name, chain)| && Spell(name, chain)[k] == '/'
    ensures k + 1 < |Spell(name, chain)| && Spell(name, chain)[k + 1] != '/'
  {
    var s := name[chain[0]];
    var rest := Spell(name, chain[1..]);
    assert Spell(name, chain) == "/" + s + rest;
    assert forall m :: 0 < m <= |s| ==> Spell(name, chain)[m] == s[m - 1] && s[m - 1] in s;
    if k > 0 {
      SpellIsClean(name, chain[1..], k - 1 - |s|);
    }
  }

  /** Only a path that starts with '/', has no empty component and does not end in '/' resolves. */
  lemma OnlyCleanPathsResolve<N>(t: Tree<N>, p: string)
    requires Wf(t) && Resolve(t, p).Found?
    ensures p != "" && p[0] == '/'
    ensures forall k :: 0 <= k < |p| && p[k] == '/' ==> k + 1 < |p| && p[k + 1] != '/'
  {
    var e := Resolve(t, p).entry;
    ResolveIff(t, p, e);
    TrailMembers(t, e);
    forall k | 0 <= k < |p| && p[k] == '/'
      ensures k + 1 < |p| && p[k + 1] != '/'
    {
      SpellIsClean(t.name, t.trail[e], k);
    }
  }

  /** A path that starts with '/', has no empty component and does not end in '/'. */
  predicate Clean(p: string) {
    && p != "" && p[0] == '/'
    && forall k :: 0 <= k < |p| && p[k] == '/' ==> k + 1 < |p| && p[k + 1] != '/'
  }

  /** The three ways for a lookup to fail, each for paths of its own: a path that does not start with
      '/', one with an empty component where the scan still has an entry, and one that leads nowhere. */
  lemma FailureCodes<N>(t: Tree<N>, p: string)
    requires Wf(t)
    ensures Resolve(t, p) == Failed(-1) <==> p == "" || p[0] != '/'
    ensures Resolve(t, p) == Failed(-2) <==> p != "" && p[0] == '/' && exists j :: EmptyComponentAt(t, p, j)
    ensures Resolve(t, p) == Failed(0x8001_0002 - 0x1_0000_0000) <==>
              && p != "" && p[0] == '/' && (forall j :: !EmptyComponentAt(t, p, j))
              && forall e :: e in t.kids ==> PathOf(t, e) != p
    ensures Clean(p) && Resolve(t, p).Failed? ==> Resolve(t, p) == Failed(0x8001_0002 - 0x1_0000_0000)
  {
    hide Shape, Named;
    if p != "" && p[0] == '/' {
      EmptyComponentIff(t, p);
    }
    forall e | e in t.kids ensures PathOf(t, e) == p <==> Resolve(t, p) == Found(e) {
      ResolveIff(t, p, e);
    }
  }
}
