/** Reading a directory through a cursor that is a pointer into the sibling list, while the tree
    changes underneath. */
module DirCursor {
  import opened Lists
  import opened PathTree
  import opened TreeSteps

  /** How much of a name a directory record has room for. */
  const NAME_MAX: nat := 0xFF

  function First<N>(s: seq<N>): Option<N> {
    if s == [] then None else Some(s[0])
  }

  /** What the `next` link of `x` leads to in its sibling list. */
  ghost function NextIn<N>(s: seq<N>, x: N): Option<N> {
    if s == [] then None else if s[0] == x then First(s[1..]) else NextIn(s[1..], x)
  }

  /** What happens between mounting and closing the directory handle. */
  datatype Event<N> =
    | Next
    | Link(dir: N, node: N, name: string, isDir: bool)
    | Cut(dir: N, node: N)
    | Shift(dir: N, node: N, newDir: N, name: string)

  /** The tree after an event. */
  ghost function Change<N>(t: Tree<N>, ev: Event<N>): Tree<N>
    requires Shape(t) && EventOk(t, ev)
  {
    match ev
    case Next => t
    case Link(p, n, name, isDir) => LinkNew(t, p, n, name, isDir)
    case Cut(p, e) => Unlink(t, p, e)
    case Shift(p, e, np, name) => Move(t, p, e, np, name)
  }

  ghost predicate EventOk<N>(t: Tree<N>, ev: Event<N>)
    requires Shape(t)
  {
    match ev
    case Next => true
    case Link(p, n, _, _) => p in t.kids && p in t.dirs && n !in t.kids
    case Cut(p, e) => p in t.kids && e in t.kids && e in t.kids[p] && t.kids[e] == []
    case Shift(p, e, np, _) => CanMove(t, p, e, np)
  }

  /** The event does not remove the open directory, and does not take away the entry the cursor
      points at. */
  ghost predicate Spares<N>(d: N, cur: Option<N>, ev: Event<N>) {
    && (ev.Cut? ==> ev.node != d)
    && (ev.Cut? || ev.Shift? ==> cur != Some(ev.node))
  }

  lemma ChangeKeepsShape<N>(t: Tree<N>, ev: Event<N>)
    requires Shape(t) && EventOk(t, ev)
    ensures Shape(Change(t, ev))
  {
    hide Shape;
    match ev
    case Next =>
    case Link(p, n, name, isDir) => LinkKeepsShape(t, p, n, name, isDir);
    case Cut(p, e) => UnlinkKeepsShape(t, p, e);
    case Shift(p, e, np, name) => MoveKeepsShape(t, p, e, np, name);
  }

  ghost function Changed<N>(t: Tree<N>, ev: Event<N>): (u: Tree<N>)
    requires Shape(t) && EventOk(t, ev)
    ensures Shape(u)
  {
    hide Shape, Change;
    ChangeKeepsShape(t, ev);
    Change(t, ev)
  }

  /** What is left to read, as a list: a change takes entries out of it, never in. */
  ghost function LeftAfter<N>(rest: seq<N>, ev: Event<N>): seq<N> {
    if (ev.Cut? || ev.Shift?) && ev.node in rest then Without(rest, ev.node) else rest
  }

  ghost predicate Suffix<N>(rest: seq<N>, s: seq<N>) {
    |rest| <= |s| && s[|s| - |rest|..] == rest
  }

  lemma {:induction false} NextOfSuffix<N>(s: seq<N>, rest: seq<N>)
    requires Distinct(s) && Suffix(rest, s) && rest != []
    ensures NextIn(s, rest[0]) == First(rest[1..]) && Suffix(rest[1..], s)
  {
    assert rest[0] == s[|s| - |rest|];
    if |rest| < |s| {
      assert s[1..][|s[1..]| - |rest|..] == s[|s| - |rest|..];
      NextOfSuffix(s[1..], rest);
    }
  }

  lemma SuffixPush<N>(s: seq<N>, rest: seq<N>, n: N)
    requires Suffix(rest, s)
    ensures Suffix(rest, [n] + s)
  {
    assert ([n] + s)[1 + |s| - |rest|..] == s[|s| - |rest|..];
  }

  lemma SuffixWithout<N>(s: seq<N>, rest: seq<N>, e: N)
    requires Distinct(s) && Suffix(rest, s)
    ensures Suffix(if e in rest then Without(rest, e) else rest, Without(s, e))
  {
    var pre := s[..|s| - |rest|];
    assert s == pre + rest;
    WithoutConcat(pre, rest, e);
    WithoutAbsent(rest, e);
    assert forall i :: 0 <= i < |pre| ==> pre[i] == s[i];
    assert forall i :: 0 <= i < |rest| ==> rest[i] == s[|pre| + i];
    hide Without;
    var w := if e in pre then Without(pre, e) else pre;
    var left := if e in rest then Without(rest, e) else rest;
    assert Without(s, e) == w + left;
    assert (w + left)[|w|..] == left;
  }

  /** After any change that spares the cursor, the cursor still stands at the head of what is left
      to read, and that is still the end of the directory's list. */
  lemma ChangeKeepsCursor<N>(t: Tree<N>, d: N, rest: seq<N>, ev: Event<N>)
    requires Shape(t) && EventOk(t, ev) && !ev.Next? && d in t.kids && Suffix(rest, t.kids[d])
    requires Spares(d, First(rest), ev)
    ensures d in Change(t, ev).kids && Suffix(LeftAfter(rest, ev), Change(t, ev).kids[d])
    ensures First(LeftAfter(rest, ev)) == First(rest)
  {
    hide Shape, Suffix, Without, First;
    match ev
    case Next =>
    case Link(p, n, name, isDir) =>
      SuffixPush(t.kids[d], rest, n);
    case Cut(p, e) =>
      CutList(t, d, p, e, rest);
    case Shift(p, e, np, name) =>
      ShiftList(t, d, p, e, np, name, rest);
  }

  lemma ShiftList<N>(t: Tree<N>, d: N, p: N, e: N, np: N, name: string, rest: seq<N>)
    requires Shape(t) && CanMove(t, p, e, np) && d in t.kids && Suffix(rest, t.kids[d]) && First(rest) != Some(e)
    ensures var left := if e in rest then Without(rest, e) else rest;
            d in Move(t, p, e, np, name).kids && Suffix(left, Move(t, p, e, np, name).kids[d]) && First(left) == First(rest)
  {
    hide Shape, Suffix, Without, First, MovedTrail;
    CutList(t, d, p, e, rest);
    var cut := t.kids[p := Without(t.kids[p], e)];
    SuffixPush(cut[d], if e in rest then Without(rest, e) else rest, e);
  }

  /** The list of `d` after `e` has been taken out of the list of `p`. */
  lemma CutList<N>(t: Tree<N>, d: N, p: N, e: N, rest: seq<N>)
    requires Shape(t) && d in t.kids && p in t.kids && e in t.kids[p] && Suffix(rest, t.kids[d]) && First(rest) != Some(e)
    ensures var left := if e in rest then Without(rest, e) else rest;
            Suffix(left, t.kids[p := Without(t.kids[p], e)][d]) && First(left) == First(rest)
  {
    hide Shape;
    ListIn(t, d);
    assert forall j :: 0 <= j < |rest| ==> rest[j] == t.kids[d][|t.kids[d]| - |rest| + j];
    if p == d {
      SuffixWithout(t.kids[d], rest, e);
    } else if e in t.kids[d] {
      OneParent(t, p, d, e);
    }
  }

  // ---------- enumeration

  /** The entries the reads return: each read returns the entry at the cursor and follows its
      `next` link as it is at that moment. */
  ghost function Read<N>(t: Tree<N>, d: N, cur: Option<N>, evs: seq<Event<N>>): seq<N>
    requires Shape(t) && d in t.kids && RunOk(t, d, cur, evs)
    decreases |evs|
  {
    hide Shape, Changed, EventOk;
    if evs == [] then []
    else if evs[0].Next? then
      (match cur
       case None => Read(t, d, None, evs[1..])
       case Some(x) => [x] + Read(t, d, NextIn(t.kids[d], x), evs[1..]))
    else
      Read(Changed(t, evs[0]), d, cur, evs[1..])
  }

  ghost predicate RunOk<N>(t: Tree<N>, d: N, cur: Option<N>, evs: seq<Event<N>>)
    requires Shape(t) && d in t.kids
    decreases |evs|
  {
    hide Shape, Changed, EventOk;
    if evs == [] then true
    else if evs[0].Next? then
      RunOk(t, d, match cur { case None => None case Some(x) => NextIn(t.kids[d], x) }, evs[1..])
    else
      && EventOk(t, evs[0]) && Spares(d, cur, evs[0])
      && d in Changed(t, evs[0]).kids && RunOk(Changed(t, evs[0]), d, cur, evs[1..])
  }

  /** The same on the list of entries that were there at the start. */
  ghost function ReadList<N>(rest: seq<N>, evs: seq<Event<N>>): seq<N>
    decreases |evs|
  {
    if evs == [] then []
    else if evs[0].Next? then
      if rest == [] then ReadList(rest, evs[1..]) else [rest[0]] + ReadList(rest[1..], evs[1..])
    else ReadList(LeftAfter(rest, evs[0]), evs[1..])
  }

  lemma {:induction false} ReadIsReadList<N>(t: Tree<N>, d: N, rest: seq<N>, evs: seq<Event<N>>)
    requires Shape(t) && d in t.kids && Suffix(rest, t.kids[d]) && RunOk(t, d, First(rest), evs)
    ensures Read(t, d, First(rest), evs) == ReadList(rest, evs)
    decreases |evs|
  {
    hide Shape, Change, Suffix;
    if evs == [] {
    } else if evs[0].Next? {
      if rest == [] {
        ReadIsReadList(t, d, rest, evs[1..]);
      } else {
        ListIn(t, d);
        NextOfSuffix(t.kids[d], rest);
        ReadIsReadList(t, d, rest[1..], evs[1..]);
      }
    } else {
      ChangeKeepsCursor(t, d, rest, evs[0]);
      ReadIsReadList(Changed(t, evs[0]), d, LeftAfter(rest, evs[0]), evs[1..]);
    }
  }

  function Reads<N>(evs: seq<Event<N>>): nat {
    if evs == [] then 0 else (if evs[0].Next? then 1 else 0) + Reads(evs[1..])
  }

  lemma {:induction false} OnlyAdditions<N>(rest: seq<N>, evs: seq<Event<N>>)
    requires forall ev :: ev in evs ==> ev.Next? || ev.Link?
    ensures ReadList(rest, evs) == rest[..if Reads(evs) <= |rest| then Reads(evs) else |rest|]
    decreases |evs|
  {
    if evs != [] {
      if evs[0].Next? && rest != [] {
        OnlyAdditions(rest[1..], evs[1..]);
      } else {
        OnlyAdditions(rest, evs[1..]);
      }
    }
  }

  /** Opening a directory and reading it to the end returns exactly the children it had when it was
      opened, each once and in list order, whatever files and directories are created meanwhile. */
  lemma EnumerationIsComplete<N>(t: Tree<N>, d: N, evs: seq<Event<N>>)
    requires Shape(t) && d in t.kids && RunOk(t, d, First(t.kids[d]), evs)
    requires forall ev :: ev in evs ==> ev.Next? || ev.Link?
    requires Reads(evs) >= |t.kids[d]|
    ensures Read(t, d, First(t.kids[d]), evs) == t.kids[d]
    ensures forall i, j :: 0 <= i < j < |t.kids[d]| ==> t.kids[d][i] != t.kids[d][j]
  {
    hide Shape, Read, ReadList, RunOk;
    ListIn(t, d);
    ReadIsReadList(t, d, t.kids[d], evs);
    OnlyAdditions(t.kids[d], evs);
  }
}
