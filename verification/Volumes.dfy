/** The linked volume: entries chained by `next` and `next_dir`, and the operations that search
    and relink them in place. */
module Volumes {
  import opened Lists
  import opened PathTree
  import opened TreeSteps
  import opened TreePaths
  import opened FlatFs
  import opened Entries
  import FileSpec

  function EntryIn(s: seq<Entry>, i: int): (e: Entry?)
    ensures 0 <= i < |s| ==> e == s[i]
    ensures !(0 <= i < |s|) ==> e == null
  {
    if 0 <= i < |s| then s[i] else null
  }

  /** The sibling list that starts at `head`. */
  ghost predicate Chain(head: Entry?, s: seq<Entry>)
    reads s`next
  {
    && head == EntryIn(s, 0)
    && (forall i {:trigger s[i].next} :: 0 <= i < |s| ==> s[i].next == EntryIn(s, i + 1))
  }

  ghost function Members(m: map<Entry, seq<Entry>>): (r: set<Entry>)
    ensures forall d, x :: d in m && x in m[d] ==> x in r
  {
    set d, x | d in m && x in m[d] :: x
  }

  /** The chains that hang off a set of directories are the lists of `m`. */
  ghost predicate Chained(m: map<Entry, seq<Entry>>)
    reads m.Keys`nextDir, Members(m)`next
  {
    forall d :: d in m ==> Chain(d.nextDir, m[d])
  }

  /** No entry occurs twice in the lists of `m`. */
  ghost predicate Disjoint(m: map<Entry, seq<Entry>>) {
    && (forall d :: d in m ==> Distinct(m[d]))
    && (forall d, d', x :: d in m && d' in m && x in m[d] && x in m[d'] ==> d == d')
  }

  /** Names and kinds of the entries are those of the tree. */
  ghost predicate Labelled(t: Tree<Entry>)
    reads t.kids.Keys`name, t.kids.Keys`isDir
  {
    && t.name.Keys == t.kids.Keys
    && forall e :: e in t.kids ==> e.name == t.name[e] && (e.isDir <==> e in t.dirs)
  }

  lemma KidsDisjoint(t: Tree<Entry>)
    requires Shape(t)
    ensures Disjoint(t.kids)
  {
    hide Shape;
    forall d | d in t.kids ensures Distinct(t.kids[d]) {
      ListIn(t, d);
    }
    forall d, d', x | d in t.kids && d' in t.kids && x in t.kids[d] && x in t.kids[d'] ensures d == d' {
      OneParent(t, d, d', x);
    }
  }

  /** A place where a pointer to an entry is stored: the head of a directory's list, or the link
      of the entry before. */
  datatype Slot = Head(dir: Entry) | Behind(prev: Entry)

  ghost function SlotAt(dir: Entry, s: seq<Entry>, k: nat): Slot
    requires k <= |s|
  {
    if k == 0 then Head(dir) else Behind(s[k - 1])
  }

  /** Stores the link of `e` where the pointer to `e` was. */
  method CutList(ghost s: seq<Entry>, dir: Entry, e: Entry, slot: Slot, ghost k: nat)
    requires Chain(dir.nextDir, s) && Distinct(s) && k < |s| && s[k] == e && slot == SlotAt(dir, s, k)
    modifies dir`nextDir, s`next
    ensures Chain(dir.nextDir, Without(s, e))
  {
    ghost var w := Without(s, e);
    WithoutAt(s, e, k);
    hide Without;
    match slot {
      case Head(d) => d.nextDir := e.next;
      case Behind(prev) => prev.next := e.next;
    }
    forall i | 0 <= i < |w| ensures w[i].next == EntryIn(w, i + 1) {
      assert w[i] == s[if i < k then i else i + 1];
    }
  }

  /** Takes `e` out of the list of `dir`; the other lists stay as they are. */
  method CutFrom(ghost m: map<Entry, seq<Entry>>, dir: Entry, e: Entry, slot: Slot, ghost k: nat)
    requires Chained(m) && Disjoint(m) && dir in m && k < |m[dir]| && m[dir][k] == e
    requires slot == SlotAt(dir, m[dir], k)
    modifies dir`nextDir, m[dir]`next
    ensures Chained(m[dir := Without(m[dir], e)])
  {
    hide Without;
    CutList(m[dir], dir, e, slot, k);
    forall d | d in m && d != dir ensures Chain(d.nextDir, m[d]) {
      assert old(Chain(d.nextDir, m[d]));
      assert forall x :: x in m[d] ==> x !in m[dir];
      assert d.nextDir == old(d.nextDir);
      assert forall x :: x in m[d] ==> x.next == old(x.next);
      assert forall i :: 0 <= i < |m[d]| ==> m[d][i].next == EntryIn(m[d], i + 1);
    }
  }

  /** Links `e`, which is in no list, at the head of the list of `dir`. */
  method PushOnto(ghost m: map<Entry, seq<Entry>>, dir: Entry, e: Entry)
    requires Chained(m) && dir in m && forall d :: d in m ==> e !in m[d]
    modifies dir`nextDir, e`next
    ensures Chained(m[dir := [e] + m[dir]])
  {
    ghost var s := m[dir];
    e.next := dir.nextDir;
    dir.nextDir := e;
    ghost var w := [e] + s;
    forall i | 0 <= i < |w| ensures w[i].next == EntryIn(w, i + 1) {
      if i > 0 {
        assert w[i] == s[i - 1];
      }
    }
    forall d | d in m && d != dir ensures Chain(d.nextDir, m[d]) {
      assert old(Chain(d.nextDir, m[d]));
    }
  }

  /** Takes `e` out of the list of `dir` and puts it at the head of the list of `ndir`. */
  method Relink(ghost m: map<Entry, seq<Entry>>, dir: Entry, e: Entry, slot: Slot, ghost k: nat, ndir: Entry)
    requires Chained(m) && Disjoint(m) && dir in m && ndir in m && k < |m[dir]| && m[dir][k] == e
    requires slot == SlotAt(dir, m[dir], k)
    requires forall x :: x in m ==> e !in m[dir := Without(m[dir], e)][x]
    modifies dir`nextDir, ndir`nextDir, m[dir]`next, e`next
    ensures var cut := m[dir := Without(m[dir], e)]; Chained(cut[ndir := [e] + cut[ndir]])
  {
    hide Chained, Disjoint, Without;
    CutFrom(m, dir, e, slot, k);
    PushOnto(m[dir := Without(m[dir], e)], ndir, e);
  }

  /** The character a C string holds at `i`, its terminator included. */
  function CharAt(s: string, i: nat): char
    requires i <= |s|
  {
    if i < |s| then s[i] else '\0'
  }

  /** The comparison of a stored name with a component of a path: the component's bytes match and
      the stored name ends there. */
  predicate NameMatches(name: string, component: string) {
    && |component| <= |name|
    && name[..|component|] == component
    && CharAt(name, |component|) == '\0'
  }

  lemma NameMatchesIff(name: string, component: string)
    requires '\0' !in name
    ensures NameMatches(name, component) <==> name == component
  {
    assert forall i :: 0 <= i < |name| ==> name[i] in name;
  }

  method CreateInfo(name: string, isDir: bool, mem: Memory) returns (e: Entry?)
    ensures e != null <==> mem.entry && mem.name && name != ""
    ensures e != null ==> fresh(e) && e.next == null && e.nextDir == null && e.isDir == isDir
    ensures e != null ==> e.name == if mem.nameAgain then name else ""
    ensures e != null ==> e.size == 0 && e.data == null && e.open == [] && e.HandlesOk()
  {
    if !mem.entry || !mem.name || name == "" {
      return null;
    }
    e := new Entry(if mem.nameAgain then name else "", isDir);
  }

  ghost function RootTree(root: Entry, name: string): Tree<Entry> {
    Mounted<Entry>(root).tree.(name := map[root := name])
  }

  /** Setting the root of a mount.  The new entry is the mount's root, but it becomes the tree only
      if there is no tree yet. */
  method SetRoot(current: Volume?, hasArgs: bool, hasMount: bool, mem: Memory) returns (res: int, vol: Volume?, root: Entry?)
    ensures root != null <==> hasArgs && hasMount && mem.entry && mem.name
    ensures res == if !hasArgs || !hasMount then 0x8001_0016 - 0x1_0000_0000 else if root == null then -1 else 0
    ensures root == null || current != null ==> vol == current
    ensures root != null ==> fresh(root) && root.size == 0 && root.data == null && root.open == [] && root.HandlesOk()
    ensures root != null && current == null ==>
              && vol != null && fresh(vol) && vol.top == root && vol.Linked()
              && (if mem.nameAgain then vol.Valid() && vol.tree == Mounted<Entry>(vol.top).tree else !Named(vol.tree))
  {
    res, vol, root := FileSpec.INVALID, current, null;
    if !hasArgs || !hasMount {
      return;
    }
    root := CreateInfo("md", true, mem);
    if root == null {
      return -1, current, null;
    }
    if current == null {
      vol := new Volume.Mount(root);
    }
    res := 0;
  }

  ghost function Records(es: set<Entry>): (r: set<Handle>)
    reads es`open
    ensures forall e, h :: e in es && h in e.open ==> h in r
  {
    set e, h | e in es && h in e.open :: h
  }

  /** The handle records of every entry are in order, and counted. */
  ghost predicate Counted(es: set<Entry>)
    reads es`handles, es`refer, es`open, Records(es)`next
  {
    forall e :: e in es ==> e.HandlesOk()
  }

  class Volume {
    var top: Entry
    ghost var tree: Tree<Entry>

    /** The fields of the entries form the tree. */
    ghost predicate Linked()
      reads this`top, this`tree, top`next
      reads tree.kids.Keys`nextDir, tree.kids.Keys`name, tree.kids.Keys`isDir, Members(tree.kids)`next
    {
      && Shape(tree)
      && top == tree.root && top.next == null
      && Chained(tree.kids) && Labelled(tree)
    }

    /** Linked, and every entry has a usable name that no sibling shares. */
    ghost predicate Valid()
      reads this`top, this`tree, top`next
      reads tree.kids.Keys`nextDir, tree.kids.Keys`name, tree.kids.Keys`isDir, Members(tree.kids)`next
    {
      Linked() && Named(tree)
    }

    lemma LinkedTree()
      requires Linked()
      ensures Shape(tree) && top == tree.root && top in tree.kids && top.next == null
      ensures Chained(tree.kids) && Labelled(tree)
    {
      hide Shape, Chained, Labelled;
      Frame(tree);
    }

    lemma MakeLinked()
      requires Shape(tree) && top == tree.root && top.next == null && Chained(tree.kids) && Labelled(tree)
      ensures Linked()
    {
      hide Shape, Chained, Labelled;
    }

    /** A new entry, named "md" or not at all, becomes the tree. */
    constructor Mount(root: Entry)
      requires root.next == null && root.nextDir == null && root.isDir && (root.name == "md" || root.name == "")
      ensures top == root && tree == RootTree(root, root.name)
      ensures Linked() && (Named(tree) <==> root.name == "md")
    {
      top := root;
      tree := RootTree(root, root.name);
      NamelessRoot(root, root.name);
    }

    /** Looks a path up by walking the sibling lists. */
    method GetFsEntry(path: string) returns (res: int, entry: Entry?)
      requires Valid()
      ensures match Resolve(tree, path)
              case Found(e) => res == 0 && entry == e
              case Failed(code) => res == code && entry == null
      ensures Valid()
    {
      hide Shape, Named;
      if path == "" || path[0] != '/' {
        return BAD_PATH, null;
      }
      var current := 0;
      var loc: Entry? := top;
      ghost var level := [tree.root];
      Frame(tree);
      while current < |path|
        invariant current <= |path| && forall x :: x in level ==> x in tree.kids
        invariant current < |path| ==> path[current] == '/' && Chain(loc, level)
        invariant current < |path| ==> Scan(tree, level, path, current) == Resolve(tree, path)
        invariant current == |path| ==> loc != null && Resolve(tree, path) == Found(loc)
      {
        var s2 := NextSlash(path, current + 1);
        if s2 == current + 1 {
          return BAD_COMPONENT, null;
        }
        var component := path[current + 1..s2];
        loc := SearchLevel(loc, component, level);
        if loc == null {
          return NO_ENTRY, null;
        }
        if s2 < |path| {
          level := tree.kids[loc];
          ListIn(tree, loc);
          loc := loc.nextDir;
        }
        current := s2;
      }
      return 0, loc;
    }

    method SearchLevel(head: Entry?, component: string, ghost level: seq<Entry>) returns (loc: Entry?)
      requires Valid() && Chain(head, level) && forall x :: x in level ==> x in tree.kids && x in tree.name
      ensures match FindNamed(tree.name, level, component)
              case Some(e) => loc == e
              case None => loc == null
      ensures loc != null ==> loc in level
      ensures Valid() && Chain(head, level)
    {
      hide Shape, Named;
      loc := head;
      ghost var k := 0;
      while loc != null
        invariant 0 <= k <= |level| && loc == EntryIn(level, k)
        invariant FindNamed(tree.name, level[k..], component) == FindNamed(tree.name, level, component)
        decreases |level| - k
      {
        NamesIn(tree, loc);
        NameMatchesIff(loc.name, component);
        if NameMatches(loc.name, component) {
          return;
        }
        assert level[k..][1..] == level[k + 1..];
        loc := loc.next;
        k := k + 1;
      }
    }

    /** Puts a new entry at the head of a directory's sibling list. */
    method LinkEntry(dir: Entry, e: Entry)
      requires Linked() && dir in tree.kids && dir in tree.dirs && e !in tree.kids && e.nextDir == null
      modifies this`tree, dir`nextDir, e`next
      ensures Linked() && tree == LinkNew(old(tree), dir, e, e.name, e.isDir)
    {
      hide Shape, Linked, Chained;
      LinkedTree();
      ghost var was := tree;
      Frame(was);
      NotListed(was, e);
      PushOnto(was.kids, dir, e);
      tree := LinkNew(was, dir, e, e.name, e.isDir);
      LinkKeepsShape(was, dir, e, e.name, e.isDir);
      ChainedLeaf(was.kids[dir := [e] + was.kids[dir]], e);
      MakeLinked();
    }

    /** The part of creating a file or directory that looks up, allocates and links. */
    method AddEntry(dir: Entry, name: string, path: string, isDir: bool, mem: Memory, node: NodeResult)
      returns (res: int, e: Entry?)
      requires Valid() && dir in tree.kids && dir in tree.dirs
      requires '/' !in name && '\0' !in name && path == Join(PathOf(tree, dir), name)
      modifies this`tree, dir`nextDir
      ensures Linked()
      ensures e != null <==> Find(old(tree), path).None? && mem.entry && mem.name && name != ""
      ensures e == null ==> tree == old(tree) && res == if Find(old(tree), path).Some? then 0x8001_0011 - 0x1_0000_0000 else -1
      ensures e != null ==> fresh(e) && res == node.Code()
      ensures e != null ==> e.size == 0 && e.data == null && e.open == [] && e.HandlesOk()
      ensures e != null ==> tree == LinkNew(old(tree), dir, e, if mem.nameAgain then name else "", isDir)
      ensures Named(tree) <==> (e != null ==> mem.nameAgain)
    {
      hide Shape, Named, Linked, LinkNew;
      LinkedTree();
      var found;
      found, e := GetFsEntry(path);
      if found >= 0 {
        return EXISTS, null;
      }
      label B:
      e := CreateInfo(name, isDir, mem);
      assert forall x :: x in tree.kids.Keys ==> old@B(allocated(x));
      assert forall x :: x in Members(tree.kids) ==> old@B(allocated(x));
      if e == null {
        return -1, null;
      }
      NewNameIff(tree, dir, e, e.name, isDir, name);
      LinkEntry(dir, e);
      res := node.Code();
    }

    /** Walks a sibling list with a pointer to the place where the current link is stored. */
    method FindSlot(dir: Entry, target: Entry) returns (slot: Slot, found: bool, ghost k: nat)
      requires Linked() && dir in tree.kids
      ensures Linked()
      ensures found <==> target in tree.kids[dir]
      ensures found ==> k < |tree.kids[dir]| && tree.kids[dir][k] == target && slot == SlotAt(dir, tree.kids[dir], k)
    {
      LinkedTree();
      hide Shape, Linked, Labelled;
      ghost var s := tree.kids[dir];
      slot, k := Head(dir), 0;
      var cur := dir.nextDir;
      while cur != null && cur != target
        invariant 0 <= k <= |s| && cur == EntryIn(s, k) && slot == SlotAt(dir, s, k)
        invariant target !in s[..k]
        decreases |s| - k
      {
        slot := Behind(cur);
        cur := cur.next;
        k := k + 1;
      }
      found := cur != null;
      assert k == |s| ==> s[..k] == s;
    }

    /** Takes an entry without children out of the tree. */
    method UnlinkEntry(dir: Entry, e: Entry, slot: Slot, ghost k: nat)
      requires Linked() && dir in tree.kids && k < |tree.kids[dir]| && tree.kids[dir][k] == e
      requires slot == SlotAt(dir, tree.kids[dir], k) && e in tree.kids && tree.kids[e] == []
      modifies this`tree, dir`nextDir, tree.kids[dir]`next
      ensures Linked() && tree == Unlink(old(tree), dir, e)
    {
      hide Shape, Linked, Chained, Disjoint, Without;
      LinkedTree();
      ghost var was := tree;
      Frame(was);
      KidsDisjoint(was);
      ChildFacts(was, dir, e);
      RootUnlisted(was, dir);
      CutFrom(was.kids, dir, e, slot, k);
      tree := Unlink(was, dir, e);
      UnlinkKeepsShape(was, dir, e);
      ChainedLess(was.kids[dir := Without(was.kids[dir], e)], e);
      UpdateApart(was.kids, dir, Without(was.kids[dir], e), e);
      MakeLinked();
    }

    /** Unlinks a regular file that `path` leads to and that is a child of `dir`, and frees it
        unless it is open. */
    method Remove(dir: Entry, path: string) returns (res: int)
      requires Valid() && dir in tree.kids
      requires Counted(tree.kids.Keys)
      modifies this`tree, dir`nextDir, tree.kids[dir]`next, tree.kids[dir]`name, tree.kids[dir]`data
      ensures Valid()
      ensures match ToRemove(old(tree), dir, path)
              case Keep(code) => res == code && tree == old(tree)
              case Act(e) => tree == Unlink(old(tree), dir, e) && Freed(e, res) && res in {0, -1, -2}
      ensures forall x :: x in old(tree).kids && x in tree.kids ==> x.data == old(x.data)
    {
      hide Shape, Named, Linked, Unlink;
      LinkedTree();
      var found, e := GetFsEntry(path);
      if found < 0 {
        return NO_ENTRY;
      }
      KnownEntry(tree, path, e);
      if e.isDir {
        return -1;
      }
      LeafFile(tree, e);
      res := DropEntry(dir, e);
    }

    /** Unlinks an empty directory in the same way. */
    method Rmdir(dir: Entry, path: string) returns (res: int)
      requires Valid() && dir in tree.kids
      requires Counted(tree.kids.Keys)
      modifies this`tree, dir`nextDir, tree.kids[dir]`next, tree.kids[dir]`name, tree.kids[dir]`data
      ensures Valid()
      ensures match ToRmdir(old(tree), dir, path)
              case Keep(code) => res == code && tree == old(tree)
              case Act(e) => tree == Unlink(old(tree), dir, e) && Freed(e, res) && res in {0, -1, -2}
      ensures forall x :: x in old(tree).kids && x in tree.kids ==> x.data == old(x.data)
    {
      hide Shape, Named, Linked, Unlink;
      LinkedTree();
      var found, e := GetFsEntry(path);
      if found < 0 {
        return found;
      }
      KnownEntry(tree, path, e);
      if e.nextDir != null {
        return EXISTS;
      }
      if !e.isDir {
        return NOT_DIRECTORY;
      }
      res := DropEntry(dir, e);
    }

    /** The common end of Remove and Rmdir: find the link, store over it, release the entry. */
    method DropEntry(dir: Entry, e: Entry) returns (res: int)
      requires Valid() && dir in tree.kids && e in tree.kids && tree.kids[e] == []
      requires e.handles == null <==> e.open == []
      modifies this`tree, dir`nextDir, tree.kids[dir]`next, tree.kids[dir]`name, tree.kids[dir]`data
      ensures Valid()
      ensures if e !in old(tree).kids[dir] then res == NO_ENTRY && tree == old(tree)
              else tree == Unlink(old(tree), dir, e) && Freed(e, res) && res in {0, -1, -2}
      ensures tree.kids.Keys <= old(tree).kids.Keys
      ensures forall x :: x in old(tree).kids && x in tree.kids ==> x.data == old(x.data)
    {
      hide Shape, Named, Linked, Unlink;
      LinkedTree();
      var slot, found, k := FindSlot(dir, e);
      if !found {
        return NO_ENTRY;
      }
      UnlinkKeepsNames(tree, dir, e);
      UnlistedAfter(tree, dir, e);
      UnlinkEntry(dir, e, slot, k);
      res := DeleteInfo(e);
    }

    /** Releases an entry that is no longer linked. */
    method DeleteInfo(e: Entry) returns (res: int)
      requires Linked() && e !in tree.kids && e !in Members(tree.kids)
      requires e.handles == null <==> e.open == []
      modifies e`name, e`data
      ensures Linked() && Freed(e, res)
    {
      if e.refer != 0 {
        return -1;
      }
      if e.handles != null {
        return -2;
      }
      LinkedTree();
      hide Shape, Linked, Chained;
      e.name := "";
      e.data := null;
      MakeLinked();
      return 0;
    }

    /** Moves an entry between two slots and renames it.  The links form a tree afterwards exactly
        when the new directory is not inside what has been moved. */
    method MoveEntry(dir: Entry, e: Entry, slot: Slot, ghost k: nat, ndir: Entry, name: string)
      requires Linked() && Movable(tree, dir, e, ndir) && k < |tree.kids[dir]| && tree.kids[dir][k] == e
      requires slot == SlotAt(dir, tree.kids[dir], k)
      modifies this`tree, dir`nextDir, ndir`nextDir, tree.kids[dir]`next, e`next, e`name
      ensures tree == Move(old(tree), dir, e, ndir, name) && Chained(tree.kids) && Labelled(tree)
      ensures e in old(tree).trail && ndir in old(tree).trail && (Linked() <==> e !in old(tree).trail[ndir])
    {
      hide Shape, Linked, Chained, Disjoint, Without, Move;
      LinkedTree();
      ghost var was := tree;
      MoveParts(was, dir, e, ndir, name);
      KidsDisjoint(was);
      ChildFacts(was, dir, e);
      RootUnlisted(was, dir);
      NowhereAfterCut(was, dir, e);
      MoveShapeIff(was, dir, e, ndir, name);
      Relink(was.kids, dir, e, slot, k, ndir);
      Relabel(Move(was, dir, e, ndir, name), e, name);
    }

    /** Writes the new name of an entry whose links are already those of `u`. */
    method Relabel(ghost u: Tree<Entry>, e: Entry, name: string)
      requires top == u.root && top.next == null && Chained(u.kids)
      requires Labelled(tree) && u.kids.Keys == tree.kids.Keys && u.name == tree.name[e := name] && u.dirs == tree.dirs
      requires e in tree.kids
      modifies this`tree, e`name
      ensures tree == u && Chained(tree.kids) && Labelled(tree) && (Linked() <==> Shape(u))
    {
      hide Shape, Linked, Chained;
      e.name := name;
      tree := u;
      if Shape(u) {
        MakeLinked();
      }
      if Linked() {
        LinkedTree();
      }
    }

    /** Every case of a rename.  The entries are linked as the move step says, whatever the target;
        they form a tree afterwards exactly when the target directory is clear of what was moved. */
    method Rename(sameMount: bool, dir: Entry, path: string, ndir: Entry, name: string, node: NodeResult, copied: bool)
      returns (res: int)
      requires Valid() && dir in tree.kids && ndir in tree.kids && ndir in tree.dirs
      modifies this`tree, dir`nextDir, ndir`nextDir, tree.kids[dir]`next, tree.kids[dir]`name
      ensures match ToRename(old(tree), sameMount, dir, path, node.Code())
              case Keep(code) => res == code && tree == old(tree) && Valid()
              case Act(e) =>
                && res == 0
                && tree == Move(old(tree), dir, e, ndir, if copied then name else "")
                && Chained(tree.kids) && Labelled(tree)
                && (Linked() <==> Clear(old(tree), path, ndir))
                && (Linked() ==> (Named(tree) <==> (copied && NameFits(old(tree), ndir, e, name))))
    {
      hide Shape, Named, Linked, Move;
      LinkedTree();
      if !sameMount {
        return OTHER_MOUNT;
      }
      var found, e := GetFsEntry(path);
      if found < 0 {
        return found;
      }
      KnownEntry(tree, path, e);
      var slot, ok, k := FindSlot(dir, e);
      if !ok {
        return NO_ENTRY;
      }
      if node.Code() < 0 {
        return node.Code();
      }
      ClearIs(tree, path, e, ndir);
      if Clear(tree, path, ndir) {
        MoveNamesIff(tree, dir, e, ndir, if copied then name else "");
      }
      MoveEntry(dir, e, slot, k, ndir, if copied then name else "");
      if Linked() {
        LinkedTree();
      }
      return 0;
    }
  }

  lemma ClearIs(t: Tree<Entry>, path: string, e: Entry, nd: Entry)
    requires Shape(t) && Resolve(t, path) == Found(e) && nd in t.kids
    ensures nd in t.trail && (Clear(t, path, nd) <==> e !in t.trail[nd])
  {
    hide Shape;
    Frame(t);
  }

  /** What releasing an unlinked entry returns and does: an open entry is kept as it is. */
  twostate predicate Freed(e: Entry, res: int)
    reads e
  {
    && res == (if old(e.refer) != 0 then -1 else if old(e.open) != [] then -2 else 0)
    && (res == 0 ==> old(e.open) == [] && e.data == null && e.name == "")
    && (res != 0 ==> e.data == old(e.data) && e.name == old(e.name))
    && e.size == old(e.size) && e.open == old(e.open) && e.handles == old(e.handles)
  }

  lemma UpdateApart(m: map<Entry, seq<Entry>>, d: Entry, s: seq<Entry>, e: Entry)
    requires d != e
    ensures (m - {e})[d := s] == m[d := s] - {e}
  {
  }

  lemma MoveParts(t: Tree<Entry>, d: Entry, e: Entry, nd: Entry, name: string)
    requires Shape(t) && Movable(t, d, e, nd)
    ensures var u := Move(t, d, e, nd, name);
            var cut := t.kids[d := Without(t.kids[d], e)];
            u.root == t.root && u.kids == cut[nd := [e] + cut[nd]] && u.name == t.name[e := name] && u.dirs == t.dirs
    ensures t.kids.Keys == t.name.Keys == t.trail.Keys
  {
    hide Shape;
    Frame(t);
  }

  lemma KnownEntry(t: Tree<Entry>, path: string, e: Entry)
    requires Shape(t) && Resolve(t, path) == Found(e)
    ensures e in t.kids && e in t.trail
  {
    hide Shape;
    FindsEntries(t, path);
    Frame(t);
  }

  lemma UnlistedAfter(t: Tree<Entry>, d: Entry, e: Entry)
    requires Shape(t) && d in t.kids && e in t.kids[d] && t.kids[e] == []
    ensures e !in Unlink(t, d, e).kids && e !in Members(Unlink(t, d, e).kids)
    ensures Unlink(t, d, e).kids.Keys <= t.kids.Keys
  {
    hide Shape;
    ChildFacts(t, d, e);
    UnlinkKeepsShape(t, d, e);
    NotListed(Unlink(t, d, e), e);
  }

  lemma NowhereAfterCut(t: Tree<Entry>, d: Entry, e: Entry)
    requires Shape(t) && d in t.kids && e in t.kids[d]
    ensures forall x :: x in t.kids ==> e !in t.kids[d := Without(t.kids[d], e)][x]
  {
    hide Shape;
    ListIn(t, d);
    WithoutDistinct(t.kids[d], e);
    forall x | x in t.kids && x != d ensures e !in t.kids[x] {
      if e in t.kids[x] {
        OneParent(t, d, x, e);
      }
    }
  }

  lemma NotListed(t: Tree<Entry>, e: Entry)
    requires Shape(t) && e !in t.kids
    ensures forall d :: d in t.kids ==> e !in t.kids[d]
  {
    hide Shape;
    forall d | d in t.kids ensures e !in t.kids[d] {
      BelowLevel(t, d);
    }
  }

  lemma RootUnlisted(t: Tree<Entry>, d: Entry)
    requires Shape(t) && d in t.kids
    ensures t.root !in t.kids[d]
  {
    hide Shape;
    if t.root in t.kids[d] {
      ChildFacts(t, d, t.root);
    }
  }

  lemma ChainedLess(m: map<Entry, seq<Entry>>, e: Entry)
    requires Chained(m)
    ensures Chained(m - {e})
  {
  }

  lemma ChainedLeaf(m: map<Entry, seq<Entry>>, e: Entry)
    requires Chained(m) && e.nextDir == null
    ensures Chained(m[e := []])
  {
  }

  /** Linking a new entry keeps every name usable exactly when it got the free name it was to get,
      not the null pointer. */
  lemma NewNameIff(t: Tree<Entry>, d: Entry, n: Entry, got: string, isDir: bool, name: string)
    requires Wf(t) && d in t.kids && d in t.dirs && n !in t.kids && PlainName(name)
    requires Find(t, Join(PathOf(t, d), name)).None? && (got == name || got == "")
    ensures Shape(LinkNew(t, d, n, got, isDir)) && (Named(LinkNew(t, d, n, got, isDir)) <==> got == name)
  {
    hide Shape, Named;
    LinkKeepsShape(t, d, n, got, isDir);
    if got == name {
      FreeIff(t, d, name);
      LinkKeepsNames(t, d, n, name, isDir);
    } else if Named(LinkNew(t, d, n, got, isDir)) {
      NamesIn(LinkNew(t, d, n, got, isDir), n);
    }
  }
}