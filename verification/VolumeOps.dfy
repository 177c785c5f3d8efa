/** The file-system calls on a whole volume: links and contents together.  Each call takes the
    volume one step, and the step is the one the flat volume of paths and bytes takes. */
module VolumeOps {
  import opened Words
  import opened PathTree
  import opened TreeSteps
  import opened TreePaths
  import opened FlatFs
  import opened Refusals
  import opened Entries
  import opened FileSpec
  import opened FileIo
  import opened Volumes

  ghost function Arrays(es: set<Entry>): set<array<byte>>
    reads es`data
  {
    set e | e in es && e.data != null :: e.data
  }

  /** The bytes of every entry of the volume. */
  ghost function Contents(v: Volume): map<Entry, seq<byte>>
    reads v`tree, v.tree.kids.Keys`size, v.tree.kids.Keys`data, Arrays(v.tree.kids.Keys)
  {
    map e | e in v.tree.kids :: Bytes(e)
  }

  ghost function View(v: Volume): Vol<Entry>
    reads v`tree, v.tree.kids.Keys`size, v.tree.kids.Keys`data, Arrays(v.tree.kids.Keys)
  {
    Vol(v.tree, Contents(v))
  }

  /** Every buffer has room for its file, and no two entries share one. */
  ghost predicate Buffers(es: set<Entry>)
    reads es`size, es`data
  {
    && (forall e :: e in es ==> DataOk(e))
    && (forall e, e' :: e in es && e' in es && e != e' && e.data != null ==> e.data != e'.data)
  }

  method VopCreate(v: Volume, dir: Entry, name: string, path: string, mem: Memory, node: NodeResult)
    returns (res: int, ghost e: Entry?)
    requires v.Valid() && Buffers(v.tree.kids.Keys) && Counted(v.tree.kids.Keys) && dir in v.tree.kids && dir in v.tree.dirs
    requires '/' !in name && '\0' !in name && path == Join(PathOf(v.tree, dir), name)
    modifies v`tree, dir`nextDir
    ensures v.Linked() && Buffers(v.tree.kids.Keys) && Counted(v.tree.kids.Keys)
    ensures e != null <==> Find(old(v.tree), path).None? && mem.entry && mem.name && name != ""
    ensures e == null ==> View(v) == old(View(v)) && res == if Find(old(v.tree), path).Some? then EXISTS else -1
    ensures e != null ==> fresh(e) && res == node.Code() && (Named(v.tree) <==> mem.nameAgain)
    ensures e != null ==> e.data == null && e.open == []
    ensures CreateReturns(old(View(v)), PathOf(old(v.tree), dir), name, mem, node, res)
    ensures e != null && mem.nameAgain ==>
              View(v) == VolStep(old(View(v)), Op.Create(PathOf(old(v.tree), dir), name, e))
  {
    hide Shape, Named, Volume.Linked, LinkNew, Contents, Buffers, Counted, Find, VolStep, CreateReturns, MkdirReturns, Abs;
    LinkedKeys(v);
    ghost var was := View(v);
    ViewOk(v);
    var made: Entry?;
    res, made := v.AddEntry(dir, name, path, false, mem, node);
    e := made;
    CreateCode(was, dir, name, mem, node, res);
    Untouched(was.tree.kids.Keys);
    CountedStays(was.tree.kids.Keys);
    if e == null {
      SameContents(v);
    } else {
      CreateIsStep(was, dir, name, e);
      LinkKeys(was.tree, dir, e, if mem.nameAgain then name else "", false);
      NewContents(v, e);
      CountedMore(was.tree.kids.Keys, e);
    }
  }

  method VopMkdir(v: Volume, dir: Entry, name: string, path: string, mem: Memory, node: NodeResult)
    returns (res: int, ghost e: Entry?)
    requires v.Valid() && Buffers(v.tree.kids.Keys) && Counted(v.tree.kids.Keys) && dir in v.tree.kids
    requires '/' !in name && '\0' !in name && path == Join(PathOf(v.tree, dir), name)
    modifies v`tree, dir`nextDir
    ensures v.Linked() && Buffers(v.tree.kids.Keys) && Counted(v.tree.kids.Keys)
    ensures e != null <==> dir in old(v.tree).dirs && Find(old(v.tree), path).None? && mem.entry && mem.name && name != ""
    ensures e == null ==> View(v) == old(View(v)) && res == if dir !in old(v.tree).dirs then NOT_DIRECTORY
                                                           else if Find(old(v.tree), path).Some? then EXISTS else -1
    ensures e != null ==> fresh(e) && res == node.Code() && (Named(v.tree) <==> mem.nameAgain)
    ensures e != null ==> e.data == null && e.open == []
    ensures MkdirReturns(old(View(v)), PathOf(old(v.tree), dir), name, mem, node, res)
    ensures e != null && mem.nameAgain ==>
              View(v) == VolStep(old(View(v)), Op.Mkdir(PathOf(old(v.tree), dir), name, e))
  {
    hide Shape, Named, Volume.Linked, LinkNew, Contents, Buffers, Counted, Find, VolStep, CreateReturns, MkdirReturns, Abs;
    v.LinkedTree();
    ghost var was := View(v);
    ViewOk(v);
    if !dir.isDir {
      MkdirCode(was, dir, name, mem, node, NOT_DIRECTORY);
      return NOT_DIRECTORY, null;
    }
    var made: Entry?;
    res, made := v.AddEntry(dir, name, path, true, mem, node);
    e := made;
    CreateCode(was, dir, name, mem, node, res);
    MkdirCode(was, dir, name, mem, node, res);
    Untouched(was.tree.kids.Keys);
    CountedStays(was.tree.kids.Keys);
    if e == null {
      SameContents(v);
    } else {
      CreateIsStep(was, dir, name, e);
      LinkKeys(was.tree, dir, e, if mem.nameAgain then name else "", true);
      NewContents(v, e);
      CountedMore(was.tree.kids.Keys, e);
    }
  }

  /** What a removal returns says what it did, and no other buffer was touched. */
  twostate predicate Went(es: set<Entry>, todo: Decision<Entry>, res: int)
    reads es
  {
    match todo
    case Keep(code) => res == code && forall y :: y in es ==> y.data == old(y.data)
    case Act(e) => e in es && Freed(e, res) && forall y :: y in es && y != e ==> y.data == old(y.data)
  }

  function Cut(todo: Decision<Entry>): set<Entry> {
    if todo.Act? then {todo.entry} else {}
  }

  /** Entries that stay in the tree keep their bytes, buffers and handles. */
  twostate lemma AfterCut(v: Volume, new gone: set<Entry>)
    requires old(Buffers(v.tree.kids.Keys) && Counted(v.tree.kids.Keys))
    requires v.tree.kids.Keys == old(v.tree.kids.Keys) - gone
    requires forall x :: x in v.tree.kids.Keys ==> x.size == old(x.size) && x.data == old(x.data)
    requires forall x :: x in v.tree.kids.Keys ==> x.handles == old(x.handles) && x.refer == old(x.refer) && x.open == old(x.open)
    requires forall h: Handle :: old(allocated(h)) ==> h.next == old(h.next)
    requires forall a: array<byte> :: old(allocated(a)) ==> a[..] == old(a[..])
    ensures Buffers(v.tree.kids.Keys) && Counted(v.tree.kids.Keys)
    ensures Contents(v) == old(Contents(v)) - gone
  {
    hide DataOk;
    forall e | e in v.tree.kids.Keys ensures e.HandlesOk() && Bytes(e) == old(Bytes(e)) {
      assert old(e.HandlesOk());
    }
    FewerContents(v, gone);
  }

  /** Removing a file.  An open file leaves the tree but keeps its buffer, its size and its handle
      records; a file without handles is freed. */
  method VopRemove(v: Volume, dir: Entry, name: string, path: string) returns (res: int)
    requires v.Valid() && Buffers(v.tree.kids.Keys) && dir in v.tree.kids
    requires PlainName(name) && path == Join(PathOf(v.tree, dir), name)
    requires Counted(v.tree.kids.Keys)
    modifies v`tree, dir`nextDir, v.tree.kids[dir]`next, v.tree.kids[dir]`name, v.tree.kids[dir]`data
    ensures v.Valid() && Buffers(v.tree.kids.Keys) && Counted(v.tree.kids.Keys)
    ensures View(v) == VolStep(old(View(v)), Op<Entry>.Remove(PathOf(old(v.tree), dir), name))
    ensures Went(old(v.tree.kids.Keys), old(ToRemove(v.tree, dir, path)), res) && RemoveReturns(old(View(v)), path, res)
  {
    hide Shape, Named, Volume.Linked, Unlink, Contents, Buffers, VolStep, Counted, ToRemove, Find, Freed, RemoveReturns, RmdirReturns;
    LinkedKeys(v);
    ghost var was := View(v);
    ViewOk(v);
    RemoveIsStep(was, dir, name);
    ghost var todo := ToRemove(was.tree, dir, path);
    ActsOnChild(was.tree, dir, path);
    res := v.Remove(dir, path);
    if todo.Act? {
      UnlinkedKeys(was.tree, dir, todo.entry);
    }
    AfterCut(v, Cut(todo));
    RemoveCode(was, dir, name, res);
  }

  method VopRmdir(v: Volume, dir: Entry, name: string, path: string) returns (res: int)
    requires v.Valid() && Buffers(v.tree.kids.Keys) && dir in v.tree.kids
    requires PlainName(name) && path == Join(PathOf(v.tree, dir), name)
    requires Counted(v.tree.kids.Keys)
    modifies v`tree, dir`nextDir, v.tree.kids[dir]`next, v.tree.kids[dir]`name, v.tree.kids[dir]`data
    ensures v.Valid() && Buffers(v.tree.kids.Keys) && Counted(v.tree.kids.Keys)
    ensures View(v) == VolStep(old(View(v)), Op<Entry>.Rmdir(PathOf(old(v.tree), dir), name))
    ensures Went(old(v.tree.kids.Keys), old(ToRmdir(v.tree, dir, path)), res) && RmdirReturns(old(View(v)), path, res)
  {
    hide Shape, Named, Volume.Linked, Unlink, Contents, Buffers, VolStep, Counted, ToRmdir, Find, Freed, RemoveReturns, RmdirReturns;
    LinkedKeys(v);
    ghost var was := View(v);
    ViewOk(v);
    RemoveIsStep(was, dir, name);
    ghost var todo := ToRmdir(was.tree, dir, path);
    ActsOnChild(was.tree, dir, path);
    res := v.Rmdir(dir, path);
    if todo.Act? {
      UnlinkedKeys(was.tree, dir, todo.entry);
    }
    AfterCut(v, Cut(todo));
    RmdirCode(was, dir, name, res);
  }

  /** Renaming moves the entry with its bytes and everything below it.  The links form a tree
      afterwards exactly when the target directory is clear of what is moved, and all names stay
      usable exactly when the new name was copied and fits. */
  method VopRename(v: Volume, sameMount: bool, dir: Entry, name: string, path: string, ndir: Entry, newName: string,
                   node: NodeResult, copied: bool)
    returns (res: int)
    requires v.Valid() && Buffers(v.tree.kids.Keys) && Counted(v.tree.kids.Keys)
    requires dir in v.tree.kids && ndir in v.tree.kids && ndir in v.tree.dirs
    requires PlainName(name) && path == Join(PathOf(v.tree, dir), name)
    modifies v`tree, dir`nextDir, ndir`nextDir, v.tree.kids[dir]`next, v.tree.kids[dir]`name
    ensures Buffers(v.tree.kids.Keys) && Counted(v.tree.kids.Keys)
    ensures RenameReturns(old(View(v)), sameMount, path, node, res)
    ensures match ToRename(old(v.tree), sameMount, dir, path, node.Code())
            case Keep(code) => res == code && v.Valid() && View(v) == old(View(v))
            case Act(e) =>
              && res == 0
              && (v.Linked() <==> Clear(old(v.tree), path, ndir))
              && (v.Linked() ==> (Named(v.tree) <==> (copied && NameFits(old(v.tree), ndir, e, newName))))
              && (copied ==> View(v) == VolStep(old(View(v)), Op<Entry>.Rename(PathOf(old(v.tree), dir), name,
                                                                           PathOf(old(v.tree), ndir), newName)))
  {
    hide Shape, Named, NameFits, Clear, Volume.Linked, Move, Contents, Buffers, Counted, VolStep, ToRename, Find;
    hide RenameReturns, Abs, Entry.HandlesOk, Bytes, Chained, Labelled, PathOf, PlainName, Join;
    LinkedKeys(v);
    ghost var was := View(v);
    ViewOk(v);
    RenameIsStep(was, dir, name, ndir, newName);
    RenameActs(was.tree, sameMount, dir, path, node.Code(), ndir, if copied then newName else "");
    res := v.Rename(sameMount, dir, path, ndir, newName, node, copied);
    AfterCut(v, {});
    RenameCode(was, sameMount, dir, name, node, res);
  }

  lemma RenameActs(t: Tree<Entry>, sameMount: bool, d: Entry, path: string, code: int, nd: Entry, name: string)
    requires Shape(t) && d in t.kids && nd in t.kids && nd in t.dirs
    ensures var todo := ToRename(t, sameMount, d, path, code);
            todo.Act? ==>
              && todo == ToRename(t, true, d, path, 0)
              && todo.entry in t.kids
              && Move(t, d, todo.entry, nd, name).kids.Keys == t.kids.Keys
  {
    hide Shape;
    BelowLevel(t, d);
  }

  /** Writing through an open file changes the bytes at its path and nothing else. */
  method VopWrite(v: Volume, node: Vnode, fobj: FileObject, src: seq<byte>, memOk: bool) returns (res: int, inside: bool)
    requires Buffers(v.tree.kids.Keys)
    requires node.devInfo != null && node.devInfo in v.tree.kids && node.devInfo !in v.tree.dirs
    requires NodeOk(node) && |src| <= MAX32
    modifies node`size, fobj`offset, Target(node)`data, Target(node)`size, Buffer(node)
    ensures v.tree == old(v.tree) && node.devInfo == old(node.devInfo)
    ensures Buffers(v.tree.kids.Keys) && (old(v.Valid()) ==> v.Valid())
    ensures Contents(v) == old(Contents(v))[node.devInfo := Bytes(node.devInfo)]
    ensures WriteDone(node, fobj, src, memOk, res, inside)
  {
    hide Shape, Named, Volume.Linked, Contents, Buffers, Entry.HandlesOk, DataOk, Bytes, WriteDone, BlockAlign;
    ghost var e := node.devInfo;
    ghost var others := v.tree.kids.Keys - {e};
    OthersApart(v.tree.kids.Keys, e);
    res, inside := FileIo.Write(node, fobj, src, memOk);
    assert forall x :: x in v.tree.kids.Keys ==> old(allocated(x));
    assert forall x :: x in Members(v.tree.kids) ==> old(allocated(x));
    Untouched(others);
    OneChanged(v, e);
    BufferMoved(v.tree.kids.Keys, e);
  }

  twostate lemma BufferMoved(es: set<Entry>, new e: Entry)
    requires old(Buffers(es)) && e in es && DataOk(e)
    requires e.data == old(e.data) || e.data == null || fresh(e.data)
    requires forall x :: x in es - {e} ==> x.size == old(x.size) && x.data == old(x.data)
    ensures Buffers(es)
  {
  }

  twostate lemma OneChanged(v: Volume, new e: Entry)
    requires v.tree == old(v.tree) && e in v.tree.kids
    requires forall x :: x in v.tree.kids.Keys - {e} ==> Bytes(x) == old(Bytes(x))
    ensures Contents(v) == old(Contents(v))[e := Bytes(e)]
  {
  }

  lemma OthersApart(es: set<Entry>, e: Entry)
    requires Buffers(es) && e in es
    ensures forall x :: x in es && x != e && x.data != null ==> x.data != e.data
    ensures forall x :: x in es ==> DataOk(x)
  {
  }

  lemma LinkedKeys(v: Volume)
    requires v.Linked()
    ensures Shape(v.tree)
  {
  }

  lemma ViewOk(v: Volume)
    requires v.Valid()
    ensures VolOk(View(v))
  {
    hide Shape, Named;
  }

  lemma LinkKeys(t: Tree<Entry>, d: Entry, n: Entry, name: string, isDir: bool)
    requires Shape(t) && d in t.kids
    ensures LinkNew(t, d, n, name, isDir).kids.Keys == t.kids.Keys + {n}
  {
    hide Shape;
  }

  /** Entries whose sizes and buffers are as before have the bytes they had. */
  twostate lemma Untouched(es: set<Entry>)
    requires forall e :: e in es ==> e.size == old(e.size) && e.data == old(e.data)
    requires forall e :: e in es && e.data != null ==> e.data[..] == old(e.data[..])
    ensures forall e :: e in es ==> Bytes(e) == old(Bytes(e))
    ensures old(Buffers(es)) ==> Buffers(es)
  {
  }

  twostate lemma SameContents(v: Volume)
    requires v.tree == old(v.tree) && forall e :: e in v.tree.kids.Keys ==> Bytes(e) == old(Bytes(e))
    ensures Contents(v) == old(Contents(v))
  {
  }

  lemma ActsOnChild(t: Tree<Entry>, d: Entry, path: string)
    requires Shape(t) && d in t.kids
    ensures ToRemove(t, d, path).Act? ==> ToRemove(t, d, path).entry in t.kids[d] && ToRemove(t, d, path).entry in t.kids
    ensures ToRmdir(t, d, path).Act? ==> ToRmdir(t, d, path).entry in t.kids[d] && ToRmdir(t, d, path).entry in t.kids
  {
    hide Shape;
    BelowLevel(t, d);
  }

  lemma BuffersLess(es: set<Entry>, more: set<Entry>)
    requires Buffers(more) && es <= more
    ensures Buffers(es)
  {
  }

  /** Handle records that nothing has touched are still in order. */
  twostate lemma CountedStays(es: set<Entry>)
    requires old(Counted(es))
    requires forall e :: e in es ==> e.handles == old(e.handles) && e.refer == old(e.refer) && e.open == old(e.open)
    requires forall h: Handle :: old(allocated(h)) ==> h.next == old(h.next)
    ensures Counted(es)
  {
    forall e | e in es ensures e.HandlesOk() {
      assert old(e.HandlesOk());
    }
  }

  lemma CountedLess(es: set<Entry>, more: set<Entry>)
    requires Counted(more) && es <= more
    ensures Counted(es)
  {
    hide Entry.HandlesOk;
  }

  lemma CountedMore(es: set<Entry>, e: Entry)
    requires Counted(es) && e.HandlesOk()
    ensures Counted(es + {e})
  {
    hide Entry.HandlesOk;
  }

  lemma UnlinkedKeys(t: Tree<Entry>, d: Entry, e: Entry)
    requires Shape(t) && d in t.kids && e in t.kids[d]
    ensures Unlink(t, d, e).kids.Keys == t.kids.Keys - {e}
  {
    hide Shape;
    ChildFacts(t, d, e);
  }

  twostate lemma FewerContents(v: Volume, new gone: set<Entry>)
    requires v.tree.kids.Keys == old(v.tree).kids.Keys - gone
    requires forall x :: x in v.tree.kids.Keys ==> Bytes(x) == old(Bytes(x))
    ensures Contents(v) == old(Contents(v)) - gone
  {
  }

  twostate lemma NewContents(v: Volume, new n: Entry)
    requires v.tree.kids.Keys == old(v.tree).kids.Keys + {n} && n !in old(v.tree).kids
    requires forall e :: e in old(v.tree).kids.Keys ==> Bytes(e) == old(Bytes(e))
    requires n.size == 0 && n.data == null
    ensures Contents(v) == old(Contents(v))[n := []]
    ensures Buffers(old(v.tree).kids.Keys) ==> Buffers(v.tree.kids.Keys)
  {
    NoBytes(n);
    if Buffers(old(v.tree).kids.Keys) {
      BuffersAnd(old(v.tree).kids.Keys, n);
    }
    hide Bytes, Buffers;
  }

  lemma NoBytes(n: Entry)
    requires n.size == 0 && n.data == null
    ensures Bytes(n) == [] && DataOk(n)
  {
    BlockAlignFacts(0);
  }

  lemma BuffersAnd(es: set<Entry>, n: Entry)
    requires Buffers(es) && DataOk(n) && n.data == null
    ensures Buffers(es + {n})
  {
    hide DataOk;
  }
}
