/** Opening, reading and closing a directory through its handle record. */
module DirIo {
  import opened Lists
  import opened PathTree
  import opened Entries
  import opened FileSpec
  import opened FileIo
  import opened Volumes
  import opened DirCursor

  /** The newest handle record of a file object at a vnode's entry. */
  ghost function RecordOf(node: Vnode, fobj: FileObject): (h: Handle?)
    reads node, Target(node)
  {
    if node.devInfo == null then null else node.devInfo.Record(fobj)
  }

  ghost function Pointer(o: Option<Entry>): Entry? {
    match o case None => null case Some(e) => e
  }

  /** The `next` link of an entry is what follows it in its list. */
  lemma ChainNext(head: Entry?, s: seq<Entry>, x: Entry)
    requires Chain(head, s) && Distinct(s) && x in s
    ensures x.next == Pointer(NextIn(s, x))
  {
    var k :| 0 <= k < |s| && s[k] == x;
    NextInAt(s, k);
  }

  lemma {:induction false} NextInAt(s: seq<Entry>, k: nat)
    requires Distinct(s) && k < |s|
    ensures NextIn(s, s[k]) == First(s[k + 1..])
  {
    if k > 0 {
      NextInAt(s[1..], k - 1);
      assert s[1..][k..] == s[k + 1..];
    }
  }

  method VopDopen(node: Vnode, fobj: FileObject, memOk: bool) returns (res: int)
    requires node.devInfo != null ==> node.devInfo.HandlesOk()
    modifies Target(node)`handles, Target(node)`refer, Target(node)`open
    ensures node.devInfo != null ==> node.devInfo.HandlesOk()
    ensures res == if node.devInfo == null then -1 else if !memOk then 0x8001_0016 - 0x1_0000_0000 else 0
    ensures forall x: FileObject :: old(allocated(x)) ==> x.offset == old(x.offset) && x.node == old(x.node)
    ensures forall h: Handle :: old(allocated(h)) ==> h.current == old(h.current)
    ensures node.devInfo != null && res != 0 ==> node.devInfo.open == old(node.devInfo.open)
    ensures res == 0 ==> RecordOf(node, fobj) != null && node.devInfo.open == [RecordOf(node, fobj)] + old(node.devInfo.open)
    ensures res == 0 ==> RecordOf(node, fobj).key == fobj
    ensures res == 0 ==> fresh(RecordOf(node, fobj)) && RecordOf(node, fobj).current == node.devInfo.nextDir
    ensures node.devInfo != null ==>
              node.devInfo.Keys() == (if memOk then [fobj] else []) + old(node.devInfo.Keys())
  {
    var e := node.devInfo;
    if e == null {
      return -1;
    }
    var h := e.CreateCtl(fobj, memOk);
    if h == null {
      return INVALID;
    }
    h.current := e.nextDir;
    return 0;
  }

  /** Returns the entry at the cursor, its name cut to what fits the result, and moves the cursor
      along the sibling list `kids` of the directory. */
  method VopDread(node: Vnode, fobj: FileObject, ghost kids: seq<Entry>)
    returns (res: int, name: string, size: int, isDir: bool)
    requires node.devInfo != null ==> node.devInfo.HandlesOk()
    requires var h := RecordOf(node, fobj);
             h != null && h.current != null ==> Chain(node.devInfo.nextDir, kids) && Distinct(kids) && h.current in kids
    modifies (if RecordOf(node, fobj) == null then {} else {RecordOf(node, fobj)})`current
    ensures res == if node.devInfo == null then -1
                   else if RecordOf(node, fobj) == null then 0x8001_0016 - 0x1_0000_0000
                   else if old(RecordOf(node, fobj).current) == null then 0 else 1
    ensures res == 1 ==>
              var cur := old(RecordOf(node, fobj).current);
              && name == (if |cur.name| <= 0xFF then cur.name else cur.name[..0xFF]) && size == cur.size && isDir == cur.isDir
              && RecordOf(node, fobj).current == Pointer(NextIn<Entry>(kids, cur))
    ensures res == 0 ==> RecordOf(node, fobj).current == null
    ensures RecordOf(node, fobj) == old(RecordOf(node, fobj)) && (node.devInfo != null ==> node.devInfo.HandlesOk())
    ensures forall h: Handle :: old(allocated(h)) && h != RecordOf(node, fobj) ==> h.current == old(h.current)
  {
    name, size, isDir := "", 0, false;
    var e := node.devInfo;
    if e == null {
      return -1, name, size, isDir;
    }
    var h := e.SearchCtl(fobj);
    if h == null {
      return INVALID, name, size, isDir;
    }
    if h.current == null {
      return 0, name, size, isDir;
    }
    ChainNext(e.nextDir, kids, h.current);
    name := h.current.name[..Min(|h.current.name|, NAME_MAX)];
    size, isDir := h.current.size, h.current.isDir;
    h.current := h.current.next;
    return 1, name, size, isDir;
  }

  method VopDclose(node: Vnode, fobj: FileObject) returns (res: int)
    requires node.devInfo != null ==> node.devInfo.HandlesOk()
    modifies Target(node)`handles, Target(node)`refer, Target(node)`open
    modifies (if node.devInfo == null then {} else set h | h in node.devInfo.open)`next
    ensures forall x: FileObject :: old(allocated(x)) ==> x.offset == old(x.offset) && x.node == old(x.node)
    ensures forall h: Handle :: old(allocated(h)) ==> h.current == old(h.current)
    ensures node.devInfo != null ==> forall h :: h in node.devInfo.open ==> h in old(node.devInfo.open)
    ensures node.devInfo != null ==> node.devInfo.HandlesOk()
    ensures res == if node.devInfo == null then -1 else if old(IsOpen(node, fobj)) then 0 else 0x8001_0016 - 0x1_0000_0000
    ensures node.devInfo != null ==>
              node.devInfo.Keys() == Without(old(node.devInfo.Keys()), fobj)
  {
    var e := node.devInfo;
    if e == null {
      return -1;
    }
    var h := e.SearchCtl(fobj);
    if h == null {
      WithoutAbsent(e.Keys(), fobj);
      return INVALID;
    }
    res := e.DeleteCtl(fobj);
    if res < 0 {
      return INVALID;
    }
    return 0;
  }
}
