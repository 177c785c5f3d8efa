/** An open file on the heap: the entry, its vnode and the file objects of its handles.  Every call
    takes it the step that the file as a value takes, and so does every run of calls. */
module FileRuns {
  import opened Words
  import opened Lists
  import opened Entries
  import opened FileSpec
  import opened FileIo

  /** The vnode of an entry, and its file objects by descriptor, with the offsets they hold. */
  datatype Table = Table(node: Vnode, fobjs: map<nat, FileObject>, ghost offs: map<nat, nat>)

  ghost predicate KeysMatch(keys: seq<FileObject>, fobjs: map<nat, FileObject>) {
    && Distinct(keys)
    && (forall k :: k in keys ==> k in fobjs.Values)
    && (forall fd :: fd in fobjs ==> fobjs[fd] in keys)
    && (forall fd, gd :: fd in fobjs && gd in fobjs && fobjs[fd] == fobjs[gd] ==> fd == gd)
  }

  ghost predicate Holds(k: FileObject, node: Vnode, off: int)
    reads k
  {
    k.node == node && k.offset == off
  }

  /** Each file object is one of this vnode and holds the offset the table says. */
  ghost predicate HandlesMatch(t: Table)
    reads t.fobjs.Values
  {
    && t.offs.Keys == t.fobjs.Keys
    && forall fd :: fd in t.fobjs ==> Holds(t.fobjs[fd], t.node, t.offs[fd])
  }

  /** The handle records of the entry are those of the file objects, one each, and the vnode shows
      the entry's size. */
  ghost predicate TableOk(e: Entry, t: Table)
    reads e, e.open, t.node, t.fobjs.Values
  {
    && e.HandlesOk() && DataOk(e)
    && t.node.devInfo == e && t.node.size == e.size
    && KeysMatch(e.Keys(), t.fobjs) && HandlesMatch(t)
  }

  predicate Within(offs: map<nat, nat>, size: int) {
    forall fd :: fd in offs ==> offs[fd] <= size
  }

  /** An open file with every offset in it. */
  ghost predicate FileReady(e: Entry, t: Table)
    reads e, e.open, t.node, t.fobjs.Values
  {
    TableOk(e, t) && Within(t.offs, e.size)
  }

  /** The open file as a value. */
  ghost function FileNow(e: Entry, t: Table): File<nat>
    reads e`size, e`data, e.data
  {
    File(Bytes(e), t.offs)
  }

  lemma ReadyFile(e: Entry, t: Table)
    requires FileReady(e, t)
    ensures InFile(FileNow(e, t)) && |Bytes(e)| == e.size == t.node.size <= LAST_FIT && NodeOk(t.node)
    ensures e.HandlesOk() && DataOk(e) && t.node.devInfo == e && KeysMatch(e.Keys(), t.fobjs) && HandlesMatch(t)
    ensures Within(t.offs, e.size) && t.offs.Keys == t.fobjs.Keys && BlockAlign(e.size) <= RoomOf(e) <= LAST_FIT
    ensures forall gd :: gd in t.fobjs ==> t.fobjs[gd].node == t.node && t.fobjs[gd].offset == t.offs[gd]
  {
    hide Entry.HandlesOk, KeysMatch;
    BytesSize(e);
  }

  /** One of the handles. */
  lemma ReadyHandle(e: Entry, t: Table, fd: nat)
    requires FileReady(e, t) && fd in t.fobjs
    ensures var k := t.fobjs[fd];
            IsOpen(t.node, k) && k.node == t.node && fd in t.offs && 0 <= k.offset == t.offs[fd] <= e.size
    ensures t.offs.Keys == t.fobjs.Keys && t.offs[fd := t.offs[fd]] == t.offs
    ensures forall gd :: gd in t.fobjs && gd != fd ==>
              t.fobjs[gd] != t.fobjs[fd] && t.fobjs[gd].node == t.node && t.fobjs[gd].offset == t.offs[gd]
  {
    hide Entry.HandlesOk, DataOk;
  }

  /** A table is in order again after its parts have been put in order. */
  lemma MakeReady(e: Entry, t: Table)
    requires e.HandlesOk() && DataOk(e) && t.node.devInfo == e && t.node.size == e.size
    requires KeysMatch(e.Keys(), t.fobjs) && HandlesMatch(t) && Within(t.offs, e.size)
    ensures FileReady(e, t)
  {
    hide Entry.HandlesOk, DataOk, KeysMatch, HandlesMatch, Within;
  }

  lemma MatchNew(keys: seq<FileObject>, fobjs: map<nat, FileObject>, fd: nat, k: FileObject)
    requires KeysMatch(keys, fobjs) && fd !in fobjs && k !in fobjs.Values
    ensures KeysMatch([k] + keys, fobjs[fd := k]) && fobjs[fd := k].Values <= fobjs.Values + {k}
  {
    var now := fobjs[fd := k];
    assert now[fd] == k;
    forall x | x in [k] + keys ensures x in now.Values {
      if x != k {
        var gd :| gd in fobjs && fobjs[gd] == x;
        assert now[gd] == x;
      }
    }
  }

  lemma MatchClose(keys: seq<FileObject>, fobjs: map<nat, FileObject>, fd: nat)
    requires KeysMatch(keys, fobjs) && fd in fobjs
    ensures KeysMatch(Without(keys, fobjs[fd]), fobjs - {fd}) && (fobjs - {fd}).Values <= fobjs.Values
  {
    WithoutDistinct(keys, fobjs[fd]);
    var now := fobjs - {fd};
    forall x | x in Without(keys, fobjs[fd]) ensures x in now.Values {
      var gd :| gd in fobjs && fobjs[gd] == x;
      assert now[gd] == x;
    }
  }

  // ---------- one call

  /** `c` is a call on `f` that may be made; it leaves `g` and answers `reply`. */
  ghost predicate Ran(f: File<nat>, c: Call<nat>, g: File<nat>, reply: Reply) {
    InFile(f) && CallOk(f, c) && Exec(f, c) == (g, reply)
  }

  /** What a call leaves of the objects: the same vnode, and file objects, records and a buffer that
      are the old ones or new. */
  twostate predicate Kept(e: Entry, t: Table, new u: Table)
    reads e`open, e`data
  {
    && u.node == t.node
    && (forall k :: k in u.fobjs.Values ==> k in t.fobjs.Values || fresh(k))
    && (forall h :: h in e.open ==> h in old(e.open) || fresh(h))
    && (e.data == old(e.data) || e.data == null || fresh(e.data))
  }

  ghost function BufferOf(e: Entry): set<array<byte>>
    reads e`data
  {
    if e.data == null then {} else {e.data}
  }

  /** The table with one offset changed. */
  function Moved(t: Table, fd: nat, ghost off: nat): (u: Table)
    ensures u.node == t.node && u.fobjs == t.fobjs && u.offs == t.offs[fd := off]
  {
    Table(t.node, t.fobjs, t.offs[fd := off])
  }

  lemma RanOpen(f: File<nat>, fd: nat, append: bool, memOk: bool)
    requires InFile(f) && fd !in f.offs
    ensures Ran(f, Call.Open(fd, append, memOk),
                if memOk then f.(offs := f.offs[fd := if append then |f.content| else 0]) else f,
                Code(if memOk then 0 else -1))
  {
  }

  lemma RanWrite(f: File<nat>, fd: nat, data: seq<byte>, memOk: bool, g: File<nat>, off: nat, res: int)
    requires InFile(f) && fd in f.offs && |f.content| + |data| <= LAST_FIT
    requires var refused := Grows(|f.content|, |data|) && !memOk;
             && g.content == (if refused then f.content else Splice(f.content, f.offs[fd], data))
             && off == (if refused then f.offs[fd] else f.offs[fd] + |data|)
             && res == (if refused then -2 else Signed32(|data|))
    requires g.offs == f.offs[fd := off]
    ensures Ran(f, Call.Write(fd, data, memOk), g, Code(res))
  {
    assert f.offs[fd := f.offs[fd]] == f.offs;
  }

  lemma RanClose(f: File<nat>, fd: nat)
    requires InFile(f) && fd in f.offs
    ensures Ran(f, Call.Close(fd), f.(offs := f.offs - {fd}), Code(0))
  {
  }

  lemma RanPwrite(f: File<nat>, fd: nat, at: nat, data: seq<byte>, memOk: bool)
    requires InFile(f) && fd in f.offs && |f.content| + |data| <= LAST_FIT
    ensures var refused := at > |f.content| || (Grows(|f.content|, |data|) && !memOk);
            Ran(f, Call.Pwrite(fd, at, data, memOk),
                if refused then f else f.(content := Splice(f.content, at, data)),
                Code(if at > |f.content| then -1 else if refused then -2 else Signed32(|data|)))
  {
  }

  lemma RanRead(f: File<nat>, fd: nat, count: nat, g: File<nat>, off: nat, res: int, data: seq<byte>)
    requires InFile(f) && fd in f.offs && count <= MAX32
    requires if count == NO_READ then res == -2 && data == [] && off == f.offs[fd]
             else data == Slice(f.content, f.offs[fd], count) && |data| <= MAX32 && res == Signed32(|data|)
                  && off == f.offs[fd] + |data|
    requires g.content == f.content && g.offs == f.offs[fd := off]
    ensures Ran(f, Call.Read(fd, count), g, Reply(res, data))
  {
    assert f.offs[fd := f.offs[fd]] == f.offs;
  }

  lemma RanSeek(f: File<nat>, fd: nat, delta: int, whence: int)
    requires InFile(f) && fd in f.offs && Int64(delta)
    ensures var (off, res) := FileSpec.DoSeek(|f.content|, f.offs[fd], delta, whence);
            0 <= off <= |f.content| && Ran(f, Call.Seek(fd, delta, whence), f.(offs := f.offs[fd := off]), Code(res))
  {
  }

  lemma HandlesNew(t: Table, fd: nat, k: FileObject, off: nat)
    requires HandlesMatch(t) && fd !in t.fobjs && Holds(k, t.node, off)
    ensures HandlesMatch(Table(t.node, t.fobjs[fd := k], t.offs[fd := off]))
  {
    hide Holds;
  }

  lemma HandlesLess(t: Table, fd: nat)
    requires HandlesMatch(t)
    ensures HandlesMatch(Table(t.node, t.fobjs - {fd}, t.offs - {fd}))
  {
    hide Holds;
  }

  lemma HandlesStay(t: Table)
    requires t.offs.Keys == t.fobjs.Keys
    requires forall gd :: gd in t.fobjs ==> t.fobjs[gd].node == t.node && t.fobjs[gd].offset == t.offs[gd]
    ensures HandlesMatch(t)
  {
  }

  lemma HandlesMoved(t: Table, fd: nat, off: nat)
    requires fd in t.fobjs && t.offs.Keys == t.fobjs.Keys && t.fobjs[fd].offset == off && t.fobjs[fd].node == t.node
    requires forall gd :: gd in t.fobjs && gd != fd ==> t.fobjs[gd].node == t.node && t.fobjs[gd].offset == t.offs[gd]
    ensures HandlesMatch(Moved(t, fd, off))
  {
  }

  /** Opens a handle with a file object that is not in use yet. */
  method OpenWith(e: Entry, t: Table, fd: nat, fobj: FileObject, append: bool) returns (u: Table, reply: Reply)
    requires FileReady(e, t) && fd !in t.fobjs && fobj !in t.fobjs.Values && fobj.node == t.node && fobj.offset == 0
    modifies e`handles, e`refer, e`open, fobj`offset
    ensures FileReady(e, u)
    ensures Ran(old(FileNow(e, t)), Call.Open(fd, append, true), FileNow(e, u), reply)
    ensures u.node == t.node && u.fobjs.Values <= t.fobjs.Values + {fobj} && e.data == old(e.data)
    ensures forall h :: h in e.open ==> h in old(e.open) || fresh(h)
  {
    ReadyFile(e, t);
    hide Entry.HandlesOk, Bytes, DataOk, KeysMatch, Entry.Keys, Ran, FileReady, TableOk, NodeOk, HandlesMatch;
    ghost var f, keys := FileNow(e, t), e.Keys();
    RanOpen(f, fd, append, true);
    MatchNew(keys, t.fobjs, fd, fobj);
    var res := FileIo.OpenFile(t.node, fobj, append, true);
    reply := Code(res);
    ghost var off: nat := fobj.offset;
    u := Table(t.node, t.fobjs[fd := fobj], t.offs[fd := off]);
    HandlesStay(t);
    HandlesNew(t, fd, fobj, off);
    MakeReady(e, u);
  }

  /** Without memory for a record nothing is opened. */
  method OpenFails(e: Entry, t: Table, fd: nat, fobj: FileObject, append: bool) returns (reply: Reply)
    requires FileReady(e, t) && fd !in t.fobjs && fobj !in t.fobjs.Values
    modifies e`handles, e`refer, e`open, fobj`offset
    ensures FileReady(e, t)
    ensures Ran(old(FileNow(e, t)), Call.Open(fd, append, false), FileNow(e, t), reply)
    ensures e.data == old(e.data) && forall h :: h in e.open ==> h in old(e.open) || fresh(h)
  {
    ReadyFile(e, t);
    hide Entry.HandlesOk, Bytes, DataOk, KeysMatch, Entry.Keys, Ran, FileReady, TableOk, NodeOk, HandlesMatch;
    ghost var f, keys := FileNow(e, t), e.Keys();
    RanOpen(f, fd, append, false);
    var res := FileIo.OpenFile(t.node, fobj, append, false);
    reply := Code(res);
    assert [] + keys == keys;
    HandlesStay(t);
    MakeReady(e, t);
  }

  method DoOpen(e: Entry, t: Table, fd: nat, append: bool, memOk: bool) returns (u: Table, reply: Reply)
    requires FileReady(e, t) && fd !in t.fobjs
    modifies e`handles, e`refer, e`open
    ensures FileReady(e, u) && Kept(e, t, u)
    ensures Ran(old(FileNow(e, t)), Call.Open(fd, append, memOk), FileNow(e, u), reply)
  {
    hide FileReady, Ran, Bytes;
    ReadyFile(e, t);
    assert forall k :: k in t.fobjs.Values ==> old(allocated(k));
    assert forall h :: h in e.open ==> old(allocated(h));
    var fobj := new FileObject(t.node);
    if memOk {
      u, reply := OpenWith(e, t, fd, fobj, append);
    } else {
      u := t;
      reply := OpenFails(e, t, fd, fobj, append);
    }
  }

  /** A handle whose calls stay in the buffer. */
  ghost predicate HandleReady(e: Entry, node: Vnode, k: FileObject)
    reads e, e.open, node, k
  {
    && node.devInfo == e && e.HandlesOk() && DataOk(e) && node.size == e.size
    && k in e.Keys() && k.node == node && 0 <= k.offset <= e.size
  }

  method WriteOne(e: Entry, node: Vnode, k: FileObject, data: seq<byte>, memOk: bool) returns (res: int)
    requires HandleReady(e, node, k) && e.size + |data| <= LAST_FIT
    modifies node`size, k`offset, e`data, e`size, BufferOf(e)
    ensures forall x: FileObject :: old(allocated(x)) && x != k ==> x.offset == old(x.offset) && x.node == old(x.node)
    ensures HandleReady(e, node, k) && e.size >= old(e.size)
    ensures var refused := old(Grows(e.size, |data|)) && !memOk;
            && |old(Bytes(e))| == old(e.size)
            && res == (if refused then -2 else Signed32(|data|))
            && k.offset == (if refused then old(k.offset) else old(k.offset) + |data|)
            && Bytes(e) == (if refused then old(Bytes(e)) else Splice(old(Bytes(e)), old(k.offset), data))
    ensures e.data == old(e.data) || fresh(e.data)
  {
    hide Entry.HandlesOk, Bytes, DataOk, Entry.Keys, Overlaid, Splice, BlockAlign, Low32;
    BytesSize(e);
    RoomOk(e);
    FitsIff(e.size, RoomOf(e), k.offset, |data|);
    ghost var c, off := Bytes(e), k.offset;
    var inside;
    res, inside := FileIo.Write(node, k, data, memOk);
    OverlaidIsSplice(c, Bytes(e), off, data);
    BytesSize(e);
    SpliceGrows(c, off, data);
  }

  lemma RoomOk(e: Entry)
    requires DataOk(e)
    ensures BlockAlign(e.size) <= RoomOf(e) <= LAST_FIT
  {
  }

  lemma SpliceGrows(c: seq<byte>, at: nat, d: seq<byte>)
    requires at <= |c|
    ensures |c| <= |Splice(c, at, d)| && at + |d| <= |Splice(c, at, d)|
  {
  }

  method ReadOne(e: Entry, node: Vnode, k: FileObject, count: nat) returns (res: int, data: seq<byte>)
    requires HandleReady(e, node, k) && count <= MAX32
    modifies k`offset
    ensures forall x: FileObject :: old(allocated(x)) && x != k ==> x.offset == old(x.offset) && x.node == old(x.node)
    ensures HandleReady(e, node, k) && |Bytes(e)| == e.size
    ensures if count == NO_READ then res == -2 && data == [] && k.offset == old(k.offset)
            else data == Slice(Bytes(e), old(k.offset), count) && |data| <= MAX32 && res == Signed32(|data|)
                 && k.offset == old(k.offset) + |data|
  {
    BytesSize(e);
    hide Entry.HandlesOk, Bytes, DataOk, Entry.Keys;
    var inside;
    res, data, inside := FileIo.Read(node, k, count);
  }

  lemma ReadyOne(e: Entry, t: Table, fd: nat)
    requires FileReady(e, t) && fd in t.fobjs
    ensures HandleReady(e, t.node, t.fobjs[fd]) && |Bytes(e)| == e.size
  {
    hide Entry.HandlesOk, DataOk;
    BytesSize(e);
  }

  /** The table is in order again after one of its handles has moved. */
  lemma OneMoved(e: Entry, t: Table, fd: nat, off: nat, size: int)
    requires fd in t.fobjs && HandleReady(e, t.node, t.fobjs[fd]) && t.fobjs[fd].offset == off
    requires KeysMatch(e.Keys(), t.fobjs) && t.offs.Keys == t.fobjs.Keys && Within(t.offs, size) && size <= e.size
    requires forall gd :: gd in t.fobjs && gd != fd ==> t.fobjs[gd].node == t.node && t.fobjs[gd].offset == t.offs[gd]
    ensures FileReady(e, Moved(t, fd, off))
  {
    hide Entry.HandlesOk, DataOk, KeysMatch;
    HandlesMoved(t, fd, off);
  }

  method DoWrite(e: Entry, t: Table, fd: nat, data: seq<byte>, memOk: bool) returns (u: Table, reply: Reply)
    requires FileReady(e, t) && fd in t.fobjs && e.size + |data| <= LAST_FIT
    modifies t.node`size, t.fobjs.Values`offset, e`data, e`size, BufferOf(e)
    ensures FileReady(e, u) && Kept(e, t, u)
    ensures Ran(old(FileNow(e, t)), Call.Write(fd, data, memOk), FileNow(e, u), reply)
  {
    hide HandleReady, Bytes, DataOk, KeysMatch, Entry.Keys, Splice, BlockAlign, Ran, FileReady, TableOk, HandlesMatch, NodeOk;
    hide Entry.HandlesOk, Within;
    ReadyFile(e, t);
    ReadyHandle(e, t, fd);
    ReadyOne(e, t, fd);
    ghost var size, f := e.size, FileNow(e, t);
    var res := WriteOne(e, t.node, t.fobjs[fd], data, memOk);
    OffsetNow(e, t.node, t.fobjs[fd]);
    reply := Code(res);
    u := Moved(t, fd, t.fobjs[fd].offset);
    RanWrite(f, fd, data, memOk, FileNow(e, u), t.fobjs[fd].offset, res);
    OneMoved(e, t, fd, t.fobjs[fd].offset, size);
  }

  method CloseOne(e: Entry, node: Vnode, k: FileObject) returns (res: int)
    requires HandleReady(e, node, k)
    modifies e`handles, e`refer, e`open, e.open`next
    ensures e.HandlesOk() && DataOk(e) && node.devInfo == e && node.size == e.size
    ensures Bytes(e) == old(Bytes(e)) && res == 0 && e.Keys() == Without(old(e.Keys()), k)
    ensures forall x: FileObject :: old(allocated(x)) ==> x.offset == old(x.offset) && x.node == old(x.node)
    ensures forall h :: h in e.open ==> h in old(e.open)
  {
    hide Entry.HandlesOk, Bytes, DataOk, Entry.Keys;
    res := CloseFile(node, k);
  }

  method DoClose(e: Entry, t: Table, fd: nat) returns (u: Table, reply: Reply)
    requires FileReady(e, t) && fd in t.fobjs
    modifies e`handles, e`refer, e`open, e.open`next
    ensures FileReady(e, u) && Kept(e, t, u)
    ensures Ran(old(FileNow(e, t)), Call.Close(fd), FileNow(e, u), reply)
  {
    hide HandleReady, Entry.HandlesOk, Bytes, DataOk, KeysMatch, Entry.Keys, FileReady, TableOk, NodeOk, HandlesMatch, Ran;
    hide Within;
    ReadyFile(e, t);
    ReadyOne(e, t, fd);
    ghost var f := FileNow(e, t);
    RanClose(f, fd);
    MatchClose(e.Keys(), t.fobjs, fd);
    var res := CloseOne(e, t.node, t.fobjs[fd]);
    u := Table(t.node, t.fobjs - {fd}, t.offs - {fd});
    HandlesStay(t);
    HandlesLess(t, fd);
    reply := Code(res);
    WithinLess(t.offs, fd, e.size);
    MakeReady(e, u);
  }

  lemma WithinLess(offs: map<nat, nat>, fd: nat, size: int)
    requires Within(offs, size)
    ensures Within(offs - {fd}, size)
  {
  }

  lemma OffsetNow(e: Entry, node: Vnode, k: FileObject)
    requires HandleReady(e, node, k)
    ensures 0 <= k.offset <= e.size
  {
  }

  method DoRead(e: Entry, t: Table, fd: nat, count: nat) returns (u: Table, reply: Reply)
    requires FileReady(e, t) && fd in t.fobjs && count <= MAX32
    modifies t.fobjs.Values`offset
    ensures FileReady(e, u) && Kept(e, t, u)
    ensures Ran(old(FileNow(e, t)), Call.Read(fd, count), FileNow(e, u), reply)
  {
    hide HandleReady, Bytes, DataOk, KeysMatch, Entry.Keys, Slice, Ran, FileReady, TableOk, HandlesMatch, NodeOk;
    hide Entry.HandlesOk, Within;
    ReadyFile(e, t);
    ReadyHandle(e, t, fd);
    ReadyOne(e, t, fd);
    ghost var f := FileNow(e, t);
    var res, data := ReadOne(e, t.node, t.fobjs[fd], count);
    OffsetNow(e, t.node, t.fobjs[fd]);
    reply := Reply(res, data);
    u := Moved(t, fd, t.fobjs[fd].offset);
    RanRead(f, fd, count, FileNow(e, u), t.fobjs[fd].offset, res, data);
    OneMoved(e, t, fd, t.fobjs[fd].offset, e.size);
  }

  method DoSeek(e: Entry, t: Table, fd: nat, delta: int, whence: int) returns (u: Table, reply: Reply)
    requires FileReady(e, t) && fd in t.fobjs && Int64(delta)
    modifies t.fobjs.Values`offset
    ensures FileReady(e, u) && Kept(e, t, u)
    ensures Ran(old(FileNow(e, t)), Call.Seek(fd, delta, whence), FileNow(e, u), reply)
  {
    hide Ran, Entry.HandlesOk, Bytes, DataOk, KeysMatch, Entry.Keys, FileReady, TableOk, HandlesMatch, Holds, NodeOk;
    ReadyFile(e, t);
    ReadyHandle(e, t, fd);
    RanSeek(FileNow(e, t), fd, delta, whence);
    var res := Lseek(t.node, t.fobjs[fd], delta, whence);
    reply := Code(res);
    u := Moved(t, fd, t.fobjs[fd].offset);
    assert forall k: FileObject :: old(allocated(k)) && k != t.fobjs[fd] ==> k.offset == old(k.offset) && k.node == old(k.node);
    HandlesMoved(t, fd, t.fobjs[fd].offset);
    MakeReady(e, u);
  }

  method PwriteOne(e: Entry, node: Vnode, k: FileObject, at: nat, data: seq<byte>, memOk: bool) returns (res: int)
    requires HandleReady(e, node, k) && e.size + |data| <= LAST_FIT
    modifies node`size, e`data, e`size, BufferOf(e)
    ensures HandleReady(e, node, k) && e.size >= old(e.size) && |old(Bytes(e))| == old(e.size)
    ensures forall x: FileObject :: old(allocated(x)) ==> x.offset == old(x.offset) && x.node == old(x.node)
    ensures var refused := at > old(e.size) || (old(Grows(e.size, |data|)) && !memOk);
            && res == (if at > old(e.size) then -1 else if refused then -2 else Signed32(|data|))
            && Bytes(e) == (if refused then old(Bytes(e)) else Splice(old(Bytes(e)), at, data))
    ensures e.data == old(e.data) || fresh(e.data)
  {
    hide Entry.HandlesOk, Bytes, DataOk, Entry.Keys, Splice, BlockAlign, Low32;
    BytesSize(e);
    ghost var c := Bytes(e);
    var inside;
    res, inside := FileIo.Pwrite(node, k, data, at, memOk);
    BytesSize(e);
    if at <= |c| {
      SpliceGrows(c, at, data);
    }
  }

  method DoPwrite(e: Entry, t: Table, fd: nat, at: nat, data: seq<byte>, memOk: bool) returns (reply: Reply)
    requires FileReady(e, t) && fd in t.fobjs && e.size + |data| <= LAST_FIT
    modifies t.node`size, e`data, e`size, BufferOf(e)
    ensures FileReady(e, t) && Kept(e, t, t)
    ensures Ran(old(FileNow(e, t)), Call.Pwrite(fd, at, data, memOk), FileNow(e, t), reply)
  {
    hide HandleReady, Bytes, DataOk, KeysMatch, Entry.Keys, Splice, BlockAlign, Ran, FileReady, TableOk, HandlesMatch, NodeOk;
    hide Entry.HandlesOk, Within;
    ReadyFile(e, t);
    ReadyOne(e, t, fd);
    ghost var size := e.size;
    RanPwrite(FileNow(e, t), fd, at, data, memOk);
    var res := PwriteOne(e, t.node, t.fobjs[fd], at, data, memOk);
    reply := Code(res);
    NoneMoved(e, t, fd, size);
  }

  /** The table is in order as long as none of its handles has moved. */
  lemma NoneMoved(e: Entry, t: Table, fd: nat, size: int)
    requires fd in t.fobjs && HandleReady(e, t.node, t.fobjs[fd])
    requires KeysMatch(e.Keys(), t.fobjs) && t.offs.Keys == t.fobjs.Keys && Within(t.offs, size) && size <= e.size
    requires forall gd :: gd in t.fobjs ==> t.fobjs[gd].node == t.node && t.fobjs[gd].offset == t.offs[gd]
    ensures FileReady(e, t)
  {
    hide Entry.HandlesOk, DataOk, KeysMatch;
  }

  method DoPread(e: Entry, t: Table, fd: nat, at: nat, count: nat) returns (reply: Reply)
    requires FileReady(e, t) && fd in t.fobjs && count <= MAX32
    ensures FileReady(e, t) && Kept(e, t, t)
    ensures Ran(old(FileNow(e, t)), Call.Pread(fd, at, count), FileNow(e, t), reply)
  {
    ReadyFile(e, t);
    ReadyHandle(e, t, fd);
    hide Entry.HandlesOk, Bytes, DataOk, KeysMatch, Entry.Keys, FileReady, TableOk, HandlesMatch, Holds, NodeOk;
    var res, data, inside := FileIo.Pread(t.node, t.fobjs[fd], count, at);
    reply := Reply(res, data);
    HandlesStay(t);
    MakeReady(e, t);
  }

  lemma RanSize(f: File<nat>, size: int, junk: seq<byte>, memOk: bool)
    requires InFile(f) && CallOk(f, Call.SetSize(size, junk, memOk))
    ensures var ok := 0 <= size <= MAX32 && (size > 0 ==> memOk);
            && (ok && size > 0 ==> |f.content| <= size == |junk|)
            && Ran(f, Call.SetSize(size, junk, memOk),
                   if !ok then f else f.(content := if size == 0 then [] else f.content + junk[|f.content|..]),
                   Code(if size < 0 || size > MAX32 then -1 else if ok then 0 else -2))
            && (ok ==> Within(f.offs, size))
  {
  }

  /** A vnode whose entry is in order. */
  ghost predicate NodeReady(e: Entry, node: Vnode)
    reads e, e.open, node
  {
    node.devInfo == e && e.HandlesOk() && DataOk(e) && node.size == e.size
  }

  method SizeOne(e: Entry, node: Vnode, size: int, junk: seq<byte>, memOk: bool) returns (res: int)
    requires NodeReady(e, node)
    requires 0 <= size <= MAX32 ==> size % BLOCK == 0 && (size == 0 || e.size <= size) && |junk| == size
    modifies node`size, e`data, e`size
    ensures forall x: FileObject :: old(allocated(x)) ==> x.offset == old(x.offset) && x.node == old(x.node)
    ensures NodeReady(e, node) && (e.data == old(e.data) || e.data == null || fresh(e.data))
    ensures var ok := 0 <= size <= MAX32 && (size > 0 ==> memOk);
            && |old(Bytes(e))| == old(e.size)
            && res == (if size < 0 || size > MAX32 then -1 else if ok then 0 else -2)
            && e.size == (if ok then size else old(e.size))
            && (ok && size > 0 ==> |old(Bytes(e))| <= size == |junk|)
            && Bytes(e) == (if !ok then old(Bytes(e)) else if size == 0 then [] else old(Bytes(e)) + junk[|old(Bytes(e))|..])
  {
    BytesSize(e);
    hide Entry.HandlesOk, Bytes, DataOk, Entry.Keys;
    var inside;
    res, inside := FileIo.SetSize(node, size, memOk, junk);
  }

  method DoSize(e: Entry, t: Table, size: int, junk: seq<byte>, memOk: bool) returns (reply: Reply)
    requires FileReady(e, t) && CallOk(FileNow(e, t), Call.SetSize(size, junk, memOk))
    modifies t.node`size, e`data, e`size
    ensures FileReady(e, t) && Kept(e, t, t)
    ensures Ran(old(FileNow(e, t)), Call.SetSize(size, junk, memOk), FileNow(e, t), reply)
  {
    ReadyFile(e, t);
    RanSize(FileNow(e, t), size, junk, memOk);
    hide Entry.HandlesOk, Bytes, DataOk, KeysMatch, Entry.Keys, FileReady, TableOk, HandlesMatch, Holds, NodeOk, Ran, Within;
    var res := SizeOne(e, t.node, size, junk, memOk);
    reply := Code(res);
    HandlesStay(t);
    MakeReady(e, t);
  }

  // ---------- runs of calls

  /** Any call that may be made takes the open file on the heap the step that the file as a value
      takes, and answers the same. */
  method Perform(e: Entry, t: Table, c: Call<nat>) returns (u: Table, reply: Reply)
    requires FileReady(e, t) && CallOk(FileNow(e, t), c)
    modifies e`handles, e`refer, e`open, (set h | h in e.open)`next, t.node`size, t.fobjs.Values`offset, e`data, e`size, BufferOf(e)
    ensures FileReady(e, u) && Kept(e, t, u)
    ensures Ran(old(FileNow(e, t)), c, FileNow(e, u), reply)
  {
    ReadyFile(e, t);
    hide FileReady, Ran, Bytes;
    u := t;
    match c {
      case Open(fd, append, memOk) => u, reply := DoOpen(e, t, fd, append, memOk);
      case Close(fd) => u, reply := DoClose(e, t, fd);
      case Write(fd, data, memOk) => u, reply := DoWrite(e, t, fd, data, memOk);
      case Read(fd, count) => u, reply := DoRead(e, t, fd, count);
      case Seek(fd, delta, whence) => u, reply := DoSeek(e, t, fd, delta, whence);
      case Pwrite(fd, at, data, memOk) => reply := DoPwrite(e, t, fd, at, data, memOk);
      case Pread(fd, at, count) => reply := DoPread(e, t, fd, at, count);
      case SetSize(size, junk, memOk) => reply := DoSize(e, t, size, junk, memOk);
    }
  }

  ghost predicate MayRun(f: File<nat>, cs: seq<Call<nat>>) {
    InFile(f) && CallsOk(f, cs)
  }

  /** `cs` is a run of calls on `f` that may be made; it leaves `g` and answers `replies`. */
  ghost predicate RanAll(f: File<nat>, cs: seq<Call<nat>>, g: File<nat>, replies: seq<Reply>) {
    MayRun(f, cs) && RunFile(f, cs) == g && Replies(f, cs) == replies
  }

  lemma RanMore(f: File<nat>, cs: seq<Call<nat>>, g: File<nat>, reply: Reply, h: File<nat>, rest: seq<Reply>)
    requires cs != [] && Ran(f, cs[0], g, reply) && RanAll(g, cs[1..], h, rest)
    ensures RanAll(f, cs, h, [reply] + rest)
  {
    hide Exec, CallOk, InFile;
  }

  lemma RunStarts(f: File<nat>, cs: seq<Call<nat>>)
    requires MayRun(f, cs)
    ensures cs == [] ==> RanAll(f, cs, f, [])
    ensures cs != [] ==> CallOk(f, cs[0]) && forall g, reply :: Ran(f, cs[0], g, reply) ==> MayRun(g, cs[1..])
  {
    hide Exec, CallOk, InFile;
  }

  /** Every run of calls that may be made leaves the open file on the heap what the same run leaves
      the file as a value, with the same replies, every offset inside the file, and the vnode showing
      its size. */
  method RunCalls(e: Entry, t: Table, cs: seq<Call<nat>>) returns (u: Table, replies: seq<Reply>)
    requires FileReady(e, t) && MayRun(FileNow(e, t), cs)
    modifies e`handles, e`refer, e`open, (set h | h in e.open)`next, t.node`size, t.fobjs.Values`offset, e`data, e`size, BufferOf(e)
    ensures FileReady(e, u) && Kept(e, t, u)
    ensures RanAll(old(FileNow(e, t)), cs, FileNow(e, u), replies)
    decreases |cs|
  {
    ghost var f := FileNow(e, t);
    RunStarts(f, cs);
    hide FileReady, Ran, RanAll, MayRun, Bytes, CallOk;
    if cs == [] {
      return t, [];
    }
    var reply;
    u, reply := Perform(e, t, cs[0]);
    ghost var g := FileNow(e, u);
    assert forall a :: a in BufferOf(e) ==> a in old(BufferOf(e)) || fresh(a);
    u, replies := RunCalls(e, u, cs[1..]);
    RanMore(f, cs, g, reply, FileNow(e, u), replies);
    replies := [reply] + replies;
  }
}
