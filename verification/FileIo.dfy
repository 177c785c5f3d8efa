/** Reading, writing, seeking and resizing through vnodes and file objects: the contents live in a
    heap buffer that grows in blocks and is copied into place. */
module FileIo {
  import opened Words
  import opened Lists
  import opened Entries
  import opened FileSpec

  /** The length of the buffer; there may be none. */
  ghost function RoomOf(e: Entry): nat
    reads e`data
  {
    if e.data == null then 0 else e.data.Length
  }

  /** The buffer has room for the whole blocks of the file, and is made of whole blocks itself. */
  ghost predicate DataOk(e: Entry)
    reads e`size, e`data
  {
    0 <= e.size && BlockAlign(e.size) <= RoomOf(e) <= LAST_FIT && RoomOf(e) % BLOCK == 0
  }

  /** The bytes of a file. */
  ghost function Bytes(e: Entry): (c: seq<byte>)
    reads e`size, e`data, e.data
  {
    if e.data != null && 0 <= e.size <= e.data.Length then e.data[..e.size] else []
  }

  lemma BytesSize(e: Entry)
    requires DataOk(e)
    ensures |Bytes(e)| == e.size <= RoomOf(e)
  {
    BlockAlignFacts(e.size);
  }

  /** Copies `src` over `dst` at `at`. */
  method Copy(dst: array<byte>, at: nat, src: seq<byte>)
    requires at + |src| <= dst.Length
    modifies dst
    ensures dst[..] == old(dst[..at]) + src + old(dst[at + |src|..])
  {
    forall i | 0 <= i < |src| {
      dst[at + i] := src[i];
    }
  }

  ghost function Target(node: Vnode): set<Entry>
    reads node
  {
    if node.devInfo == null then {} else {node.devInfo}
  }

  ghost function Buffer(node: Vnode): set<array<byte>>
    reads node, Target(node)
  {
    if node.devInfo == null || node.devInfo.data == null then {} else {node.devInfo.data}
  }

  /** One vnode per entry, showing the entry's size; handle records in order. */
  ghost predicate NodeOk(node: Vnode)
    reads node, Target(node), if node.devInfo == null then {} else set h | h in node.devInfo.open
  {
    node.devInfo != null ==>
      var e := node.devInfo;
      e.HandlesOk() && DataOk(e) && node.size == e.size
  }

  /** The file object has a handle record at the vnode's entry. */
  ghost predicate IsOpen(node: Vnode, fobj: FileObject)
    reads node, Target(node)
  {
    node.devInfo != null && fobj in node.devInfo.Keys()
  }

  lemma RoomFits(size: nat, room: nat)
    requires size <= room <= LAST_FIT && room % BLOCK == 0
    ensures BlockAlign(size) <= room
  {
    BlockAlignFacts(room);
    BlockAlignMonotonic(size, room);
  }

  lemma WholeBlocks(n: nat)
    ensures Low32(BlockAlign(n)) % BLOCK == 0 && Low32(BlockAlign(n)) <= LAST_FIT
  {
    var q := (n + (BLOCK - 1)) / BLOCK;
    assert BlockAlign(n) == BLOCK * q;
    var a, b := q / 0x80_0000, q % 0x80_0000;
    hide BlockAlign;
    LowIs(BLOCK * q, a, BLOCK * b);
  }

  lemma LowIs(x: nat, a: nat, r: nat)
    requires x == 0x1_0000_0000 * a + r && r < 0x1_0000_0000
    ensures Low32(x) == r
  {
  }

  /** Before a write of `n` bytes: if the rounded size grows, allocates a buffer of the new rounded
      size, cut to 32 bits, and moves the file there.  Stops before the move if the file is longer
      than that buffer. */
  method Grow(e: Entry, n: nat, memOk: bool) returns (ok: bool, inside: bool)
    requires DataOk(e)
    modifies e`data
    ensures DataOk(e) && Bytes(e) == old(Bytes(e))
    ensures inside <==> (Grows(e.size, n) && memOk ==> e.size <= NewRoom(e.size, old(RoomOf(e)), n))
    ensures ok <==> inside && (Grows(e.size, n) ==> memOk)
    ensures ok ==> RoomOf(e) == NewRoom(e.size, old(RoomOf(e)), n)
    ensures !ok ==> e.data == old(e.data)
    ensures e.data == old(e.data) || fresh(e.data)
  {
    BytesSize(e);
    WholeBlocks(e.size + n);
    var room := Low32(BlockAlign(e.size + n));
    if e.size <= room {
      RoomFits(e.size, room);
    }
    hide BlockAlign, Low32;
    if BlockAlign(e.size + n) > BlockAlign(e.size) {
      if !memOk {
        return false, true;
      }
      var temp := new byte[room];
      if e.size > room {
        return false, false;
      }
      if e.data != null {
        Copy(temp, 0, e.data[..e.size]);
      }
      e.data := temp;
    }
    return true, true;
  }

  /** Copying into a buffer lays the data over the file that it starts with. */
  lemma CopyOverlays(b: seq<byte>, size: nat, at: nat, src: seq<byte>)
    requires size <= |b| && at + |src| <= |b|
    ensures Overlaid(b[..size], (b[..at] + src + b[at + |src|..])[..Max(size, at + |src|)], at, src)
  {
  }

  /** Copies data into the buffer and lets the file and its vnode end where it ends, if that is
      further than before. */
  method Poke(node: Vnode, e: Entry, at: nat, src: seq<byte>)
    requires node.devInfo == e && DataOk(e) && node.size == e.size && at + |src| <= RoomOf(e)
    modifies node`size, e`size, e.data
    ensures DataOk(e) && node.size == e.size
    ensures Overlaid(old(Bytes(e)), Bytes(e), at, src)
  {
    BytesSize(e);
    RoomFits(at + |src|, RoomOf(e));
    hide BlockAlign, Overlaid;
    if e.data != null {
      Overlay(e.data, e.size, at, src);
    } else {
      CopyOverlays([], 0, 0, []);
    }
    if at + |src| >= e.size {
      e.size := at + |src|;
      node.size := at + |src|;
    }
  }

  /** Copies into a buffer that holds a file of `size` bytes. */
  method Overlay(b: array<byte>, size: nat, at: nat, src: seq<byte>)
    requires size <= b.Length && at + |src| <= b.Length
    modifies b
    ensures Overlaid(old(b[..size]), b[..Max(size, at + |src|)], at, src)
  {
    ghost var was := b[..];
    CopyOverlays(was, size, at, src);
    assert was[..size] == b[..size] && was[..at] == b[..at] && was[at + |src|..] == b[at + |src|..];
    Copy(b, at, src);
    hide Overlaid;
    assert b[..][..Max(size, at + |src|)] == b[..Max(size, at + |src|)];
  }

  /** A write of `n` bytes gets past the tests and the allocation. */
  ghost predicate WriteTried(node: Vnode, fobj: FileObject, at: int, n: nat, memOk: bool)
    reads node, fobj, Target(node)
  {
    && IsOpen(node, fobj) && at <= MAX32 && fobj.node == node && 0 <= node.devInfo.size
    && (Grows(node.devInfo.size, n) ==> memOk)
  }

  /** The copies of a write of `n` bytes at the handle's offset stay in their buffers, or there are
      none. */
  ghost predicate WriteFits(node: Vnode, fobj: FileObject, n: nat, memOk: bool)
    reads node, fobj, Target(node)
  {
    WriteTried(node, fobj, fobj.offset, n, memOk) ==>
      Fits(node.devInfo.size, RoomOf(node.devInfo), fobj.offset, n)
  }

  /** What a write does whose copies stay in their buffers: once tried, it lays the data over the
      bytes at the offset and moves the offset past it; otherwise nothing changes. */
  twostate predicate Written(node: Vnode, fobj: FileObject, src: seq<byte>, memOk: bool, res: int)
    reads node, fobj, Target(node), Buffer(node)
  {
    && node.devInfo == old(node.devInfo)
    && if old(WriteTried(node, fobj, fobj.offset, |src|, memOk)) then
      && 0 <= old(fobj.offset) && |src| <= MAX32
      && Overlaid(old(Bytes(node.devInfo)), Bytes(node.devInfo), old(fobj.offset), src)
      && res == Signed32(|src|) && fobj.offset == old(fobj.offset) + |src|
    else
      && res == (if !old(IsOpen(node, fobj)) || old(fobj.offset) > MAX32 then -1 else if fobj.node != node then -3 else -2)
      && Same(node, fobj)
  }

  twostate predicate Same(node: Vnode, fobj: FileObject)
    reads node, fobj, Target(node), Buffer(node)
  {
    && fobj.offset == old(fobj.offset)
    && node.devInfo == old(node.devInfo)
    && (node.devInfo != null ==> Bytes(node.devInfo) == old(Bytes(node.devInfo)))
  }

  twostate predicate WriteDone(node: Vnode, fobj: FileObject, src: seq<byte>, memOk: bool, res: int, inside: bool)
    reads node, fobj, Target(node), Buffer(node)
  {
    && (inside <==> old(WriteFits(node, fobj, |src|, memOk)))
    && if inside then Written(node, fobj, src, memOk, res) else Same(node, fobj)
  }

  /** `inside` says whether the copies stay in their buffers; the model stops before one that would
      not. */
  method Write(node: Vnode, fobj: FileObject, src: seq<byte>, memOk: bool) returns (res: int, inside: bool)
    requires NodeOk(node) && |src| <= MAX32
    modifies node`size, fobj`offset, Target(node)`data, Target(node)`size, Buffer(node)
    ensures forall x: FileObject :: old(allocated(x)) && x != fobj ==> x.offset == old(x.offset) && x.node == old(x.node)
    ensures node.devInfo != null ==> DataOk(node.devInfo) && node.size == node.devInfo.size
    ensures node.devInfo != null ==> node.devInfo.data == old(node.devInfo.data) || fresh(node.devInfo.data)
    ensures WriteDone(node, fobj, src, memOk, res, inside)
    ensures inside && old(WriteTried(node, fobj, fobj.offset, |src|, memOk)) ==>
              res == if |src| < 0x8000_0000 then |src| else |src| - 0x1_0000_0000
  {
    hide BlockAlign, Overlaid, Entry.HandlesOk, Bytes, Low32;
    inside := true;
    var e := node.devInfo;
    if e == null {
      return -1, true;
    }
    BytesSize(e);
    var h := e.SearchCtl(fobj);
    if h == null {
      return -1, true;
    }
    if node.size > MAX32 || fobj.offset > MAX32 {
      return -1, true;
    }
    if node != fobj.node {
      return -3, true;
    }
    var ok;
    ok, inside := Grow(e, |src|, memOk);
    if !ok {
      return -2, inside;
    }
    BytesSize(e);
    if fobj.offset < 0 || fobj.offset + |src| > (if e.data == null then 0 else e.data.Length) {
      return 0, false;
    }
    Poke(node, e, fobj.offset, src);
    fobj.offset := fobj.offset + |src|;
    res := Signed32(|src|);
  }

  /** A positional write.  Once past the tests its copies stay in their buffers exactly when the
      offset is not negative and the file ends at or below 0xFFFFFE00. */
  method Pwrite(node: Vnode, fobj: FileObject, src: seq<byte>, offset: int, memOk: bool) returns (res: int, inside: bool)
    requires NodeOk(node) && |src| <= MAX32
    modifies node`size, Target(node)`data, Target(node)`size, Buffer(node)
    ensures forall x: FileObject :: old(allocated(x)) ==> x.offset == old(x.offset) && x.node == old(x.node)
    ensures node.devInfo != null ==> DataOk(node.devInfo) && node.size == node.devInfo.size
    ensures node.devInfo != null ==> node.devInfo.data == old(node.devInfo.data) || fresh(node.devInfo.data)
    ensures inside <==> (offset <= old(node.size) && old(WriteTried(node, fobj, offset, |src|, memOk)) ==>
                           0 <= offset && old(node.size) + |src| <= LAST_FIT)
    ensures !inside ==> Same(node, fobj)
    ensures inside ==>
              if old(IsOpen(node, fobj)) && offset <= old(node.size) && fobj.node == node then
                if old(Grows(node.size, |src|)) && !memOk then res == -2 && Same(node, fobj)
                else 0 <= offset <= |old(Bytes(node.devInfo))| &&
                     (Bytes(node.devInfo), res) == DoWrite(old(Bytes(node.devInfo)), offset, src, memOk)
              else
                res == (if old(IsOpen(node, fobj)) && offset <= old(node.size) then -3 else -1) && Same(node, fobj)
    ensures inside && offset <= old(node.size) && old(WriteTried(node, fobj, offset, |src|, memOk)) ==>
              res == if |src| < 0x8000_0000 then |src| else |src| - 0x1_0000_0000
  {
    hide BlockAlign, Splice, Overlaid, Entry.HandlesOk, Bytes, Low32;
    inside := true;
    var e := node.devInfo;
    if e == null {
      return -1, true;
    }
    BytesSize(e);
    var h := e.SearchCtl(fobj);
    if h == null {
      return -1, true;
    }
    if node.size > MAX32 || offset > MAX32 {
      return -1, true;
    }
    if offset > node.size {
      return -1, true;
    }
    if node != fobj.node {
      return -3, true;
    }
    FitsIff(e.size, RoomOf(e), offset, |src|);
    ghost var c := Bytes(e);
    var ok;
    ok, inside := Grow(e, |src|, memOk);
    if !ok {
      return -2, inside;
    }
    BytesSize(e);
    if offset < 0 || offset + |src| > (if e.data == null then 0 else e.data.Length) {
      return 0, false;
    }
    Poke(node, e, offset, src);
    OverlaidIsSplice(c, Bytes(e), offset, src);
    res := Signed32(|src|);
  }

  lemma NodeSizeBound(node: Vnode)
    requires NodeOk(node)
    ensures node.devInfo != null ==> node.size == |Bytes(node.devInfo)| <= LAST_FIT
  {
    hide Entry.HandlesOk;
    if node.devInfo != null {
      BytesSize(node.devInfo);
    }
  }

  /** A read gets past the tests. */
  ghost predicate ReadTried(node: Vnode, fobj: FileObject, nbyte: nat)
    reads node, fobj, Target(node)
  {
    && IsOpen(node, fobj) && fobj.offset <= MAX32 && fobj.node == node
    && nbyte != NO_READ && 0 <= node.size - fobj.offset <= MAX32
  }

  /** Reads at the offset of the file object and moves it past what was read.  Once past the tests
      the copy stays in the buffer exactly when the offset is not negative. */
  method Read(node: Vnode, fobj: FileObject, nbyte: nat) returns (res: int, data: seq<byte>, inside: bool)
    requires NodeOk(node) && nbyte <= MAX32
    modifies fobj`offset
    ensures forall x: FileObject :: old(allocated(x)) && x != fobj ==> x.offset == old(x.offset) && x.node == old(x.node)
    ensures inside <==> (old(ReadTried(node, fobj, nbyte)) ==> 0 <= old(fobj.offset))
    ensures !inside ==> fobj.offset == old(fobj.offset)
    ensures inside ==>
              if old(ReadTried(node, fobj, nbyte)) then
                && 0 <= old(fobj.offset) <= |Bytes(node.devInfo)|
                && data == Slice(Bytes(node.devInfo), old(fobj.offset), nbyte)
                && fobj.offset == old(fobj.offset) + |data|
                && |data| <= nbyte && res == Signed32(|data|)
              else
                && data == [] && fobj.offset == old(fobj.offset)
                && res == if !IsOpen(node, fobj) || fobj.offset > MAX32 then -1
                          else if fobj.node != node then -3
                          else if nbyte == 0xDEAD_BEEF then -2
                          else -1
    ensures inside && old(ReadTried(node, fobj, nbyte)) ==>
              var off := old(fobj.offset);
              && |data| == (if nbyte <= node.size - off then nbyte else node.size - off)
              && (forall i :: 0 <= i < |data| ==> off + i < |Bytes(node.devInfo)| && data[i] == Bytes(node.devInfo)[off + i])
              && (|data| < 0x8000_0000 ==> res == |data|)
  {
    data, inside := [], true;
    NodeSizeBound(node);
    hide BlockAlign, Entry.HandlesOk;
    var e := node.devInfo;
    if e == null {
      return -1, [], true;
    }
    var h := e.SearchCtl(fobj);
    if h == null {
      return -1, [], true;
    }
    if e.size > MAX32 || fobj.offset > MAX32 {
      return -1, [], true;
    }
    if node != fobj.node {
      return -3, [], true;
    }
    if nbyte == NO_READ {
      return -2, [], true;
    }
    var remain := e.size - fobj.offset;
    if remain > MAX32 || remain < 0 {
      return -1, [], true;
    }
    var count := if nbyte >= remain then remain else nbyte;
    if fobj.offset < 0 {
      return 0, [], false;
    }
    data := Peek(e, fobj.offset, count);
    fobj.offset := fobj.offset + count;
    res := Signed32(count);
  }

  /** Copies `count` bytes out of the buffer. */
  method Peek(e: Entry, at: nat, count: nat) returns (data: seq<byte>)
    requires DataOk(e) && at + count <= e.size
    ensures at + count <= |Bytes(e)| && data == Bytes(e)[at..at + count]
  {
    BytesSize(e);
    data := if e.data == null then [] else e.data[at..at + count];
  }

  /** A positional read.  Once past the tests its copy stays in the buffer exactly when the offset is
      not negative. */
  method Pread(node: Vnode, fobj: FileObject, nbyte: nat, offset: int) returns (res: int, data: seq<byte>, inside: bool)
    requires NodeOk(node) && nbyte <= MAX32
    ensures inside <==> (IsOpen(node, fobj) && offset < node.size && fobj.node == node ==> 0 <= offset)
    ensures inside ==>
              if IsOpen(node, fobj) && offset <= node.size && fobj.node == node then
                && 0 <= offset <= |Bytes(node.devInfo)|
                && data == Slice(Bytes(node.devInfo), offset, nbyte)
                && |data| <= nbyte && res == Signed32(|data|)
              else
                data == [] && res == if IsOpen(node, fobj) && offset <= node.size then -3 else -1
    ensures inside && IsOpen(node, fobj) && offset <= node.size && fobj.node == node ==>
              && |data| == (if nbyte <= node.size - offset then nbyte else node.size - offset)
              && (forall i :: 0 <= i < |data| ==> 0 <= offset + i < |Bytes(node.devInfo)| && data[i] == Bytes(node.devInfo)[offset + i])
              && (|data| < 0x8000_0000 ==> res == |data|)
  {
    data, inside := [], true;
    NodeSizeBound(node);
    hide BlockAlign, Entry.HandlesOk;
    var e := node.devInfo;
    if e == null {
      return -1, [], true;
    }
    var h := e.SearchCtl(fobj);
    if h == null {
      return -1, [], true;
    }
    if node.size > MAX32 || offset > MAX32 {
      return -1, [], true;
    }
    if offset > node.size {
      return -1, [], true;
    }
    if node != fobj.node {
      return -3, [], true;
    }
    if offset >= node.size {
      return 0, [], true;
    }
    var remain := Low32(node.size - offset);
    var count := if nbyte >= remain then remain else nbyte;
    if offset < 0 {
      return 0, [], false;
    }
    Low32Same(node.size - offset);
    data := Peek(e, offset, count);
    res := Signed32(count);
  }

  /** Moves the offset within the file.  The sum is taken in 64 bits. */
  method Lseek(node: Vnode, fobj: FileObject, offset: int, whence: int) returns (res: int)
    requires 0 <= node.size <= LAST_FIT && 0 <= fobj.offset <= MAX32
    requires Int64(offset)
    modifies fobj`offset
    ensures forall x: FileObject :: old(allocated(x)) && x != fobj ==> x.offset == old(x.offset) && x.node == old(x.node)
    ensures (fobj.offset, res) == DoSeek(node.size, old(fobj.offset), offset, whence)
    ensures var target := if whence == 0 then offset else if whence == 1 then old(fobj.offset) + offset else node.size + offset;
            if whence in {0, 1, 2} && 0 <= target <= node.size then fobj.offset == target && res == target
            else fobj.offset == old(fobj.offset) && res == 0x8001_0016 - 0x1_0000_0000
  {
    var target;
    if whence == SEEK_SET {
      target := offset;
    } else if whence == SEEK_CUR {
      target := Signed64(fobj.offset + offset);
    } else if whence == SEEK_END {
      target := Signed64(node.size + offset);
    } else {
      return INVALID;
    }
    if target > node.size || target < 0 {
      return INVALID;
    }
    fobj.offset := target;
    return target;
  }

  /** Opens a handle; in append mode the offset starts at the end of the file. */
  method OpenFile(node: Vnode, fobj: FileObject, append: bool, memOk: bool) returns (res: int)
    requires NodeOk(node)
    modifies fobj`offset, Target(node)`handles, Target(node)`refer, Target(node)`open
    ensures forall x: FileObject :: old(allocated(x)) && x != fobj ==> x.offset == old(x.offset) && x.node == old(x.node)
    ensures NodeOk(node)
    ensures res == if node.devInfo != null && memOk then 0 else -1
    ensures node.devInfo != null ==>
              node.devInfo.Keys() == (if memOk then [fobj] else []) + old(node.devInfo.Keys())
    ensures node.devInfo != null ==> forall h :: h in node.devInfo.open ==> fresh(h) || h in old(node.devInfo.open)
    ensures fobj.offset == if res == 0 && append then |old(Bytes(node.devInfo))| else old(fobj.offset)
  {
    NodeSizeBound(node);
    hide DataOk, Bytes;
    var e := node.devInfo;
    if e == null {
      return -1;
    }
    var h := e.CreateCtl(fobj, memOk);
    if h == null {
      return -1;
    }
    if append {
      fobj.offset := e.size;
    }
    return 0;
  }

  /** Closes the newest handle of the file object; the other handles stay. */
  method CloseFile(node: Vnode, fobj: FileObject) returns (res: int)
    requires NodeOk(node)
    modifies Target(node)`handles, Target(node)`refer, Target(node)`open
    modifies (if node.devInfo == null then {} else set h | h in node.devInfo.open)`next
    ensures forall x: FileObject :: old(allocated(x)) ==> x.offset == old(x.offset) && x.node == old(x.node)
    ensures NodeOk(node)
    ensures res == if old(IsOpen(node, fobj)) then 0 else -1
    ensures node.devInfo != null ==>
              node.devInfo.Keys() == Without(old(node.devInfo.Keys()), fobj)
    ensures node.devInfo != null ==> forall h :: h in node.devInfo.open ==> h in old(node.devInfo.open)
  {
    hide DataOk, Bytes;
    var e := node.devInfo;
    if e == null {
      return -1;
    }
    var h := e.SearchCtl(fobj);
    if h == null {
      WithoutAbsent(e.Keys(), fobj);
      return -1;
    }
    res := e.DeleteCtl(fobj);
    if res < 0 {
      return res;
    }
    return 0;
  }

  /** Sets the size.  `junk` is what a new buffer holds at first.  The buffer gets exactly the new
      size: the file is moved into it inside its bounds exactly when it is no longer than that, and
      there is room for whole blocks afterwards exactly when the new size is one of whole blocks. */
  method SetSize(node: Vnode, size: int, memOk: bool, junk: seq<byte>) returns (res: int, inside: bool)
    requires NodeOk(node) && (0 < size <= MAX32 ==> |junk| == size)
    modifies node`size, Target(node)`data, Target(node)`size
    ensures forall x: FileObject :: old(allocated(x)) ==> x.offset == old(x.offset) && x.node == old(x.node)
    ensures inside <==> (node.devInfo != null && 0 < size <= MAX32 && memOk ==> old(node.size) <= size)
    ensures !inside || res != 0 ==>
              node.devInfo != null ==>
                Bytes(node.devInfo) == old(Bytes(node.devInfo)) && node.size == old(node.size) && DataOk(node.devInfo)
    ensures inside ==> res == if node.devInfo == null || size < 0 || size > MAX32 then -1
                              else if size > 0 && !memOk then -2 else 0
    ensures inside && res == 0 ==>
              && node.size == node.devInfo.size == size
              && (size == 0 ==> Bytes(node.devInfo) == [])
              && (size > 0 ==> |old(Bytes(node.devInfo))| <= size &&
                               Bytes(node.devInfo) == old(Bytes(node.devInfo)) + junk[|old(Bytes(node.devInfo))|..])
              && (DataOk(node.devInfo) <==> size % BLOCK == 0)
    ensures node.devInfo != null ==> node.devInfo.data == old(node.devInfo.data) || node.devInfo.data == null || fresh(node.devInfo.data)
  {
    NodeSizeBound(node);
    hide Entry.HandlesOk;
    var e := node.devInfo;
    if e == null || size < 0 {
      return -1, true;
    }
    BlockAlignFacts(size);
    BytesSize(e);
    if size == 0 {
      e.data := null;
    } else {
      if size > MAX32 {
        return -1, true;
      }
      if !memOk {
        return -2, true;
      }
      if e.size > size {
        return 0, false;
      }
      e.data := Resized(e, size, junk);
    }
    e.size := size;
    node.size := size;
    return 0, true;
  }

  /** A new buffer of the given size with the file moved into it. */
  method Resized(e: Entry, size: nat, junk: seq<byte>) returns (temp: array<byte>)
    requires DataOk(e) && e.size <= size == |junk|
    ensures fresh(temp) && temp.Length == size && |Bytes(e)| == e.size
    ensures temp[..] == Bytes(e) + junk[e.size..]
  {
    BytesSize(e);
    temp := new byte[size](i requires 0 <= i < |junk| => junk[i]);
    assert temp[..] == junk;
    if e.data != null {
      Copy(temp, 0, e.data[..e.size]);
    }
    assert temp[..] == Bytes(e) + junk[e.size..];
  }

  // ---------- positional calls are seek and call

  /** Two handles, each the only way to its own file. */
  ghost predicate Twins(a: Vnode, fa: FileObject, b: Vnode, fb: FileObject)
    reads a, fa, b, fb, Target(a), Target(b)
    reads if a.devInfo == null then {} else set h | h in a.devInfo.open
    reads if b.devInfo == null then {} else set h | h in b.devInfo.open
    reads Buffer(a), Buffer(b)
  {
    && NodeOk(a) && NodeOk(b) && IsOpen(a, fa) && IsOpen(b, fb) && fa.node == a && fb.node == b
    && a != b && fa != fb && a.devInfo != b.devInfo && Buffer(a) !! Buffer(b)
    && Bytes(a.devInfo) == Bytes(b.devInfo) && 0 <= fb.offset <= b.size
  }

  /** A seek into the file and a write there. */
  method SeekWrite(node: Vnode, fobj: FileObject, src: seq<byte>, at: nat, memOk: bool) returns (res: int)
    requires NodeOk(node) && IsOpen(node, fobj) && fobj.node == node && 0 <= fobj.offset <= node.size
    requires at <= node.size && node.size + |src| <= LAST_FIT
    modifies node`size, fobj`offset, Target(node)`data, Target(node)`size, Buffer(node)
    ensures DataOk(node.devInfo) && node.size == node.devInfo.size && at <= |old(Bytes(node.devInfo))|
    ensures (Bytes(node.devInfo), res) == DoWrite(old(Bytes(node.devInfo)), at, src, memOk)
    ensures fobj.offset == at + if old(Grows(node.size, |src|)) && !memOk then 0 else |src|
    ensures forall x: FileObject :: old(allocated(x)) && x != fobj ==> x.offset == old(x.offset) && x.node == old(x.node)
  {
    NodeSizeBound(node);
    RoomBound(node.devInfo);
    FitsIff(node.size, RoomOf(node.devInfo), at, |src|);
    hide BlockAlign, Bytes, Entry.HandlesOk, Splice, Overlaid, Low32;
    ghost var c := Bytes(node.devInfo);
    res := Lseek(node, fobj, at, SEEK_SET);
    var inside;
    res, inside := Write(node, fobj, src, memOk);
    OverlaidIsSplice(c, Bytes(node.devInfo), at, src);
  }

  lemma RoomBound(e: Entry)
    requires DataOk(e)
    ensures BlockAlign(e.size) <= RoomOf(e) <= LAST_FIT && |Bytes(e)| == e.size
  {
    BytesSize(e);
  }

  lemma TwinFacts(a: Vnode, fa: FileObject, b: Vnode, fb: FileObject)
    requires Twins(a, fa, b, fb)
    ensures NodeOk(a) && NodeOk(b) && IsOpen(a, fa) && IsOpen(b, fb) && fa.node == a && fb.node == b
    ensures a.devInfo != null && b.devInfo != null && a.devInfo != b.devInfo && a != b && fa != fb && Buffer(a) !! Buffer(b)
    ensures Bytes(a.devInfo) == Bytes(b.devInfo) && a.size == b.size == |Bytes(b.devInfo)| && 0 <= fb.offset <= b.size
    ensures a.size == a.devInfo.size && b.size == b.devInfo.size && DataOk(a.devInfo) && DataOk(b.devInfo)
  {
    BytesSize(a.devInfo);
    BytesSize(b.devInfo);
  }

  /** Of two files with the same bytes, one is written at a position, the other sought and written:
      the results are the same, the bytes are the same again, and only the second offset has moved. */
  method PwriteIsSeekWrite(a: Vnode, fa: FileObject, b: Vnode, fb: FileObject, src: seq<byte>, at: nat, memOk: bool)
    returns (ra: int, rb: int)
    requires Twins(a, fa, b, fb) && at <= a.size && a.size + |src| <= LAST_FIT
    modifies a`size, Target(a)`data, Target(a)`size, Buffer(a)
    modifies b`size, fb`offset, Target(b)`data, Target(b)`size, Buffer(b)
    ensures ra == rb
    ensures Bytes(a.devInfo) == Bytes(b.devInfo) && a.size == b.size == |Bytes(b.devInfo)|
    ensures fa.offset == old(fa.offset)
    ensures fb.offset == at + if old(Grows(a.size, |src|)) && !memOk then 0 else |src|
  {
    hide BlockAlign, Bytes, Entry.HandlesOk, Splice, Low32, DataOk, NodeOk, IsOpen, Twins;
    TwinFacts(a, fa, b, fb);
    var inside;
    ra, inside := Pwrite(a, fa, src, at, memOk);
    rb := SeekWrite(b, fb, src, at, memOk);
    BytesSize(a.devInfo);
    BytesSize(b.devInfo);
  }

  /** The same for reading: the same bytes are returned, and neither file has changed. */
  method PreadIsSeekRead(a: Vnode, fa: FileObject, b: Vnode, fb: FileObject, nbyte: nat, at: nat)
    returns (ra: int, da: seq<byte>, rb: int, db: seq<byte>)
    requires Twins(a, fa, b, fb) && at <= a.size && nbyte <= MAX32 && nbyte != NO_READ
    modifies fb`offset
    ensures ra == rb && da == db && fb.offset == at + |db|
  {
    hide BlockAlign, Bytes, Entry.HandlesOk, Slice;
    NodeSizeBound(a);
    NodeSizeBound(b);
    var i;
    ra, da, i := Pread(a, fa, nbyte, at);
    rb := Lseek(b, fb, at, SEEK_SET);
    rb, db, i := Read(b, fb, nbyte);
  }

  // ---------- the input that leaves the buffer

  /** A file of one byte, read and written at position -1: both copies leave the buffer. */
  method NegativeOffsetStrays() returns (wrote: bool, read: bool)
    ensures !wrote && !read
  {
    hide Entry.HandlesOk, BlockAlign, Bytes, Low32;
    var e := new Entry("f", false);
    EmptyOk(e);
    var node := new Vnode(e, 0);
    var fobj := new FileObject(node);
    var res := OpenFile(node, fobj, false, true);
    FitsIff(0, 0, 0, 1);
    var r, inside := Write(node, fobj, [7], true);
    assert IsOpen(node, fobj);
    var d;
    r, d, read := Pread(node, fobj, 1, -1);
    r, wrote := Pwrite(node, fobj, [7], -1, true);
  }

  lemma EmptyOk(e: Entry)
    requires e.size == 0 && e.data == null
    ensures DataOk(e) && Bytes(e) == []
  {
    BlockAlignFacts(0);
  }
}
