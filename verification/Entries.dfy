/** The objects of the in-memory volume: file entries with their open-handle records, and the
    vnodes and file objects through which the virtual file system refers to them. */
module Entries {
  import opened Words
  import opened Lists

  /** A vnode of the virtual file system: the entry behind it and the size it shows. */
  class Vnode {
    var devInfo: Entry?
    var size: int

    constructor (devInfo: Entry?, size: int)
      ensures this.devInfo == devInfo && this.size == size
    {
      this.devInfo, this.size := devInfo, size;
    }
  }

  /** An open file object.  Its address is the key of its handle record. */
  class FileObject {
    var offset: int
    var node: Vnode?

    constructor (node: Vnode?)
      ensures offset == 0 && this.node == node
    {
      this.offset, this.node := 0, node;
    }
  }

  class Handle {
    var next: Handle?
    const key: FileObject
    var current: Entry?
    ghost const owner: Entry

    constructor (next: Handle?, key: FileObject, owner: Entry)
      ensures this.next == next && this.key == key && this.current == null && this.owner == owner
    {
      this.next, this.current := next, null;
      this.key, this.owner := key, owner;
    }
  }

  /** Where a pointer to a handle record is stored: in the entry, or in the record before. */
  datatype HandleSlot = Top | After(prev: Handle)

  function HandleIn(s: seq<Handle>, i: int): (h: Handle?)
    ensures 0 <= i < |s| ==> h == s[i]
    ensures !(0 <= i < |s|) ==> h == null
  {
    if 0 <= i < |s| then s[i] else null
  }

  /** The first position of a key in a list of keys; the length if it does not occur. */
  ghost function KeyIndex(keys: seq<FileObject>, key: FileObject): (k: nat)
    ensures k <= |keys| && (forall i :: 0 <= i < k ==> keys[i] != key)
    ensures k < |keys| ==> keys[k] == key
  {
    if keys == [] || keys[0] == key then 0 else 1 + KeyIndex(keys[1..], key)
  }

  lemma {:induction false} KeyIndexIs(keys: seq<FileObject>, key: FileObject, k: nat)
    requires k <= |keys| && (forall i :: 0 <= i < k ==> keys[i] != key)
    requires k < |keys| ==> keys[k] == key
    ensures KeyIndex(keys, key) == k
  {
    if k > 0 {
      KeyIndexIs(keys[1..], key, k - 1);
    }
  }

  ghost function KeysOf(s: seq<Handle>): (ks: seq<FileObject>)
    ensures |ks| == |s| && forall i :: 0 <= i < |s| ==> ks[i] == s[i].key
  {
    seq(|s|, i requires 0 <= i < |s| => s[i].key)
  }

  /** The list of handle records that starts at `head`. */
  ghost predicate HandleChain(head: Handle?, s: seq<Handle>)
    reads s`next
  {
    && head == HandleIn(s, 0)
    && (forall i {:trigger s[i].next} :: 0 <= i < |s| ==> s[i].next == HandleIn(s, i + 1))
  }

  lemma WithoutKeeps(s: seq<Handle>, k: nat)
    requires k < |s| && Distinct(s)
    ensures Without(s, s[k]) == s[..k] + s[k + 1..] && Distinct(Without(s, s[k]))
    ensures forall h :: h in Without(s, s[k]) ==> h in s && h != s[k]
    ensures forall h :: h in s && h != s[k] ==> h in Without(s, s[k])
  {
    assert s[k] !in s[..k];
    WithoutAt(s, s[k], k);
    WithoutDistinct(s, s[k]);
  }

  /** Taking out the newest record with a key takes the newest occurrence of the key out of the
      list of keys. */
  lemma KeysWithout(s: seq<Handle>, key: FileObject)
    requires Distinct(s)
    ensures var k := KeyIndex(KeysOf(s), key);
            if k < |s| then KeysOf(Without(s, s[k])) == Without(KeysOf(s), key) else Without(KeysOf(s), key) == KeysOf(s)
  {
    var keys := KeysOf(s);
    var k := KeyIndex(keys, key);
    if k < |s| {
      WithoutKeeps(s, k);
      WithoutAt(keys, key, k);
      assert KeysOf(s[..k] + s[k + 1..]) == keys[..k] + keys[k + 1..];
    } else {
      WithoutAbsent(keys, key);
    }
  }

  lemma OneLess(s: seq<Handle>, h: Handle)
    requires h in s && Distinct(s)
    ensures |Without(s, h)| == |s| - 1
  {
    var k :| 0 <= k < |s| && s[k] == h;
    WithoutKeeps(s, k);
  }

  lemma CountDown(n: nat)
    requires n > 0
    ensures (n % WORD - 1) % WORD == (n - 1) % WORD
  {
  }

  class Entry {
    var next: Entry?
    var nextDir: Entry?
    var name: string
    var isDir: bool
    var size: int
    var data: array?<byte>
    var refer: int
    var handles: Handle?
    ghost var open: seq<Handle>

    constructor (name: string, isDir: bool)
      ensures next == null && nextDir == null && this.name == name && this.isDir == isDir
      ensures size == 0 && data == null
      ensures refer == 0 && handles == null && open == [] && HandlesOk()
    {
      next, nextDir, this.name, this.isDir := null, null, name, isDir;
      size, data, refer, handles := 0, null, 0, null;
      open := [];
    }

    /** The handle records form the list `open`, all of them this entry's own, and `refer` counts
        them in 32 bits. */
    ghost predicate HandlesOk()
      reads this`handles, this`refer, this`open, open`next
    {
      && HandleChain(handles, open)
      && Distinct(open)
      && (forall h :: h in open ==> h.owner == this)
      && refer == |open| % WORD
    }

    /** The newest record with a key. */
    ghost function Record(key: FileObject): Handle?
      reads this`open
    {
      HandleIn(open, KeyIndex(Keys(), key))
    }

    /** The keys of the open handles, newest first. */
    ghost function Keys(): seq<FileObject>
      reads this`open
    {
      KeysOf(open)
    }

    method CreateCtl(key: FileObject, memOk: bool) returns (h: Handle?)
      requires HandlesOk()
      modifies this`handles, this`refer, this`open
      ensures HandlesOk()
      ensures h != null <==> memOk
      ensures h == null ==> open == old(open)
      ensures h != null ==> fresh(h) && open == [h] + old(open) && h.key == key && h.current == null
      ensures Keys() == if memOk then [key] + old(Keys()) else old(Keys())
    {
      if !memOk {
        return null;
      }
      h := new Handle(handles, key, this);
      handles := h;
      refer := (refer + 1) % WORD;
      open := [h] + open;
      assert forall i :: 0 < i < |open| ==> open[i] == old(open)[i - 1];
    }

    method SearchCtl(key: FileObject) returns (h: Handle?)
      requires HandlesOk()
      ensures h == Record(key)
      ensures h != null <==> key in Keys()
    {
      h := handles;
      ghost var k := 0;
      while h != null
        invariant 0 <= k <= |open| && h == HandleIn(open, k)
        invariant forall i :: 0 <= i < k ==> Keys()[i] != key
        decreases |open| - k
      {
        if h.key == key {
          KeyIndexIs(Keys(), key, k);
          assert Keys()[k] == key;
          return;
        }
        h := h.next;
        k := k + 1;
      }
      KeyIndexIs(Keys(), key, k);
    }

    /** Walks the list with a pointer to the place where the current record is stored. */
    method FindSlot(key: FileObject) returns (slot: HandleSlot, cur: Handle?, ghost k: nat)
      requires HandlesOk()
      ensures k == KeyIndex(Keys(), key) && cur == HandleIn(open, k)
      ensures slot == if k == 0 then Top else After(open[k - 1])
    {
      slot, cur, k := Top, handles, 0;
      while cur != null && cur.key != key
        invariant 0 <= k <= |open| && cur == HandleIn(open, k)
        invariant slot == if k == 0 then Top else After(open[k - 1])
        invariant forall i :: 0 <= i < k ==> open[i].key != key
        decreases |open| - k
      {
        slot := After(cur);
        cur := cur.next;
        k := k + 1;
      }
      KeyIndexIs(Keys(), key, k);
    }

    /** Takes the record that `slot` points to out of the list. */
    method CutRecord(slot: HandleSlot, cur: Handle, ghost k: nat)
      requires HandlesOk() && k < |open| && cur == open[k]
      requires slot == if k == 0 then Top else After(open[k - 1])
      modifies this`handles, open`next
      ensures HandleChain(handles, Without<Handle>(open, cur))
    {
      ghost var now := Without<Handle>(open, cur);
      WithoutKeeps(open, k);
      match slot {
        case Top => handles := cur.next;
        case After(prev) => prev.next := cur.next;
      }
      hide Without;
      forall i | 0 <= i < |now| ensures now[i].next == HandleIn(now, i + 1) {
        assert now[i] == open[if i < k then i else i + 1];
      }
    }

    /** Unlinks and frees the newest record with the key. */
    method DeleteCtl(key: FileObject) returns (res: int)
      requires HandlesOk()
      modifies this`handles, this`refer, this`open, open`next
      ensures HandlesOk()
      ensures res == if key in old(Keys()) then 0 else -2
      ensures open == if old(Record(key)) == null then old(open) else Without<Handle>(old(open), old(Record(key)))
      ensures Keys() == Without(old(Keys()), key)
      ensures forall h :: h in open ==> h in old(open)
    {
      hide Without, KeyIndex, KeysOf, HandleChain, Distinct;
      var slot, cur, k := FindSlot(key);
      KeysWithout(open, key);
      if cur == null {
        return -2;
      }
      WithoutKeeps(open, k);
      OneLess(open, cur);
      CountDown(|open|);
      CutRecord(slot, cur, k);
      refer := (refer - 1) % WORD;
      open := Without<Handle>(open, cur);
      return 0;
    }
  }
}
