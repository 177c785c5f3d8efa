/** The doubly linked list of file items: objects are put in at the front when they are created
    and taken out by their own links when they are deleted. */
module ItemList {
  import opened Lists

  type Node = nat

  /** No node. */
  const NO_NODE: Node := 0

  class Item {
    var next: Item?
    var prev: Item?
    var node: Node

    constructor ()
      ensures next == null && prev == null && node == NO_NODE
    {
      next, prev, node := null, null, NO_NODE;
    }
  }

  // ---------- the history of a list

  datatype Event<T> = Created(item: T) | Deleted(item: T)

  /** The items that are alive after a history, newest first; the last event comes first. */
  ghost function Live<T>(history: seq<Event<T>>): seq<T> {
    if history == [] then []
    else
      var before := Live(history[1..]);
      if history[0].Created? then [history[0].item] + before else Without(before, history[0].item)
  }

  /** Only what is not alive is created, and only what is alive is deleted. */
  ghost predicate Proper<T>(history: seq<Event<T>>) {
    history != [] ==>
      && Proper(history[1..])
      && (history[0].Created? <==> history[0].item !in Live(history[1..]))
  }

  /** How long ago the last event about an item was; the length of the history if there is none. */
  ghost function Age<T>(history: seq<Event<T>>, x: T): (n: nat)
    ensures n <= |history|
    ensures n < |history| ==> history[n].item == x
    ensures forall i :: 0 <= i < n ==> history[i].item != x
  {
    if history == [] || history[0].item == x then 0 else 1 + Age(history[1..], x)
  }

  ghost predicate NewestFirst<T>(history: seq<Event<T>>, s: seq<T>) {
    forall i, j :: 0 <= i < j < |s| ==> Age(history, s[i]) < Age(history, s[j])
  }

  lemma OrderWithout<T>(history: seq<Event<T>>, s: seq<T>, x: T)
    requires NewestFirst(history, s) && x in s
    ensures NewestFirst(history, Without(s, x)) && Distinct(s)
    ensures forall y :: y in Without(s, x) ==> y in s && y != x
    ensures forall y :: y in s && y != x ==> y in Without(s, x)
  {
    hide Age;
    WithoutDistinct(s, x);
    var k := WithoutOrder(s, x);
    var w := Without(s, x);
    forall i, j | 0 <= i < j < |w| ensures Age(history, w[i]) < Age(history, w[j]) {
      assert Skip(k, i) < Skip(k, j) && w[i] == s[Skip(k, i)] && w[j] == s[Skip(k, j)];
    }
  }

  /** The live items stand in the order of their creation, the newest first, so each stands once. */
  lemma {:induction false} LiveIsNewestFirst<T>(history: seq<Event<T>>)
    requires Proper(history)
    ensures NewestFirst(history, Live(history)) && Distinct(Live(history))
  {
    if history != [] {
      var older, x := history[1..], history[0].item;
      hide Without;
      LiveIsNewestFirst(older);
      if history[0].Deleted? {
        OrderWithout(older, Live(older), x);
      }
      assert forall y :: y in Live(older) && y != x ==> Age(history, y) == 1 + Age(older, y);
    }
  }

  /** An item is alive exactly when the last event about it is its creation. */
  lemma {:induction false} LiveIff<T>(history: seq<Event<T>>, x: T)
    requires Proper(history)
    ensures x in Live(history) <==> Age(history, x) < |history| && history[Age(history, x)].Created?
  {
    if history != [] {
      var older := history[1..];
      LiveIff(older, x);
      if history[0].Deleted? {
        LiveIsNewestFirst(older);
        OrderWithout(older, Live(older), history[0].item);
      }
      if history[0].item != x {
        var n := Age(older, x);
        assert n < |older| ==> older[n] == history[n + 1];
      }
    }
  }

  // ---------- the list itself

  /** The neighbours of an item in a list. */
  function After(s: seq<Item>, i: nat): Item?
    requires i < |s|
  {
    if i + 1 < |s| then s[i + 1] else null
  }

  function Before(s: seq<Item>, i: nat): Item?
    requires i < |s|
  {
    if i > 0 then s[i - 1] else null
  }

  function First(s: seq<Item>): Item? { if s == [] then null else s[0] }

  ghost predicate Linked(s: seq<Item>)
    reads s`next, s`prev
  {
    forall i :: 0 <= i < |s| ==> s[i].next == After(s, i) && s[i].prev == Before(s, i)
  }

  /** With an item put in front. */
  lemma LinkedInFront(s: seq<Item>, x: Item)
    requires Distinct(s) && x !in s
    requires forall i :: 1 <= i < |s| ==> s[i].next == After(s, i) && s[i].prev == Before(s, i)
    requires s != [] ==> s[0].next == After(s, 0) && s[0].prev == x
    requires x.next == First(s) && x.prev == null
    ensures Distinct([x] + s) && Linked([x] + s)
  {
    var t := [x] + s;
    forall i | 0 <= i < |t| ensures t[i].next == After(t, i) && t[i].prev == Before(t, i) {
      if i > 0 {
        assert t[i] == s[i - 1];
      }
    }
  }

  lemma Neighbours(s: seq<Item>, k: nat)
    requires Distinct(s) && k < |s|
    ensures forall i :: 0 <= i < |s| && i != k - 1 ==> s[i] != Before(s, k)
    ensures forall i :: 0 <= i < |s| && i != k + 1 ==> s[i] != After(s, k)
  {
  }

  /** With the item at `k` passed over. */
  lemma LinkedAround(s: seq<Item>, k: nat)
    requires Distinct(s) && k < |s|
    requires forall i :: 0 <= i < |s| && i != k && i != k - 1 ==> s[i].next == After(s, i)
    requires forall i :: 0 <= i < |s| && i != k && i != k + 1 ==> s[i].prev == Before(s, i)
    requires k > 0 ==> s[k - 1].next == After(s, k)
    requires k + 1 < |s| ==> s[k + 1].prev == Before(s, k)
    ensures Distinct(s[..k] + s[k + 1..]) && Linked(s[..k] + s[k + 1..])
  {
    var t := s[..k] + s[k + 1..];
    forall i | 0 <= i < |t| ensures t[i].next == After(t, i) && t[i].prev == Before(t, i) {
      assert t[i] == if i < k then s[i] else s[i + 1];
    }
  }

  lemma FirstAt(s: seq<Item>, k: nat)
    requires Distinct(s) && k < |s|
    ensures s[k] !in s[..k]
  {
  }

  class ItemList {
    var lastObj: Item?
    ghost var items: seq<Item>
    ghost var history: seq<Event<Item>>

    /** The list from `lastObj` is the items alive after the history, each once, and each link back
        undoes a link forward. */
    ghost predicate Valid()
      reads this, items
    {
      Proper(history) && items == Live(history) && Distinct(items) && lastObj == First(items) && Linked(items)
    }

    constructor ()
      ensures Valid() && history == []
    {
      lastObj, items, history := null, [], [];
    }

    ghost function CreationOf(item: Item): Event<Item> { Created(item) }

    /** A new object, cleared and put in front. */
    method InitPatch(obj: Item)
      requires Valid() && obj !in items
      modifies this, obj, items
      ensures Valid() && history == [Created(obj)] + old(history)
      ensures obj.node == 0
      ensures forall x :: x in old(items) ==> x.node == old(x.node)
    {
      ghost var was := items;
      obj.next, obj.prev, obj.node := null, null, NO_NODE;
      if lastObj != null {
        lastObj.prev := obj;
      }
      obj.next := lastObj;
      lastObj := obj;
      LinkedInFront(was, obj);
      items := [obj] + items;
      history := [Created(obj)] + history;
    }

    /** The two links that lead to an object are led past it; its own links are left as they are. */
    method PassOver(obj: Item, ghost k: nat)
      requires Distinct(items) && Linked(items) && lastObj == First(items)
      requires k < |items| && items[k] == obj
      modifies this`lastObj, items
      ensures Distinct(items[..k] + items[k + 1..]) && Linked(items[..k] + items[k + 1..])
      ensures lastObj == First(items[..k] + items[k + 1..])
      ensures forall x :: x in items ==> x.node == old(x.node)
    {
      hide Distinct;
      assert obj.prev == Before(items, k) && obj.next == After(items, k);
      Neighbours(items, k);
      if obj.prev == null {
        lastObj := obj.next;
      } else {
        obj.prev.next := obj.next;
      }
      if obj.next != null {
        obj.next.prev := obj.prev;
      }
      LinkedAround(items, k);
    }

    /** Takes a deleted object out of the list. */
    method FreePatch(obj: Item)
      requires Valid() && obj in items
      modifies this, items
      ensures Valid() && history == [Deleted(obj)] + old(history)
      ensures forall x :: x in old(items) ==> x.node == old(x.node)
    {
      hide Distinct, Linked, First, Without;
      ghost var k: nat :| k < |items| && items[k] == obj;
      FirstAt(items, k);
      WithoutAt(items, obj, k);
      PassOver(obj, k);
      items := items[..k] + items[k + 1..];
      history := [Deleted(obj)] + history;
    }

    /** Puts a new object in front and gives it its node. */
    method PutInFront(item: Item, node: Node)
      requires Valid() && item !in items
      modifies this, item, items
      ensures Valid() && history == [CreationOf(item)] + old(history) && item.node == node
      ensures forall x :: x in old(items) ==> x.node == old(x.node)
    {
      InitPatch(item);
      hide Live, Proper, Linked, Distinct;
      item.node := node;
    }

    /** The node is set after the object has been put in, for the caller to find it by. */
    method CreateFileItem(node: Node, res: int) returns (r: int, item: Item?)
      requires Valid()
      modifies this, items
      ensures Valid()
      ensures res < 0 ==> r == res && item == null && history == old(history)
      ensures res >= 0 ==> r == 0 && item != null && fresh(item) && item.node == node
      ensures res >= 0 ==> history == [CreationOf(item)] + old(history)
      ensures forall x :: x in old(items) ==> x.node == old(x.node)
    {
      if res < 0 {
        return res, null;
      }
      hide Live, Proper, Linked, Distinct;
      item := new Item();
      PutInFront(item, node);
      r := 0;
    }

    /** The newest live object with the node, if there is one. */
    method GetFileEntryByNode(node: Node) returns (r: Item?)
      requires Valid()
      ensures r == null <==> forall x :: x in items ==> x.node != node
      ensures r != null ==> exists k ::
        0 <= k < |items| && items[k] == r && r.node == node && (forall i :: 0 <= i < k ==> items[i].node != node)
    {
      r := lastObj;
      ghost var k := 0;
      while r != null
        invariant 0 <= k <= |items|
        invariant r == if k < |items| then items[k] else null
        invariant forall i :: 0 <= i < k ==> items[i].node != node
        decreases |items| - k
      {
        if r.node == node {
          return;
        }
        r := r.next;
        k := k + 1;
      }
    }
  }
}
