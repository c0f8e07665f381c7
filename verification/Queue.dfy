/** The intrusive singly linked queue of object/queue.h.  An element carries one link; `tail` designates
    the last link field, which is that of the last element or, in an empty queue, `head` itself. */
module IntrusiveQueue {
  import opened Common

  /** An object with a link; `id` stands for its address. */
  class Element {
    const id: nat
    var next: Element?

    constructor (id: nat)
      ensures this.id == id && next == null
    {
      this.id, next := id, null;
    }
  }


  class Queue {
    var head: Element?
    /** The element whose link `tail` points at; null when it points at `head`. */
    var tail: Element?
    ghost var items: seq<Element>

    ghost predicate Valid()
      reads this, items
    {
      && Distinct(items)
      && (items == [] ==> head == null && tail == null)
      && (items != [] ==>
            && head == items[0]
            && tail == items[|items| - 1]
            && items[|items| - 1].next == null
            && (forall i {:trigger items[i].next} :: 0 <= i < |items| - 1 ==> items[i].next == items[i + 1]))
    }

    constructor ()
      ensures Valid() && items == []
    {
      head, tail, items := null, null, [];
    }

    method Enqueue(item: Element)
      requires Valid() && item !in items
      modifies this, item, items
      ensures Valid() && items == old(items) + [item]
      ensures forall e :: e in old(items) && e != old(tail) ==> unchanged(e)
    {
      item.next := null;
      if tail == null { head := item; } else { tail.next := item; }
      tail := item;
      items := items + [item];
    }

    method Dequeue() returns (out: Element?)
      requires Valid()
      modifies this, items
      ensures Valid()
      ensures out == null <==> old(items) == []
      ensures out == null ==> items == []
      ensures out != null ==> out == old(items)[0] && items == old(items)[1..] && out.next == null
      ensures forall e :: e in old(items) && e != out ==> unchanged(e)
    {
      out := head;
      if out != null {
        head := out.next;
        if head == null { tail := null; }
        out.next := null;
        items := items[1..];
      }
    }

    /** Deletion by identity.  The link of the removed element is left as it was. */
    method Remove(item: Element) returns (removed: Element?, ghost k: int)
      requires Valid()
      modifies this, items
      ensures Valid()
      ensures removed == null <==> item !in old(items)
      ensures removed == null ==> items == old(items)
      ensures removed != null ==> removed == item && 0 <= k < |old(items)| && old(items)[k] == item
      ensures removed != null ==> items == Drop(old(items), k)
      ensures item.next == old(item.next)
      ensures forall e :: e in old(items) && !(removed != null && k > 0 && e == old(items)[k - 1]) ==> unchanged(e)
    {
      var prev: Element? := null;
      var current := head;
      k := 0;
      while current != null
        invariant 0 <= k <= |items|
        invariant current == if k < |items| then items[k] else null
        invariant prev == if k > 0 then items[k - 1] else null
        invariant item !in items[..k]
        decreases |items| - k
      {
        if current == item {
          if prev == null { head := current.next; } else { prev.next := current.next; }
          if current == tail { tail := prev; }
          items := Drop(items, k);
          return current, k;
        }
        prev := current;
        current := current.next;
        k := k + 1;
      }
      removed := null;
    }

    method InsertFirst(item: Element)
      requires Valid() && item !in items
      modifies this, item
      ensures Valid() && items == [item] + old(items)
    {
      item.next := head;
      head := item;
      if tail == null { tail := item; }
      items := [item] + items;
    }

    method InsertAfter(oldItem: Element, newItem: Element, ghost k: int)
      requires Valid() && newItem !in items && 0 <= k < |items| && items[k] == oldItem
      modifies this, newItem, oldItem
      ensures Valid() && items == old(items)[..k + 1] + [newItem] + old(items)[k + 1..]
    {
      ghost var s := items;
      assert tail == oldItem <==> k == |s| - 1;
      newItem.next := oldItem.next;
      oldItem.next := newItem;
      var designated := if tail == null then head else tail.next;
      if designated == newItem { tail := newItem; }
      items := items[..k + 1] + [newItem] + items[k + 1..];
      assert forall i :: 0 <= i < |items| ==> items[i] == if i <= k then s[i] else if i == k + 1 then newItem else s[i - 1];
      assert Distinct(items);
    }

    method First() returns (first: Element?)
      requires Valid()
      ensures first == if items == [] then null else items[0]
    {
      first := head;
    }

    /** Walking the queue while removing each element from it (Thread::mutex_release_all with
        Mutex::unlock, which removes the mutex it is called on): the walk goes on through the link of
        an element no longer in the queue, and still visits every element once, in order. */
    method RemoveWhileIterating() returns (visited: seq<Element>)
      requires Valid()
      modifies this, items
      ensures Valid() && items == [] && visited == old(items)
    {
      visited := [];
      var current := head;
      while current != null
        invariant |visited| <= |old(items)|
        invariant Valid() && items == old(items)[|visited|..]
        invariant visited == old(items)[..|visited|]
        invariant current == head
        decreases |items|
      {
        TakeFirst(current);
        visited := visited + [current];
        current := current.next;
      }
    }

    /** One round: the first element leaves the queue, and its link still leads to the new first. */
    method TakeFirst(current: Element)
      requires Valid() && head == current
      modifies this, items
      ensures Valid() && items == old(items)[1..] && current == old(items)[0]
      ensures current.next == head
    {
      assert current == items[0];
      var removed, k := Remove(current);
      assert k == 0;
    }
  }

  /** One link serves several queues, as `Thread::queue_link` serves the ready list and every waiting
      room.  Moving an element between two disjoint queues keeps both sound and disjoint. */
  method Transfer(from: Queue, to: Queue) returns (moved: Element?)
    requires from != to && from.Valid() && to.Valid() && Disjoint(from.items, to.items)
    modifies from, to, from.items, to.items
    ensures from.Valid() && to.Valid() && Disjoint(from.items, to.items)
    ensures moved == null <==> old(from.items) == []
    ensures moved == null ==> from.items == old(from.items) && to.items == old(to.items)
    ensures moved != null ==> from.items == old(from.items)[1..] && to.items == old(to.items) + [moved]
    ensures moved != null ==> moved == old(from.items)[0]
  {
    moved := from.Dequeue();
    if moved != null { to.Enqueue(moved); }
  }

  ghost predicate Disjoint<T>(s: seq<T>, t: seq<T>) {
    forall i, j :: 0 <= i < |s| && 0 <= j < |t| ==> s[i] != t[j]
  }

  /** Why an element must be in one queue at a time: enqueueing an element of `from` into `to` as well
      leaves `from` sound exactly if the element was its last, for only then is its link null anyway. */
  method EnqueueTwice(from: Queue, to: Queue, item: Element, ghost k: nat)
    requires from != to && from.Valid() && to.Valid() && Disjoint(from.items, to.items)
    requires k < |from.items| && from.items[k] == item
    modifies to, item, to.items
    ensures to.Valid() && to.items == old(to.items) + [item]
    ensures from.items == old(from.items)
    ensures from.Valid() <==> k == |from.items| - 1
  {
    assert item !in to.items;
    to.Enqueue(item);
    assert k < |from.items| - 1 ==> from.items[k].next != from.items[k + 1];
  }
}
