/** Several queues over elements with one link each, as the ready list and all waiting rooms link threads
    through `Thread::queue_link`, and the lists of held mutexes link mutexes through `Mutex::queue_link`.
    An operation on one queue leaves the others alone because no element is in two of them. */
module QueueLists {
  import opened Common
  import opened IntrusiveQueue

  /** Every queue is empty. */
  function NoneIn(keys: set<int>): map<int, seq<nat>> {
    map k | k in keys :: []
  }

  /** No element is in two of the queues. */
  ghost predicate Apart(content: map<int, seq<nat>>) {
    forall k, l, t :: k in content && l in content && k != l && t in content[k] ==> t !in content[l]
  }

  ghost predicate Nowhere(content: map<int, seq<nat>>, t: nat) {
    forall k :: k in content ==> t !in content[k]
  }

  /** The elements `items` are those of the addresses `s`, in order. */
  ghost predicate Named(items: seq<Element>, s: seq<nat>, element: map<nat, Element>) {
    && |items| == |s|
    && (forall i :: 0 <= i < |s| ==> s[i] in element && items[i] == element[s[i]])
  }

  lemma NamedDrop(items: seq<Element>, s: seq<nat>, element: map<nat, Element>, k: int)
    requires Named(items, s, element) && 0 <= k < |s|
    ensures Named(Drop(items, k), Drop(s, k), element)
  {
    assert forall i :: 0 <= i < |s| - 1 ==>
      Drop(items, k)[i] == items[if i < k then i else i + 1] && Drop(s, k)[i] == s[if i < k then i else i + 1];
  }

  method EnqueueBeside(q: Queue, item: Element, ghost others: set<Queue>)
    requires q.Valid() && item !in q.items && (forall o :: o in others ==> item !in o.items)
    requires forall o :: o in others ==> o != q && o.Valid()
    requires forall o, e :: o in others && e in o.items ==> e !in q.items
    modifies q, item, q.items
    ensures q.Valid() && q.items == old(q.items) + [item]
    ensures forall o :: o in others ==> o.Valid() && o.items == old(o.items)
  {
    q.Enqueue(item);
    forall o | o in others ensures o.Valid() && o.items == old(o.items) {
      assert old(o.Valid()) && o != q;
      assert forall e :: e in o.items ==> e !in old(q.items);
      assert forall i :: 0 <= i < |o.items| ==> o.items[i] in o.items;
    }
  }

  method DequeueBeside(q: Queue, ghost others: set<Queue>) returns (out: Element?)
    requires q.Valid()
    requires forall o :: o in others ==> o != q && o.Valid()
    requires forall o, e :: o in others && e in o.items ==> e !in q.items
    modifies q, q.items
    ensures q.Valid() && q.items == if old(q.items) == [] then [] else Drop(old(q.items), 0)
    ensures out == if old(q.items) == [] then null else old(q.items)[0]
    ensures forall o :: o in others ==> o.Valid() && o.items == old(o.items)
  {
    out := q.Dequeue();
    forall o | o in others ensures o.Valid() && o.items == old(o.items) {
      assert old(o.Valid()) && o != q;
      assert forall e :: e in o.items ==> e !in old(q.items);
      assert forall i :: 0 <= i < |o.items| ==> o.items[i] in o.items;
    }
  }

  method RemoveBeside(q: Queue, item: Element, ghost others: set<Queue>) returns (removed: bool, ghost k: int)
    requires q.Valid()
    requires forall o :: o in others ==> o != q && o.Valid()
    requires forall o, e :: o in others && e in o.items ==> e !in q.items
    modifies q, q.items
    ensures q.Valid() && item.next == old(item.next)
    ensures removed ==> 0 <= k < |old(q.items)| && old(q.items)[k] == item && q.items == Drop(old(q.items), k)
    ensures !removed ==> item !in old(q.items) && q.items == old(q.items)
    ensures forall o :: o in others ==> o.Valid() && o.items == old(o.items)
  {
    var e;
    e, k := q.Remove(item);
    removed := e != null;
    forall o | o in others ensures o.Valid() && o.items == old(o.items) {
      assert old(o.Valid()) && o != q;
      assert forall e :: e in o.items ==> e !in old(q.items);
      assert forall i :: 0 <= i < |o.items| ==> o.items[i] in o.items;
    }
  }

  ghost predicate AllEmpty(queue: map<int, Queue>)
    reads queue.Values
  {
    && (forall k :: k in queue ==> queue[k].items == [] && queue[k].Valid())
    && (forall k, l :: k in queue && l in queue && k != l ==> queue[k] != queue[l])
  }

  method AddQueue(queue: map<int, Queue>, k: int) returns (more: map<int, Queue>)
    requires AllEmpty(queue) && k !in queue
    ensures AllEmpty(more) && more.Keys == queue.Keys + {k} && fresh(more.Values - queue.Values)
  {
    var q := new Queue();
    assert forall l :: l in queue ==> queue[l] in queue.Values;
    more := queue[k := q];
  }

  method EmptyQueues(keys: set<int>) returns (queue: map<int, Queue>)
    ensures queue.Keys == keys && fresh(queue.Values) && AllEmpty(queue)
    decreases |keys|
  {
    if keys == {} { return map[]; }
    assert (forall k :: k !in keys) ==> keys == {};
    var k :| k in keys;
    var rest := EmptyQueues(keys - {k});
    queue := AddQueue(rest, k);
  }

  class Lists {
    var queue: map<int, Queue>
    var element: map<nat, Element>
    /** All queues and elements. */
    ghost var repr: set<object>

    ghost predicate Shaped()
      reads this
    {
      && this !in repr
      && (forall t :: t in element ==> element[t] in repr && element[t].id == t)
      && (forall k :: k in queue ==> queue[k] in repr)
      && (forall k, l :: k in queue && l in queue && k != l ==> queue[k] != queue[l])
    }

    /** The elements of queue `k` are those of `s`, in that order. */
    ghost predicate Lines(k: int, s: seq<nat>)
      reads this, repr
      requires k in queue && queue[k] in repr
    {
      Named(queue[k].items, s, element) && (forall e :: e in queue[k].items ==> e in repr) && queue[k].Valid()
    }

    ghost predicate Holds(content: map<int, seq<nat>>)
      reads this, repr
    {
      && Shaped()
      && content.Keys == queue.Keys
      && (forall k :: k in queue ==> Lines(k, content[k]))
    }

    /** An empty queue for every key, and no elements yet. */
    constructor (keys: set<int>)
      ensures Holds(NoneIn(keys)) && element == map[] && fresh(repr)
    {
      var made := EmptyQueues(keys);
      queue, element, repr := made, map[], made.Values;
    }

    /** An object with a link comes into being. */
    method AddElement(t: nat, ghost content: map<int, seq<nat>>)
      requires Holds(content) && Nowhere(content, t)
      modifies this`element, this`repr
      ensures Holds(content) && element.Keys == old(element.Keys) + {t}
      ensures old(repr) <= repr && fresh(repr - old(repr))
    {
      var e := new Element(t);
      element := element[t := e];
      repr := repr + {e};
      forall k | k in queue ensures Lines(k, content[k]) {
        assert old(queue[k].Valid()) && old(Named(queue[k].items, content[k], element));
        assert queue[k].Valid();
      }
    }

    method AddElements(ts: set<nat>, ghost content: map<int, seq<nat>>)
      requires Holds(content) && forall t :: t in ts ==> Nowhere(content, t)
      modifies this`element, this`repr
      ensures Holds(content) && element.Keys == old(element.Keys) + ts
      ensures old(repr) <= repr && fresh(repr - old(repr))
      decreases |ts|
    {
      if ts == {} { return; }
      assert (forall t :: t !in ts) ==> ts == {};
      var t :| t in ts;
      AddElement(t, content);
      AddElements(ts - {t}, content);
    }

    /** A queue comes into being, or an empty one is made anew. */
    method AddQueue(k: int, ghost content: map<int, seq<nat>>)
      requires Holds(content) && (k in content ==> content[k] == [])
      modifies this`queue, this`repr
      ensures Holds(content[k := []]) && queue.Keys == old(queue.Keys) + {k}
      ensures old(repr) <= repr && fresh(repr - old(repr))
    {
      var q := new Queue();
      assert forall l :: l in queue ==> queue[l] in repr;
      PutQueue(k, q, content);
    }

    method PutQueue(k: int, q: Queue, ghost content: map<int, seq<nat>>)
      requires Holds(content) && q.items == [] && q.Valid() && q !in repr
      modifies this`queue, this`repr
      ensures Holds(content[k := []]) && queue.Keys == old(queue.Keys) + {k} && repr == old(repr) + {q}
    {
      queue := queue[k := q];
      repr := repr + {q};
      assert Shaped() && Lines(k, []);
      forall l | l in content && l != k ensures Lines(l, content[l]) {
        assert queue[l] == old(queue[l]) && old(queue[l].Valid()) && old(Named(queue[l].items, content[l], element));
        assert queue[l].Valid();
      }
    }

    lemma Members(k: int, s: seq<nat>)
      requires Shaped() && k in queue && queue[k] in repr && Lines(k, s)
      ensures forall e :: e in queue[k].items ==> e.id in s && e.id in element && element[e.id] == e
    {
      forall e | e in queue[k].items ensures e.id in s && e.id in element && element[e.id] == e {
        var i :| 0 <= i < |queue[k].items| && queue[k].items[i] == e;
        assert element[s[i]].id == s[i];
      }
    }

    lemma DistinctLine(k: int, s: seq<nat>)
      requires Shaped() && k in queue && queue[k] in repr && Lines(k, s)
      ensures Distinct(s)
      ensures forall t :: t in element ==> (t in s <==> element[t] in queue[k].items)
    {
      Members(k, s);
      forall i, j | 0 <= i < j < |s| ensures s[i] != s[j] {
        assert queue[k].items[i] != queue[k].items[j];
      }
      forall t | t in element && t in s ensures element[t] in queue[k].items {
        var i :| 0 <= i < |s| && s[i] == t;
        assert queue[k].items[i] == element[t];
      }
    }

    ghost function Others(k: int): set<Queue>
      reads this
    {
      set l | l in queue && l != k :: queue[l]
    }

    /** No other queue shares an object with queue `k`. */
    lemma StandsAlone(content: map<int, seq<nat>>, k: int)
      requires Holds(content) && Apart(content) && k in queue
      ensures forall o :: o in Others(k) ==> o != queue[k] && o.Valid()
      ensures forall o, e :: o in Others(k) && e in o.items ==> e !in queue[k].items
    {
      Members(k, content[k]);
      forall l, e | l in queue && l != k && e in queue[l].items
        ensures e !in queue[k].items
      {
        Members(l, content[l]);
      }
      assert forall l :: l in queue ==> Lines(l, content[l]);
    }

    lemma AbsentElement(content: map<int, seq<nat>>, t: nat)
      requires Holds(content) && t in element && Nowhere(content, t)
      ensures forall l :: l in queue ==> element[t] !in queue[l].items
    {
      forall l | l in queue ensures element[t] !in queue[l].items { Members(l, content[l]); }
    }

    method Enqueue(k: int, t: nat, ghost content: map<int, seq<nat>>)
      requires Holds(content) && Apart(content) && k in queue && t in element && Nowhere(content, t)
      modifies repr
      ensures Holds(content[k := content[k] + [t]])
    {
      StandsAlone(content, k);
      AbsentElement(content, t);
      ghost var others := Others(k);
      EnqueueBeside(queue[k], element[t], others);
      assert forall l :: l in queue && l != k ==> queue[l] in others;
    }

    method First(k: int, ghost content: map<int, seq<nat>>) returns (first: Option<nat>)
      requires Holds(content) && k in queue
      ensures first == if content[k] == [] then None else Some(content[k][0])
    {
      assert Lines(k, content[k]);
      var e := queue[k].First();
      first := if e == null then None else Some(e.id);
    }

    method Dequeue(k: int, ghost content: map<int, seq<nat>>) returns (out: Option<nat>)
      requires Holds(content) && Apart(content) && k in queue
      modifies repr
      ensures out.None? ==> content[k] == [] && Holds(content)
      ensures out.Some? ==> content[k] != [] && out.value == content[k][0] && Holds(content[k := Drop(content[k], 0)])
    {
      var e := DequeueElement(k, content, if content[k] == [] then [] else Drop(content[k], 0));
      out := if e == null then None else Some(e.id);
    }

    method DequeueElement(k: int, ghost content: map<int, seq<nat>>, ghost rest: seq<nat>) returns (e: Element?)
      requires Holds(content) && Apart(content) && k in queue
      requires rest == if content[k] == [] then [] else Drop(content[k], 0)
      modifies repr
      ensures Holds(content[k := rest])
      ensures if content[k] == [] then e == null else e != null && e.id == content[k][0]
    {
      StandsAlone(content, k);
      ghost var others := Others(k);
      e := DequeueBeside(queue[k], others);
      assert forall l :: l in queue && l != k ==> queue[l] in others;
      if content[k] != [] { NamedDrop(old(queue[k].items), content[k], element, 0); }
      assert Lines(k, rest);
    }

    /** The link of `t` leads to the first of `rest`. */
    ghost predicate Leads(t: nat, rest: seq<nat>)
      reads this, repr
    {
      && t in element && element[t] in repr
      && (if rest == [] then element[t].next == null
          else rest[0] in element && element[t].next == element[rest[0]] && element[rest[0]].id == rest[0])
    }

    /** The element behind `t`, as its link has it. */
    method Next(t: nat, ghost rest: seq<nat>) returns (next: Option<nat>)
      requires Leads(t, rest)
      ensures next == if rest == [] then None else Some(rest[0])
    {
      next := if element[t].next == null then None else Some(element[t].next.id);
    }

    /** Deletion; an address at which there is no element is in no queue.  The link of an element taken
        from the front goes on leading to what was behind it. */
    method Remove(k: int, t: nat, ghost content: map<int, seq<nat>>) returns (removed: bool)
      requires Holds(content) && Apart(content) && k in queue
      modifies repr
      ensures removed <==> t in content[k]
      ensures Holds(content[k := Delete(content[k], t)])
      ensures content[k] != [] && content[k][0] == t ==> Leads(t, content[k][1..])
    {
      DistinctLine(k, content[k]);
      removed := false;
      if t in element {
        ghost var i;
        LinkOfFirst(k, content[k]);
        removed, i := RemoveElement(k, t, content);
        if removed { PositionIs(content[k], i); }
      }
    }

    lemma LinkOfFirst(k: int, s: seq<nat>)
      requires Shaped() && k in queue && queue[k] in repr && Lines(k, s)
      ensures s != [] ==> Leads(s[0], s[1..])
    {
    }

    method RemoveElement(k: int, t: nat, ghost content: map<int, seq<nat>>) returns (removed: bool, ghost i: int)
      requires Holds(content) && Apart(content) && k in queue && t in element
      modifies repr
      ensures removed ==> 0 <= i < |content[k]| && content[k][i] == t && Holds(content[k := Drop(content[k], i)])
      ensures !removed ==> t !in content[k] && Holds(content)
      ensures element[t].next == old(element[t].next)
    {
      StandsAlone(content, k);
      DistinctLine(k, content[k]);
      ghost var others := Others(k);
      removed, i := RemoveBeside(queue[k], element[t], others);
      assert forall l :: l in queue && l != k ==> queue[l] in others;
      if removed {
        assert element[content[k][i]].id == content[k][i];
        NamedDrop(old(queue[k].items), content[k], element, i);
      }
    }
  }

  method NewLists(keys: set<int>, elements: set<nat>) returns (lists: Lists)
    ensures fresh(lists) && fresh(lists.repr) && lists.element.Keys == elements
    ensures lists.Holds(NoneIn(keys))
  {
    lists := new Lists(keys);
    lists.AddElements(elements, NoneIn(keys));
  }
}
