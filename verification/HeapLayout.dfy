/** The layout of utils/heap.cc as pure data: memory seen as aligned 32-bit words, the tiling of
    the heap by blocks, and the ring of free-list nodes threaded through the payloads.

    Addresses are byte offsets into the `Heap` object: the free-list sentinel occupies offsets
    0..8 and `_mem` the offsets HEAD..END, so the list code treats the sentinel like any node. */
module HeapLayout {
  import opened Common

  const HEAP_SIZE: int := 1048576
  const HEAD: int := 8
  const END: int := HEAD + HEAP_SIZE
  const OVERHEAD: int := 8
  const MIN_BLOCK: int := 8

  /** Memory, as a map from word-aligned offsets to word values. */
  type Words = map<int, int>

  /** What the bytes are meant to represent: the payload size of every block by address, the
      addresses of the used blocks, and the free-list nodes in list order (a node is a block + 4). */
  datatype Shape = Shape(size: map<int, int>, used: set<int>, free: seq<int>)

  function At(w: Words, x: int): int { if x in w then w[x] else 0 }

  ghost predicate Full(w: Words) {
    forall x :: x in w <==> 0 <= x < END && x % 4 == 0
  }

  // ---------------------------------------------------------------- tiling

  function After(size: map<int, int>, a: int): int
    requires a in size
  {
    a + OVERHEAD + size[a]
  }

  ghost predicate GoodBlock(size: map<int, int>, a: int) {
    && a in size
    && a % 4 == 0 && HEAD <= a
    && size[a] % 4 == 0 && MIN_BLOCK <= size[a]
    && After(size, a) <= END
    && (After(size, a) == END || After(size, a) in size)
  }

  ghost predicate Apart(size: map<int, int>, a: int, b: int) {
    a in size && b in size && (a < b ==> After(size, a) <= b)
  }

  ghost predicate HasPred(size: map<int, int>, b: int) {
    exists a :: a in size && After(size, a) == b
  }

  /** The blocks cover HEAD..END without gap or overlap.  The triggers keep the solver from walking
      the chain of blocks on its own: each fact is used where it is named. */
  ghost predicate Tiled(size: map<int, int>) {
    && HEAD in size
    && (forall a {:trigger GoodBlock(size, a)} :: a in size ==> GoodBlock(size, a))
    && (forall a, b {:trigger Apart(size, a, b)} :: a in size && b in size ==> Apart(size, a, b))
    && (forall b {:trigger HasPred(size, b)} :: b in size && b != HEAD ==> HasPred(size, b))
  }

  /** The blocks from `a` up to the boundary `e`, fused into one block at `a`. */
  function Fused(size: map<int, int>, a: int, e: int): map<int, int> {
    map x | x in size && !(a < x < e) :: if x == a then e - a - OVERHEAD else size[x]
  }

  /** The block at `a` cut in two, the second one starting at `c`. */
  function Cut(size: map<int, int>, a: int, c: int): map<int, int>
    requires a in size
  {
    size[a := c - a - OVERHEAD][c := After(size, a) - c - OVERHEAD]
  }

  lemma FuseTiled(size: map<int, int>, a: int, e: int)
    requires Tiled(size) && a in size && a < e && (e == END || e in size)
    ensures Tiled(Fused(size, a, e))
  {
    var t := Fused(size, a, e);
    assert GoodBlock(size, a);
    assert e in size ==> Apart(size, a, e) && GoodBlock(size, e);
    forall x | x in t ensures GoodBlock(t, x) {
      assert GoodBlock(size, x);
      if x != a && After(size, x) in size {
        assert Apart(size, a, x) && Apart(size, x, a);
        assert Apart(size, After(size, x), a) && GoodBlock(size, After(size, x));
      }
    }
    forall x, y | x in t && y in t ensures Apart(t, x, y) {
      assert Apart(size, x, y);
    }
    forall b | b in t && b != HEAD ensures HasPred(t, b) {
      FusePred(size, a, e, b);
    }
  }

  lemma FusePred(size: map<int, int>, a: int, e: int, b: int)
    requires Tiled(size) && a in size && a < e && (e == END || e in size)
    requires b in Fused(size, a, e) && b != HEAD
    ensures HasPred(Fused(size, a, e), b)
  {
    var t := Fused(size, a, e);
    assert HasPred(size, b);
    var p :| p in size && After(size, p) == b;
    assert GoodBlock(size, p);
    if b == e {
      assert After(t, a) == b;
    } else if b <= a {
      assert After(t, p) == b;
    } else {
      assert GoodBlock(size, b);
      assert e in size ==> Apart(size, p, e);
      assert Apart(size, a, p);
      assert After(t, p) == b;
    }
  }

  lemma CutTiled(size: map<int, int>, a: int, c: int)
    requires Tiled(size) && a in size
    requires c % 4 == 0 && a + OVERHEAD + MIN_BLOCK <= c && c + OVERHEAD + MIN_BLOCK <= After(size, a)
    ensures c !in size
    ensures Tiled(Cut(size, a, c))
  {
    var t := Cut(size, a, c);
    assert GoodBlock(size, a);
    assert c in size ==> Apart(size, a, c);
    forall x | x in t ensures GoodBlock(t, x) {
      if x != a && x != c { assert GoodBlock(size, x); }
    }
    forall x, y | x in t && y in t ensures Apart(t, x, y) {
      if x in size && y in size { assert Apart(size, x, y); }
      if x in size { assert Apart(size, x, a) && Apart(size, a, x); }
      if y in size { assert Apart(size, y, a) && Apart(size, a, y); }
    }
    forall b | b in t && b != HEAD ensures HasPred(t, b) {
      if b == c {
        assert After(t, a) == b;
      } else {
        assert HasPred(size, b);
        var p :| p in size && After(size, p) == b;
        if p == a { assert After(t, c) == b; } else { assert After(t, p) == b; }
      }
    }
  }

  // ---------------------------------------------------------------- tags

  function Flag(used: set<int>, a: int): int { if a in used then 1 else 0 }

  /** write_size_fields */
  function PutSize(w: Words, block: int, size: int, flags: int): Words {
    w[block := size + flags][block + 4 + size := size]
  }

  // ---------------------------------------------------------------- free list

  /** The ring of nodes: the sentinel (node 0), the list, and the sentinel again. */
  function Ring(free: seq<int>): seq<int> { [0] + free + [0] }

  ghost predicate LinkAt(w: Words, base: int, r: seq<int>, i: int) {
    0 <= i < |r| - 1 ==> At(w, r[i] + 4) == base + r[i + 1] && At(w, r[i + 1]) == base + r[i]
  }

  /** Every node's `next` word (node + 4) and every node's `prev` word (node) name its neighbours. */
  ghost predicate Linked(w: Words, base: int, free: seq<int>) {
    forall i {:trigger LinkAt(w, base, Ring(free), i)} :: LinkAt(w, base, Ring(free), i)
  }

  ghost predicate IsLink(free: seq<int>, x: int) {
    x == 0 || x == 4 || x in free || (x - 4) in free
  }

  ghost predicate Clear(x: int, y: int) { x + 8 <= y || y + 8 <= x }

  /** Distinct nodes never share a word, with each other or with the sentinel. */
  ghost predicate Spaced(free: seq<int>) {
    && (forall i :: 0 <= i < |free| ==> free[i] % 4 == 0 && HEAD <= free[i] && free[i] + 8 <= END)
    && (forall i, j {:trigger Clear(free[i], free[j])} ::
          0 <= i < |free| && 0 <= j < |free| && i != j ==> Clear(free[i], free[j]))
  }

  /** free_list_insert, as the words it leaves behind. */
  function Inserted(w: Words, base: int, node: int): Words {
    var first := At(w, 4) - base;
    w[node + 4 := At(w, 4)][node := base][4 := base + node][first := base + node]
  }

  /** free_list_remove, as the words it leaves behind. */
  function Removed(w: Words, base: int, node: int): Words {
    var prev := At(w, node) - base;
    var next := At(w, node + 4) - base;
    w[prev + 4 := base + next][next := base + prev]
  }

  lemma InsertLinked(w: Words, base: int, free: seq<int>, node: int)
    requires Linked(w, base, free) && Spaced([node] + free)
    ensures Linked(Inserted(w, base, node), base, [node] + free)
  {
    var r := Ring(free);
    var n := [node] + free;
    var r' := Ring(n);
    var w' := Inserted(w, base, node);
    assert LinkAt(w, base, r, 0);
    if |free| > 0 { assert n[1] == r[1] && Clear(n[0], n[1]); }
    forall i ensures LinkAt(w', base, r', i) {
      if 2 <= i < |r'| - 1 {
        assert r'[i] == r[i - 1] == n[i - 1] && r'[i + 1] == r[i];
        assert LinkAt(w, base, r, i - 1);
        assert Clear(n[0], n[i - 1]);
        if i >= 3 { assert Clear(n[1], n[i - 1]); }
        if i < |r'| - 2 { assert r'[i + 1] == n[i] && Clear(n[0], n[i]) && Clear(n[1], n[i]); }
      }
    }
  }

  lemma RemoveLinked(w: Words, base: int, free: seq<int>, k: int)
    requires Linked(w, base, free) && Spaced(free) && 0 <= k < |free|
    ensures Linked(Removed(w, base, free[k]), base, Drop(free, k))
  {
    forall i ensures LinkAt(Removed(w, base, free[k]), base, Ring(Drop(free, k)), i) {
      if 0 <= i <= |free| - 1 { RemoveLinkAt(w, base, free, k, i); }
    }
  }

  /** Link `i` of the shortened ring is the new link across the gap, or one that the removal left alone. */
  lemma RemoveLinkAt(w: Words, base: int, free: seq<int>, k: int, i: int)
    requires Linked(w, base, free) && Spaced(free) && 0 <= k < |free| && 0 <= i <= |free| - 1
    ensures LinkAt(Removed(w, base, free[k]), base, Ring(Drop(free, k)), i)
  {
    RingDrop(free, k, i);
    RingDrop(free, k, i + 1);
    if i == k { AcrossGap(w, base, free, k); } else { OtherLink(w, base, free, k, if i < k then i else i + 1); }
  }

  lemma AcrossGap(w: Words, base: int, free: seq<int>, k: int)
    requires Linked(w, base, free) && Spaced(free) && 0 <= k < |free|
    ensures var w' := Removed(w, base, free[k]);
            At(w', Ring(free)[k] + 4) == base + Ring(free)[k + 2] && At(w', Ring(free)[k + 2]) == base + Ring(free)[k]
  {
    var r := Ring(free);
    assert LinkAt(w, base, r, k) && LinkAt(w, base, r, k + 1) && r[k + 1] == free[k];
    RingApart(free, k, k + 2);
  }

  lemma OtherLink(w: Words, base: int, free: seq<int>, k: int, p: int)
    requires Linked(w, base, free) && Spaced(free) && 0 <= k < |free| && 0 <= p <= |free| && p != k && p != k + 1
    ensures LinkAt(Removed(w, base, free[k]), base, Ring(free), p)
  {
    var r := Ring(free);
    assert LinkAt(w, base, r, k) && LinkAt(w, base, r, k + 1) && r[k + 1] == free[k];
    assert LinkAt(w, base, r, p);
    RingApart(free, p, k);
    RingApart(free, p + 1, k + 2);
  }

  lemma RingDrop(free: seq<int>, k: int, i: int)
    requires 0 <= k < |free| && 0 <= i <= |free|
    ensures Ring(Drop(free, k))[i] == Ring(free)[if i <= k then i else i + 1]
  {
  }

  /** Ring positions hold the same node only if they are equal or both name the sentinel. */
  lemma RingApart(free: seq<int>, i: int, j: int)
    requires Spaced(free) && 0 <= i < |Ring(free)| && 0 <= j < |Ring(free)|
    ensures Clear(Ring(free)[i], Ring(free)[j]) || i == j || Ring(free)[i] == 0 == Ring(free)[j]
  {
    if 1 <= i <= |free| && 1 <= j <= |free| && i != j {
      assert Clear(free[i - 1], free[j - 1]);
    }
  }
}
