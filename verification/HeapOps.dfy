/** The heap operations of utils/heap.cc on words and shapes: when words represent a shape, what each
    list and tag update does to both, and why the representation survives. */
module HeapOps {
  import opened Common
  import opened HeapLayout

  ghost predicate TagAt(w: Words, s: Shape, a: int) {
    && a in s.size
    && At(w, a) == s.size[a] + Flag(s.used, a)
    && At(w, a + 4 + s.size[a]) == s.size[a]
  }

  /** Header and footer of every block: the header carries the size and the used bit, the footer
      the size alone. */
  ghost predicate Tagged(w: Words, s: Shape) {
    forall a {:trigger TagAt(w, s, a)} :: a in s.size ==> TagAt(w, s, a)
  }

  ghost predicate OnBlock(size: map<int, int>, free: seq<int>, f: int) {
    f in free ==> f - 4 in size
  }

  ghost predicate Differ(free: seq<int>, i: int, j: int) {
    0 <= i < j < |free| ==> free[i] != free[j]
  }

  /** The free list names distinct blocks. */
  ghost predicate Nodes(s: Shape) {
    && (forall f {:trigger OnBlock(s.size, s.free, f)} :: OnBlock(s.size, s.free, f))
    && (forall i, j {:trigger Differ(s.free, i, j)} :: Differ(s.free, i, j))
  }

  /** The words represent the shape. */
  ghost predicate Ok(w: Words, base: int, s: Shape) {
    && Full(w)
    && Tiled(s.size)
    && s.used <= s.size.Keys
    && Tagged(w, s)
    && Nodes(s)
    && Linked(w, base, s.free)
  }

  ghost predicate UsedXorListed(s: Shape, a: int) {
    a in s.used <==> a + 4 !in s.free
  }

  ghost predicate NoFreePair(s: Shape, a: int) {
    a in s.size && a !in s.used && After(s.size, a) in s.size ==> After(s.size, a) in s.used
  }

  /** The free list holds exactly the blocks that are not used. */
  ghost predicate Exact(s: Shape) {
    forall a {:trigger UsedXorListed(s, a)} :: a in s.size ==> UsedXorListed(s, a)
  }

  /** No two neighbouring blocks are both free. */
  ghost predicate Coalesced(s: Shape) {
    forall a {:trigger NoFreePair(s, a)} :: a in s.size ==> NoFreePair(s, a)
  }

  /** The invariant of the heap between two calls. */
  ghost predicate WellFormed(w: Words, base: int, s: Shape) {
    Ok(w, base, s) && Exact(s) && Coalesced(s)
  }

  // ---------------------------------------------------------------- separation

  lemma NodesSpaced(s: Shape)
    requires Tiled(s.size) && Nodes(s)
    ensures Spaced(s.free)
  {
    forall i | 0 <= i < |s.free|
      ensures s.free[i] % 4 == 0 && HEAD <= s.free[i] && s.free[i] + 8 <= END
    {
      assert OnBlock(s.size, s.free, s.free[i]) && GoodBlock(s.size, s.free[i] - 4);
    }
    forall i, j | 0 <= i < |s.free| && 0 <= j < |s.free| && i != j
      ensures Clear(s.free[i], s.free[j])
    {
      var a, b := s.free[i] - 4, s.free[j] - 4;
      assert OnBlock(s.size, s.free, s.free[i]) && OnBlock(s.size, s.free, s.free[j]);
      assert Differ(s.free, i, j) && Differ(s.free, j, i);
      assert GoodBlock(s.size, a) && GoodBlock(s.size, b);
      assert Apart(s.size, a, b) && Apart(s.size, b, a);
    }
  }

  /** A link word lies in the payload of a listed block, or in the sentinel. */
  lemma LinkInPayload(s: Shape, x: int, a: int)
    requires Tiled(s.size) && Nodes(s) && IsLink(s.free, x) && a in s.size
    ensures x != a && x != a + 4 + s.size[a]
    ensures a + 4 <= x < a + 4 + s.size[a] ==> a + 4 in s.free
  {
    assert GoodBlock(s.size, a);
    if x != 0 && x != 4 {
      var f := if x in s.free then x else x - 4;
      var b := f - 4;
      assert OnBlock(s.size, s.free, f);
      assert GoodBlock(s.size, b) && Apart(s.size, a, b) && Apart(s.size, b, a);
    }
  }

  // ---------------------------------------------------------------- what an update leaves alone

  ghost predicate KeptAt(w: Words, w': Words, size: map<int, int>, u: int) {
    u in size && forall x :: u + 4 <= x < u + 4 + size[u] ==> At(w', x) == At(w, x)
  }

  /** The payload words of the blocks in `us` are the same in both. */
  ghost predicate Kept(w: Words, w': Words, size: map<int, int>, us: set<int>) {
    forall u {:trigger KeptAt(w, w', size, u)} :: u in us ==> KeptAt(w, w', size, u)
  }

  lemma KeptTrans(w: Words, w': Words, w'': Words, size: map<int, int>, vs: set<int>, us: set<int>)
    requires (forall u :: u in us ==> KeptAt(w, w', size, u)) && Kept(w', w'', size, vs) && us <= vs
    ensures Kept(w, w'', size, us)
  {
    forall u | u in us ensures KeptAt(w, w'', size, u) {
      assert KeptAt(w, w', size, u) && KeptAt(w', w'', size, u);
    }
  }

  /** The blocks no list node lies in. */
  ghost function Unlisted(s: Shape): set<int> {
    set u | u in s.size && u + 4 !in s.free
  }

  lemma SameTags(w: Words, w': Words, s: Shape, f': seq<int>)
    requires Tiled(s.size) && Tagged(w, s) && Nodes(s.(free := f'))
    requires forall x :: !IsLink(f', x) ==> At(w', x) == At(w, x)
    ensures Tagged(w', s.(free := f'))
  {
    var s' := s.(free := f');
    forall a | a in s'.size ensures TagAt(w', s', a) {
      assert TagAt(w, s, a);
      if IsLink(f', a) { LinkInPayload(s', a, a); }
      if IsLink(f', a + 4 + s.size[a]) { LinkInPayload(s', a + 4 + s.size[a], a); }
    }
  }

  lemma SamePayloads(w: Words, w': Words, s: Shape, f': seq<int>, us: set<int>)
    requires Tiled(s.size) && Nodes(s.(free := f')) && us <= s.size.Keys
    requires forall u :: u in us ==> u + 4 !in f'
    requires forall x :: !IsLink(f', x) ==> At(w', x) == At(w, x)
    ensures Kept(w, w', s.size, us)
  {
    forall u | u in us ensures KeptAt(w, w', s.size, u) {
      forall x | u + 4 <= x < u + 4 + s.size[u] ensures At(w', x) == At(w, x) {
        if IsLink(f', x) { LinkInPayload(s.(free := f'), x, u); }
      }
    }
  }

  // ---------------------------------------------------------------- list updates

  lemma InsertOk(w: Words, base: int, s: Shape, a: int)
    requires Ok(w, base, s) && a in s.size && a + 4 !in s.free
    ensures Ok(Inserted(w, base, a + 4), base, s.(free := [a + 4] + s.free))
    ensures Kept(w, Inserted(w, base, a + 4), s.size, Unlisted(s) - {a})
  {
    var f' := [a + 4] + s.free;
    var w' := Inserted(w, base, a + 4);
    InsertNodes(s, a);
    NodesSpaced(s.(free := f'));
    InsertLinked(w, base, s.free, a + 4);
    assert LinkAt(w, base, Ring(s.free), 0);
    assert Full(w') && (forall x :: !IsLink(f', x) ==> At(w', x) == At(w, x)) by {
      InsertTouches(w, base, s.free, a + 4);
    }
    SameTags(w, w', s, f');
    SamePayloads(w, w', s, f', Unlisted(s) - {a});
  }

  lemma InsertTouches(w: Words, base: int, free: seq<int>, node: int)
    requires Full(w) && Linked(w, base, free) && Spaced([node] + free)
    ensures Full(Inserted(w, base, node))
    ensures forall x :: !IsLink([node] + free, x) ==> At(Inserted(w, base, node), x) == At(w, x)
  {
    assert LinkAt(w, base, Ring(free), 0);
    var n := [node] + free;
    var first := At(w, 4) - base;
    assert n[0] == node;
    assert first == 0 || (|free| > 0 && first == n[1] && first in free);
  }

  lemma RemoveOk(w: Words, base: int, s: Shape, k: int)
    requires Ok(w, base, s) && 0 <= k < |s.free|
    ensures Ok(Removed(w, base, s.free[k]), base, s.(free := Drop(s.free, k)))
    ensures Kept(w, Removed(w, base, s.free[k]), s.size, Unlisted(s))
  {
    var w' := Removed(w, base, s.free[k]);
    NodesSpaced(s);
    RemoveLinked(w, base, s.free, k);
    RemoveTouches(w, base, s.free, k);
    SameTags(w, w', s, s.free);
    DropNodes(s, k);
    assert s.(free := s.free) == s;
    forall a | a in s.size ensures TagAt(w', s.(free := Drop(s.free, k)), a) {
      assert TagAt(w', s, a);
    }
    SamePayloads(w, w', s, s.free, Unlisted(s));
  }

  lemma InsertNodes(s: Shape, a: int)
    requires Nodes(s) && a in s.size && a + 4 !in s.free
    ensures Nodes(s.(free := [a + 4] + s.free))
  {
    var n := [a + 4] + s.free;
    forall f ensures OnBlock(s.size, n, f) { assert OnBlock(s.size, s.free, f); }
    forall i, j ensures Differ(n, i, j) { assert Differ(s.free, i - 1, j - 1); }
  }

  lemma DropNodes(s: Shape, k: int)
    requires Nodes(s) && 0 <= k < |s.free|
    ensures Nodes(s.(free := Drop(s.free, k)))
    ensures s.free[k] !in Drop(s.free, k)
    ensures forall f :: f in Drop(s.free, k) <==> f in s.free && f != s.free[k]
  {
    var d := Drop(s.free, k);
    forall f ensures f in d <==> f in s.free && f != s.free[k] { DropMember(s, k, f); }
    forall f ensures OnBlock(s.size, d, f) { assert OnBlock(s.size, s.free, f); }
    forall i, j ensures Differ(d, i, j) {
      assert Differ(s.free, if i < k then i else i + 1, if j < k then j else j + 1);
    }
  }

  lemma DropMember(s: Shape, k: int, f: int)
    requires Nodes(s) && 0 <= k < |s.free|
    ensures f in Drop(s.free, k) <==> f in s.free && f != s.free[k]
  {
    var d := Drop(s.free, k);
    if f in d {
      var i :| 0 <= i < |d| && d[i] == f;
      assert Differ(s.free, i, k) && Differ(s.free, k, i + 1);
    }
    if f in s.free && f != s.free[k] {
      var i :| 0 <= i < |s.free| && s.free[i] == f;
      assert d[if i < k then i else i - 1] == f;
    }
  }

  lemma RemoveTouches(w: Words, base: int, free: seq<int>, k: int)
    requires Full(w) && Linked(w, base, free) && Spaced(free) && 0 <= k < |free|
    ensures Full(Removed(w, base, free[k]))
    ensures forall x :: !IsLink(free, x) ==> At(Removed(w, base, free[k]), x) == At(w, x)
  {
    var r := Ring(free);
    assert LinkAt(w, base, r, k) && LinkAt(w, base, r, k + 1) && r[k + 1] == free[k];
    assert r[k] == 0 || (r[k] == free[k - 1] && r[k] in free);
    assert r[k + 2] == 0 || (r[k + 2] == free[k + 1] && r[k + 2] in free);
  }

  // ---------------------------------------------------------------- tag updates

  lemma MarkOk(w: Words, base: int, s: Shape, a: int, u: bool)
    requires Ok(w, base, s) && a in s.size
    ensures Ok(w[a := s.size[a] + if u then 1 else 0], base,
               s.(used := if u then s.used + {a} else s.used - {a}))
    ensures Kept(w, w[a := s.size[a] + if u then 1 else 0], s.size, s.size.Keys)
  {
    var w' := w[a := s.size[a] + if u then 1 else 0];
    var s' := s.(used := if u then s.used + {a} else s.used - {a});
    assert GoodBlock(s.size, a);
    forall b | b in s.size ensures TagAt(w', s', b) && KeptAt(w, w', s.size, b) {
      assert TagAt(w, s, b);
      assert GoodBlock(s.size, b) && Apart(s.size, a, b) && Apart(s.size, b, a);
    }
    forall x | IsLink(s.free, x) ensures At(w', x) == At(w, x) {
      LinkInPayload(s, x, a);
    }
    SameLinks(w, w', base, s);
  }

  /** Writing words that are no links keeps the ring. */
  lemma SameLinks(w: Words, w': Words, base: int, s: Shape)
    requires Linked(w, base, s.free)
    requires forall x :: IsLink(s.free, x) ==> At(w', x) == At(w, x)
    ensures Linked(w', base, s.free)
  {
    var r := Ring(s.free);
    forall i ensures LinkAt(w', base, r, i) {
      assert LinkAt(w, base, r, i);
      if 0 <= i < |r| - 1 {
        assert IsLink(s.free, r[i] + 4) by { if i > 0 { assert r[i] == s.free[i - 1]; } }
        assert IsLink(s.free, r[i + 1]) by { if i < |s.free| { assert r[i + 1] == s.free[i]; } }
      }
    }
  }

  lemma PutSizeLinks(w: Words, base: int, s: Shape, a: int, flags: int)
    requires Tiled(s.size) && Nodes(s) && a in s.size && Linked(w, base, s.free)
    ensures Linked(PutSize(w, a, s.size[a], flags), base, s.free)
  {
    var w' := PutSize(w, a, s.size[a], flags);
    forall x | IsLink(s.free, x) ensures At(w', x) == At(w, x) {
      LinkInPayload(s, x, a);
    }
    SameLinks(w, w', base, s);
  }

  // ---------------------------------------------------------------- fusing

  ghost function FusedShape(s: Shape, a: int, e: int): Shape {
    Shape(Fused(s.size, a, e), (set x | x in s.used && !(a <= x < e)) + {a}, s.free)
  }

  /** No node of the list lies in a block between `a` and `e`. */
  ghost predicate RangeUnlisted(size: map<int, int>, free: seq<int>, a: int, e: int) {
    forall x :: x in size && a <= x < e ==> x + 4 !in free
  }

  /** One header and one footer turn the used and free blocks between `a` and `e`, none of them
      listed, into one used block. */
  lemma FuseOk(w: Words, base: int, s: Shape, a: int, e: int)
    requires Ok(w, base, s) && a in s.size && a < e && (e == END || e in s.size)
    requires RangeUnlisted(s.size, s.free, a, e)
    ensures Ok(PutSize(w, a, e - a - OVERHEAD, 1), base, FusedShape(s, a, e))
    ensures Kept(w, PutSize(w, a, e - a - OVERHEAD, 1), s.size, s.size.Keys)
  {
    var s' := FusedShape(s, a, e);
    var w' := PutSize(w, a, e - a - OVERHEAD, 1);
    FuseTiled(s.size, a, e);
    FuseNodes(s, a, e);
    assert GoodBlock(s'.size, a);
    assert Full(w') && TagAt(w', s', a);
    PutSizeLinks(w, base, s', a, 1);
    forall x | x in s'.size ensures TagAt(w', s', x) {
      if x != a { FuseTag(w, s, a, e, x); }
    }
    FuseKeeps(w, s.size, a, e);
  }

  lemma FuseTag(w: Words, s: Shape, a: int, e: int, x: int)
    requires Tagged(w, s) && Tiled(FusedShape(s, a, e).size)
    requires a in s.size && a < e && x in FusedShape(s, a, e).size && x != a
    ensures TagAt(PutSize(w, a, e - a - OVERHEAD, 1), FusedShape(s, a, e), x)
  {
    assert TagAt(w, s, x);
    PutSizeKeeps(w, FusedShape(s, a, e).size, a, 1, x);
  }

  lemma FuseNodes(s: Shape, a: int, e: int)
    requires Nodes(s) && a in s.size && a < e
    requires RangeUnlisted(s.size, s.free, a, e)
    ensures Nodes(FusedShape(s, a, e))
  {
    var s' := FusedShape(s, a, e);
    forall f ensures OnBlock(s'.size, s'.free, f) { assert OnBlock(s.size, s.free, f); }
    forall i, j ensures Differ(s'.free, i, j) { assert Differ(s.free, i, j); }
  }

  lemma FuseKeeps(w: Words, size: map<int, int>, a: int, e: int)
    requires Tiled(size) && a in size && a < e && (e == END || e in size)
    ensures Kept(w, PutSize(w, a, e - a - OVERHEAD, 1), size, size.Keys)
  {
    var w' := PutSize(w, a, e - a - OVERHEAD, 1);
    forall u | u in size ensures KeptAt(w, w', size, u) {
      assert GoodBlock(size, u) && GoodBlock(size, a) && Apart(size, u, a) && Apart(size, a, u);
      if e in size { assert Apart(size, u, e) && Apart(size, e, u) && GoodBlock(size, e); }
    }
  }

  /** Tagging one block leaves every other block alone. */
  lemma PutSizeKeeps(w: Words, size: map<int, int>, a: int, flags: int, x: int)
    requires Tiled(size) && a in size && x in size && x != a
    ensures var w' := PutSize(w, a, size[a], flags);
            At(w', x) == At(w, x) && At(w', x + 4 + size[x]) == At(w, x + 4 + size[x])
    ensures KeptAt(w, PutSize(w, a, size[a], flags), size, x)
  {
    assert GoodBlock(size, a) && GoodBlock(size, x) && Apart(size, a, x) && Apart(size, x, a);
  }

  // ---------------------------------------------------------------- splitting

  /** The used block at `a` cut at `c`: the front becomes a listed free block, the back is used. */
  ghost function CutShape(s: Shape, a: int, c: int): Shape
    requires a in s.size
  {
    Shape(Cut(s.size, a, c), s.used - {a} + {c}, [a + 4] + s.free)
  }

  /** The words maybe_split_block leaves behind: tags of the front, list insertion, tags of the back. */
  function SplitWords(w: Words, base: int, a: int, c: int, end: int): Words {
    PutSize(Inserted(PutSize(w, a, c - a - OVERHEAD, 0), base, a + 4), c, end - c - OVERHEAD, 1)
  }

  lemma SplitOk(w: Words, base: int, s: Shape, a: int, c: int)
    requires Ok(w, base, s) && a in s.used && a + 4 !in s.free
    requires c % 4 == 0 && a + OVERHEAD + MIN_BLOCK <= c
    requires c + OVERHEAD + MIN_BLOCK <= After(s.size, a)
    ensures Ok(SplitWords(w, base, a, c, After(s.size, a)), base, CutShape(s, a, c))
    ensures Kept(w, SplitWords(w, base, a, c, After(s.size, a)), s.size, Unlisted(s) - {a})
  {
    var s1 := Shape(Cut(s.size, a, c), s.used - {a} + {c}, s.free);
    var w0 := PutSize(w, a, c - a - OVERHEAD, 0);
    var w1 := PutSize(w0, c, After(s.size, a) - c - OVERHEAD, 1);
    var w2 := SplitWords(w, base, a, c, After(s.size, a));
    CutTagsOk(w, base, s, a, c);
    InsertOk(w1, base, s1, a);
    assert Inserted(w1, base, a + 4) == w2 by {
      InsertCommutes(w0, base, s1, a, c, After(s.size, a) - c - OVERHEAD);
    }
    forall u | u in Unlisted(s) - {a} ensures KeptAt(w, w2, s.size, u) {
      assert u in Unlisted(s1) && KeptAt(w1, w2, s1.size, u) && KeptAt(w, w1, s.size, u);
    }
  }

  /** The words with the tags of both parts of a cut block. */
  function CutWords(w: Words, a: int, c: int, end: int): Words {
    PutSize(PutSize(w, a, c - a - OVERHEAD, 0), c, end - c - OVERHEAD, 1)
  }

  lemma CutLinks(w: Words, base: int, s1: Shape, a: int, c: int, end: int)
    requires Full(w) && Tiled(s1.size) && Nodes(s1) && Linked(w, base, s1.free)
    requires a in s1.size && c in s1.size && s1.size[a] == c - a - OVERHEAD && s1.size[c] == end - c - OVERHEAD
    ensures Full(CutWords(w, a, c, end)) && Linked(CutWords(w, a, c, end), base, s1.free)
  {
    PutSizeLinks(w, base, s1, a, 0);
    PutSizeLinks(PutSize(w, a, c - a - OVERHEAD, 0), base, s1, c, 1);
    assert GoodBlock(s1.size, a) && GoodBlock(s1.size, c);
  }

  lemma CutTag(w: Words, s1: Shape, a: int, c: int, end: int, x: int)
    requires Tiled(s1.size) && a in s1.size && c in s1.size && a != c
    requires s1.size[a] == c - a - OVERHEAD && s1.size[c] == end - c - OVERHEAD
    requires a !in s1.used && c in s1.used
    requires x in s1.size && (x != a && x != c ==> TagAt(w, s1, x))
    ensures TagAt(CutWords(w, a, c, end), s1, x)
    ensures x != a && x != c ==> KeptAt(w, CutWords(w, a, c, end), s1.size, x)
  {
    var w0 := PutSize(w, a, c - a - OVERHEAD, 0);
    assert GoodBlock(s1.size, x);
    if x == a {
      PutSizeKeeps(w0, s1.size, c, 1, a);
    } else if x != c {
      PutSizeKeeps(w, s1.size, a, 0, x);
      PutSizeKeeps(w0, s1.size, c, 1, x);
      assert KeptAt(w, w0, s1.size, x) && KeptAt(w0, CutWords(w, a, c, end), s1.size, x);
    }
  }

  lemma CutTagsOk(w: Words, base: int, s: Shape, a: int, c: int)
    requires Ok(w, base, s) && a in s.used && a + 4 !in s.free
    requires c % 4 == 0 && a + OVERHEAD + MIN_BLOCK <= c
    requires c + OVERHEAD + MIN_BLOCK <= After(s.size, a)
    ensures c !in s.size && c + 4 !in s.free
    ensures Ok(CutWords(w, a, c, After(s.size, a)), base, Shape(Cut(s.size, a, c), s.used - {a} + {c}, s.free))
    ensures forall u :: u in s.size && u != a ==> KeptAt(w, CutWords(w, a, c, After(s.size, a)), s.size, u)
  {
    var s1 := Shape(Cut(s.size, a, c), s.used - {a} + {c}, s.free);
    var w1 := CutWords(w, a, c, After(s.size, a));
    CutNodes(s, a, c);
    CutLinks(w, base, s1, a, c, After(s.size, a));
    forall x | x in s1.size ensures TagAt(w1, s1, x) && (x != a && x != c ==> KeptAt(w, w1, s.size, x)) {
      if x != a && x != c { assert TagAt(w, s, x); }
      CutTag(w, s1, a, c, After(s.size, a), x);
    }
  }

  lemma CutNodes(s: Shape, a: int, c: int)
    requires Tiled(s.size) && Nodes(s) && a in s.used && a + 4 !in s.free && s.used <= s.size.Keys
    requires c % 4 == 0 && a + OVERHEAD + MIN_BLOCK <= c
    requires c + OVERHEAD + MIN_BLOCK <= After(s.size, a)
    ensures c !in s.size && c + 4 !in s.free
    ensures Tiled(Cut(s.size, a, c))
    ensures Nodes(Shape(Cut(s.size, a, c), s.used - {a} + {c}, s.free))
  {
    CutTiled(s.size, a, c);
    assert OnBlock(s.size, s.free, c + 4);
    var t := Cut(s.size, a, c);
    forall f ensures OnBlock(t, s.free, f) { assert OnBlock(s.size, s.free, f); }
    forall i, j ensures Differ(s.free, i, j) { }
  }

  /** The list insertion at the front and the tags of the back touch different words. */
  lemma InsertCommutes(w: Words, base: int, s: Shape, a: int, c: int, back: int)
    requires Tiled(s.size) && a in s.size && c in s.size && a < c && s.size[c] == back
    requires Nodes(s) && a + 4 !in s.free && c + 4 !in s.free
    requires Linked(PutSize(w, c, back, 1), base, s.free)
    ensures Inserted(PutSize(w, c, back, 1), base, a + 4) == PutSize(Inserted(w, base, a + 4), c, back, 1)
  {
    assert GoodBlock(s.size, a) && GoodBlock(s.size, c) && Apart(s.size, a, c);
    var first := At(PutSize(w, c, back, 1), 4) - base;
    FirstLink(PutSize(w, c, back, 1), base, s.free);
    LinkInPayload(s, first, c);
    MapCommutes(w, base, a + 4, a + 8, first, c, c + 4 + back, back);
  }

  lemma FirstLink(w: Words, base: int, free: seq<int>)
    requires Linked(w, base, free)
    ensures IsLink(free, At(w, 4) - base)
  {
    assert LinkAt(w, base, Ring(free), 0);
    if |free| > 0 { assert Ring(free)[1] == free[0]; }
  }

  lemma MapCommutes(w: Words, base: int, node: int, next: int, first: int, c: int, footer: int, back: int)
    requires next == node + 4 && footer == c + 4 + back && first == At(w, 4) - base
    requires c != node && c != next && c != 4 && c != first
    requires footer != node && footer != next && footer != 4 && footer != first
    ensures Inserted(PutSize(w, c, back, 1), base, node) == PutSize(Inserted(w, base, node), c, back, 1)
  {
  }

  // ---------------------------------------------------------------- payload writes

  /** Whatever is written into the payload of an unlisted block, the heap does not notice. */
  lemma StoreOk(w: Words, w': Words, base: int, s: Shape, u: int)
    requires Ok(w, base, s) && u in s.size && u + 4 !in s.free && Full(w')
    requires forall x :: !(u + 4 <= x < u + 4 + s.size[u]) ==> At(w', x) == At(w, x)
    ensures Ok(w', base, s)
    ensures Kept(w, w', s.size, s.size.Keys - {u})
  {
    assert GoodBlock(s.size, u);
    forall b | b in s.size ensures TagAt(w', s, b) && (b != u ==> KeptAt(w, w', s.size, b)) {
      assert TagAt(w, s, b);
      assert GoodBlock(s.size, b) && Apart(s.size, u, b) && Apart(s.size, b, u);
    }
    forall x | IsLink(s.free, x) ensures At(w', x) == At(w, x) {
      LinkInPayload(s, x, u);
    }
    SameLinks(w, w', base, s);
  }
}
