/** What malloc, free and realloc of utils/heap.cc do to the shape of the heap, and the properties
    every run of them keeps. */
module HeapSpec {
  import opened Common
  import opened HeapLayout
  import opened HeapOps

  /** A shape whose tiling, list and used set agree, with no two free neighbours. */
  ghost predicate Sound(s: Shape) {
    Tiled(s.size) && s.used <= s.size.Keys && Nodes(s) && Exact(s) && Coalesced(s)
  }

  ghost function PredOf(size: map<int, int>, b: int): (p: int)
    requires HasPred(size, b)
    ensures p in size && After(size, p) == b
  {
    var p :| p in size && After(size, p) == b;
    p
  }

  lemma PredUnique(size: map<int, int>, b: int, p: int)
    requires Tiled(size) && p in size && After(size, p) == b
    ensures HasPred(size, b) && PredOf(size, b) == p && p < b
  {
    assert After(size, p) == b;
    assert HasPred(size, b);
    var q := PredOf(size, b);
    assert GoodBlock(size, p) && GoodBlock(size, q) && Apart(size, p, q) && Apart(size, q, p);
  }

  /** The free block at `a` taken off the list. */
  function Unlinked(s: Shape, a: int): Shape {
    s.(free := Delete(s.free, a + 4))
  }

  // ---------------------------------------------------------------- merging

  /** A used block is merged with a free predecessor and a free successor. */
  ghost function MergeStart(s: Shape, b: int): int
    requires Tiled(s.size) && b in s.size
  {
    assert HasPred(s.size, b) || b == HEAD;
    if b != HEAD && PredOf(s.size, b) !in s.used then PredOf(s.size, b) else b
  }

  ghost function MergeEnd(s: Shape, b: int): int
    requires b in s.size
  {
    var e := After(s.size, b);
    if e in s.size && e !in s.used then After(s.size, e) else e
  }

  /** Dropping a node that is not listed changes nothing, so both neighbours can be named. */
  ghost function MergeList(s: Shape, b: int): seq<int>
    requires Tiled(s.size) && b in s.size
  {
    Delete(Delete(s.free, MergeStart(s, b) + 4), After(s.size, b) + 4)
  }

  ghost function MergeShape(s: Shape, b: int): Shape
    requires Tiled(s.size) && b in s.size
  {
    FusedShape(s.(free := MergeList(s, b)), MergeStart(s, b), MergeEnd(s, b))
  }

  /** Both neighbours of the block are used, if it has them. */
  ghost predicate Surrounded(s: Shape, a: int)
    requires a in s.size
  {
    && (a != HEAD ==> HasPred(s.size, a) && PredOf(s.size, a) in s.used)
    && (After(s.size, a) in s.size ==> After(s.size, a) in s.used)
  }

  /** The merged range is a run of whole blocks around `b`. */
  lemma MergeRange(s: Shape, b: int)
    requires Sound(s) && b in s.used
    ensures var a, e := MergeStart(s, b), MergeEnd(s, b);
            && a in s.size && a <= b < After(s.size, b) <= e && (e == END || e in s.size)
            && (a != b ==> a !in s.used && After(s.size, a) == b)
            && (forall x :: x in s.size && a <= x < e && x != b ==> x !in s.used)
            && (forall x :: x in s.size && a <= x < e ==> x == a || x == b || x == After(s.size, b))
            && (a != HEAD ==> HasPred(s.size, a) && PredOf(s.size, a) in s.used)
            && (e in s.size ==> e in s.used)
            && (e != After(s.size, b) ==> After(s.size, b) in s.size && After(s.size, b) !in s.used)
  {
    var a, m, e := MergeStart(s, b), After(s.size, b), MergeEnd(s, b);
    assert GoodBlock(s.size, b);
    assert b != HEAD ==> HasPred(s.size, b);
    assert GoodBlock(s.size, a);
    if m in s.size { assert GoodBlock(s.size, m) && NoFreePair(s, m); }
    if a != HEAD { assert HasPred(s.size, a) && NoFreePair(s, PredOf(s.size, a)); }
    forall x | x in s.size && a <= x < e ensures x == a || x == b || x == m {
      assert Apart(s.size, a, x) && Apart(s.size, b, x);
      if m in s.size { assert Apart(s.size, m, x); }
    }
  }

  lemma WithoutNodes(s: Shape, f: int)
    requires Nodes(s)
    ensures Nodes(s.(free := Delete(s.free, f)))
    ensures forall g :: g in Delete(s.free, f) <==> g in s.free && g != f
  {
    if f in s.free { DropNodes(s, Position(s.free, f)); }
  }

  lemma WithoutTwo(s: Shape, x: int, y: int)
    requires Nodes(s)
    ensures Nodes(s.(free := Delete(Delete(s.free, x), y)))
    ensures forall z :: z in Delete(Delete(s.free, x), y) <==> z in s.free && z != x && z != y
  {
    var f := Delete(s.free, x);
    WithoutNodes(s, x);
    assert s.(free := f).(free := Delete(f, y)) == s.(free := Delete(f, y));
    WithoutNodes(s.(free := f), y);
  }

  /** The list `f` is the list of `s` without the nodes between `a` and `e`. */
  ghost predicate Unlists(s: Shape, a: int, e: int, f: seq<int>) {
    && Nodes(s.(free := f))
    && RangeUnlisted(s.size, f, a, e)
    && (forall x :: x in s.size && !(a <= x < e) ==> (x + 4 in f <==> x + 4 in s.free))
  }

  /** Dropping the neighbours of `b` unlists exactly the range `a`..`e`. */
  lemma MergeUnlists(s: Shape, b: int, a: int, m: int, e: int, f: seq<int>)
    requires Exact(s) && b in s.used && b in s.size && a <= b < m <= e
    requires m in s.size ==> (m in s.used <==> e == m)
    requires m !in s.size ==> e == m
    requires forall x :: x in s.size && a <= x < e ==> x == a || x == b || x == m
    requires Nodes(s.(free := f))
    requires forall z :: z in f <==> z in s.free && z != a + 4 && z != m + 4
    ensures Unlists(s, a, e, f)
  {
    assert UsedXorListed(s, b);
    if m in s.size { assert UsedXorListed(s, m); }
  }

  /** Fusing the one used block `b` with the free blocks between two used neighbours keeps the shape
      sound. */
  lemma FuseSound(s: Shape, b: int, a: int, e: int, f: seq<int>)
    requires Sound(s) && b in s.used && a in s.size && a <= b < e && (e == END || e in s.size)
    requires e in s.size ==> e in s.used
    requires a != HEAD ==> HasPred(s.size, a) && PredOf(s.size, a) in s.used
    requires forall x :: x in s.size && a <= x < e && x != b ==> x !in s.used
    requires Unlists(s, a, e, f)
    ensures var m := FusedShape(s.(free := f), a, e);
            Sound(m) && a in m.used && Surrounded(m, a) && m.used == s.used - {b} + {a}
  {
    var m := FusedShape(s.(free := f), a, e);
    FuseTiled(s.size, a, e);
    FuseNodes(s.(free := f), a, e);
    assert m.used == s.used - {b} + {a};
    if a != HEAD {
      var p := PredOf(s.size, a);
      PredUnique(s.size, a, p);
      assert After(m.size, p) == a;
      PredUnique(m.size, a, p);
    }
    forall x | x in m.size ensures UsedXorListed(m, x) {
      assert UsedXorListed(s, x);
    }
    forall x | x in m.size ensures NoFreePair(m, x) {
      if x != a {
        assert NoFreePair(s, x);
        if After(m.size, x) == a { PredUnique(s.size, a, x); }
      }
    }
  }

  /** Merging keeps the shape sound and leaves the merged block between used neighbours. */
  lemma MergeSound(s: Shape, b: int)
    requires Sound(s) && b in s.used
    ensures Sound(MergeShape(s, b)) && MergeStart(s, b) in MergeShape(s, b).used
    ensures Surrounded(MergeShape(s, b), MergeStart(s, b))
    ensures MergeShape(s, b).used == s.used - {b} + {MergeStart(s, b)}
    ensures forall u :: u in s.used && u != b ==>
              u != MergeStart(s, b) && u in MergeShape(s, b).size && MergeShape(s, b).size[u] == s.size[u]
  {
    MergeRange(s, b);
    MergeListed(s, b);
    FuseSound(s, b, MergeStart(s, b), MergeEnd(s, b), MergeList(s, b));
  }

  lemma MergeListed(s: Shape, b: int)
    requires Sound(s) && b in s.used
    ensures Unlists(s, MergeStart(s, b), MergeEnd(s, b), MergeList(s, b))
  {
    MergeRange(s, b);
    WithoutTwo(s, MergeStart(s, b) + 4, After(s.size, b) + 4);
    MergeUnlists(s, b, MergeStart(s, b), After(s.size, b), MergeEnd(s, b), MergeList(s, b));
  }

  // ---------------------------------------------------------------- splitting

  function Align(n: int): int { n + 3 - (n + 3) % 4 }

  /** The payload size a request is rounded to. */
  function Need(n: int): int { if Align(n) < MIN_BLOCK then MIN_BLOCK else Align(n) }

  predicate Splits(s: Shape, a: int, n: int)
    requires a in s.size
  {
    s.size[a] >= Need(n) + OVERHEAD + MIN_BLOCK
  }

  /** A block of `got` bytes handed out for `n`, taken from one of `had`: no more than the request rounded up
      to a multiple of 4, and at least 8, if what is over makes a block of its own; else the whole block, which
      then has less than 16 bytes more than that. */
  predicate NoWaste(got: int, had: int, n: int) {
    && got <= Max(n + 3, 8) + 15
    && (had >= Max(n + 3, 8) + 16 ==> n <= got <= Max(n + 3, 8))
    && (had < Max(n, 8) + 16 ==> got == had)
  }

  /** Where the returned block starts: the back part if the block is split, else the block itself. */
  function SplitAddr(s: Shape, a: int, n: int): int
    requires a in s.size
  {
    if Splits(s, a, n) then After(s.size, a) - Need(n) - OVERHEAD else a
  }

  ghost function SplitShape(s: Shape, a: int, n: int): Shape
    requires a in s.size
  {
    if Splits(s, a, n) then CutShape(s, a, SplitAddr(s, a, n)) else s
  }

  lemma SplitSound(s: Shape, a: int, n: int)
    requires Sound(s) && a in s.used && Surrounded(s, a) && 0 < n <= s.size[a]
    ensures Sound(SplitShape(s, a, n))
    ensures var c := SplitAddr(s, a, n); var t := SplitShape(s, a, n);
            && c in t.used && n <= t.size[c] && a <= c && c + t.size[c] == a + s.size[a]
            && t.used == s.used - {a} + {c}
            && (forall u :: u in s.used && u != a ==> u != c && t.size[u] == s.size[u])
    ensures NoWaste(SplitShape(s, a, n).size[SplitAddr(s, a, n)], s.size[a], n)
  {
    assert GoodBlock(s.size, a);
    if Splits(s, a, n) {
      var c := SplitAddr(s, a, n);
      assert UsedXorListed(s, a);
      CutNodes(s, a, c);
      CutSound(s, a, c);
    }
  }

  lemma CutSound(s: Shape, a: int, c: int)
    requires Sound(s) && a in s.used && Surrounded(s, a) && a + 4 !in s.free
    requires a < c < After(s.size, a) && c !in s.size && c + 4 !in s.free
    requires Tiled(Cut(s.size, a, c)) && Nodes(s.(size := Cut(s.size, a, c)))
    ensures Sound(CutShape(s, a, c))
  {
    var t := CutShape(s, a, c);
    InsertNodes(s.(size := Cut(s.size, a, c)), a);
    forall x | x in t.size ensures UsedXorListed(t, x) {
      if x != a && x != c { assert UsedXorListed(s, x); }
    }
    forall x | x in t.size ensures NoFreePair(t, x) {
      if x != a && x != c {
        assert NoFreePair(s, x) && GoodBlock(s.size, x) && GoodBlock(t.size, x);
        if After(s.size, x) == a { PredUnique(s.size, a, x); }
      }
    }
  }

  // ---------------------------------------------------------------- malloc and free

  /** The block behind the `k`-th node is too small. */
  ghost predicate TooSmall(s: Shape, k: int, n: int) {
    0 <= k < |s.free| && s.free[k] - 4 in s.size && s.size[s.free[k] - 4] < n
  }

  /** Position `k` of the list is the first node whose block holds at least `n` bytes. */
  ghost predicate FirstFit(s: Shape, k: int, n: int) {
    && 0 <= k < |s.free|
    && s.free[k] - 4 in s.size && n <= s.size[s.free[k] - 4]
    && forall j {:trigger TooSmall(s, j, n)} :: 0 <= j < k ==> TooSmall(s, j, n)
  }

  ghost function TakeShape(s: Shape, k: int): Shape
    requires 0 <= k < |s.free|
  {
    s.(used := s.used + {s.free[k] - 4}, free := Drop(s.free, k))
  }

  ghost function AllocShape(s: Shape, k: int, n: int): Shape
    requires FirstFit(s, k, n)
  {
    SplitShape(TakeShape(s, k), s.free[k] - 4, n)
  }

  ghost function AllocAddr(s: Shape, k: int, n: int): int
    requires FirstFit(s, k, n)
  {
    SplitAddr(s, s.free[k] - 4, n)
  }

  lemma TakeSound(s: Shape, k: int)
    requires Sound(s) && 0 <= k < |s.free|
    ensures Sound(TakeShape(s, k)) && s.free[k] - 4 in TakeShape(s, k).used
    ensures s.free[k] - 4 in s.size && s.free[k] - 4 !in s.used
    ensures Surrounded(TakeShape(s, k), s.free[k] - 4)
  {
    var a := s.free[k] - 4;
    var t := TakeShape(s, k);
    assert OnBlock(s.size, s.free, s.free[k]);
    DropNodes(s, k);
    assert UsedXorListed(s, a) && NoFreePair(s, a) && GoodBlock(s.size, a);
    if a != HEAD {
      assert HasPred(s.size, a) && NoFreePair(s, PredOf(s.size, a));
    }
    assert Tiled(t.size) && Nodes(t) && t.used <= t.size.Keys;
    TakeExact(s, k);
  }

  lemma TakeExact(s: Shape, k: int)
    requires Sound(s) && 0 <= k < |s.free| && Nodes(TakeShape(s, k))
    requires forall f :: f in Drop(s.free, k) <==> f in s.free && f != s.free[k]
    ensures Exact(TakeShape(s, k)) && Coalesced(TakeShape(s, k))
  {
    var t := TakeShape(s, k);
    forall x | x in t.size ensures UsedXorListed(t, x) {
      assert UsedXorListed(s, x);
    }
    forall x | x in t.size ensures NoFreePair(t, x) {
      assert NoFreePair(s, x);
    }
  }

  /** malloc keeps the shape sound and hands out a block that is big enough, was free, and leaves
      every used block where it was. */
  lemma AllocSound(s: Shape, k: int, n: int)
    requires Sound(s) && 0 < n && FirstFit(s, k, n)
    ensures Sound(AllocShape(s, k, n))
    ensures var c := AllocAddr(s, k, n); var t := AllocShape(s, k, n);
            && c !in s.used && c in t.used && n <= t.size[c]
            && t.used == s.used + {c}
            && (forall u :: u in s.used ==> t.size[u] == s.size[u])
            && NoWaste(t.size[c], s.size[s.free[k] - 4], n)
  {
    TakeSound(s, k);
    SplitSound(TakeShape(s, k), s.free[k] - 4, n);
  }

  ghost function FreeShape(s: Shape, b: int): Shape
    requires Tiled(s.size) && b in s.size
  {
    var m, a := MergeShape(s, b), MergeStart(s, b);
    m.(used := m.used - {a}, free := [a + 4] + m.free)
  }

  /** Giving up a used block between used neighbours keeps the shape sound. */
  lemma ReleaseSound(m: Shape, a: int)
    requires Sound(m) && a in m.used && Surrounded(m, a)
    ensures Sound(m.(used := m.used - {a}, free := [a + 4] + m.free))
  {
    var t := m.(used := m.used - {a}, free := [a + 4] + m.free);
    assert UsedXorListed(m, a);
    InsertNodes(m, a);
    forall x | x in t.size ensures UsedXorListed(t, x) && NoFreePair(t, x) {
      assert UsedXorListed(m, x) && NoFreePair(m, x);
      if After(t.size, x) == a { assert GoodBlock(m.size, x); PredUnique(m.size, a, x); }
    }
  }

  /** free keeps the shape sound and leaves every other used block where it was. */
  lemma FreeSound(s: Shape, b: int)
    requires Sound(s) && b in s.used
    ensures Sound(FreeShape(s, b))
    ensures FreeShape(s, b).used == s.used - {b}
    ensures forall u :: u in s.used && u != b ==> FreeShape(s, b).size[u] == s.size[u]
  {
    MergeSound(s, b);
    ReleaseSound(MergeShape(s, b), MergeStart(s, b));
  }

  /** Allocating elsewhere leaves a used block between used neighbours. */
  lemma AllocSurrounded(s: Shape, k: int, n: int, a: int)
    requires Sound(s) && 0 < n && FirstFit(s, k, n) && a in s.used && Surrounded(s, a)
    ensures Surrounded(AllocShape(s, k, n), a)
  {
    var t := AllocShape(s, k, n);
    AllocSound(s, k, n);
    if a != HEAD {
      var p := PredOf(s.size, a);
      assert After(t.size, p) == a;
      PredUnique(t.size, a, p);
    }
    if After(t.size, a) in t.size {
      assert GoodBlock(t.size, After(t.size, a)) && GoodBlock(s.size, a);
    }
  }

  // ---------------------------------------------------------------- realloc

  /** realloc merges first; then it relocates if the merged block is too small. */
  ghost predicate Relocates(s: Shape, b: int, n: int)
    requires Sound(s) && b in s.used
  {
    MergeSound(s, b);
    MergeShape(s, b).size[MergeStart(s, b)] < n
  }

  /** Where the reused block starts. */
  ghost function ReuseAddr(s: Shape, b: int, n: int): int
    requires Sound(s) && b in s.used
  {
    MergeSound(s, b);
    SplitAddr(MergeShape(s, b), MergeStart(s, b), n)
  }

  /** The tags and the list node written when the block `a` is split at `c` miss the `len` payload
      bytes of `b`. */
  predicate Spared(b: int, a: int, c: int, len: int) {
    c == a || (a < b && (c <= b || b + 4 + len <= c - 4))
  }

  /** Otherwise, which of these bytes is hit, and the word whose low byte it becomes: the list node's
      `prev`, the new header, or the front's footer. */
  function Overwritten(base: int, b: int, a: int, c: int, need: int): (int, int) {
    if a == b then (0, base)
    else if c == b + 4 then (0, need + 1)
    else (c - 8 - b, c - a - OVERHEAD)
  }

  /** realloc preserves the payload: it relocates, or a split of the merged block spares it. */
  ghost predicate KeepsContent(s: Shape, b: int, n: int)
    requires Sound(s) && b in s.used
  {
    Relocates(s, b, n) || Spared(b, MergeStart(s, b), ReuseAddr(s, b, n), Min(s.size[b], n))
  }

  /** Memory is exhausted for a relocation: no block that is free after the merge is large enough. */
  ghost predicate Exhausted(s: Shape, b: int, n: int)
    requires Sound(s) && b in s.used
  {
    var m := MergeShape(s, b);
    Relocates(s, b, n) && forall a :: a in m.size && a !in m.used ==> m.size[a] < n
  }

  // ---------------------------------------------------------------- consequences

  /** Once nothing is in use the heap is a single free block again. */
  lemma AllFreeIsWhole(s: Shape)
    requires Sound(s) && s.used == {}
    ensures s.size == map[HEAD := HEAP_SIZE - OVERHEAD] && s.free == [HEAD + 4]
  {
    assert GoodBlock(s.size, HEAD) && NoFreePair(s, HEAD) && UsedXorListed(s, HEAD);
    assert After(s.size, HEAD) == END;
    forall x | x in s.size ensures x == HEAD {
      assert GoodBlock(s.size, x) && Apart(s.size, HEAD, x);
    }
    var i :| 0 <= i < |s.free| && s.free[i] == HEAD + 4;
    forall j | 0 <= j < |s.free| ensures j == i && s.free[j] == HEAD + 4 {
      assert OnBlock(s.size, s.free, s.free[j]) && Differ(s.free, i, j) && Differ(s.free, j, i);
    }
    assert s.free[0] == s.free[|s.free| - 1];
  }

  /** Payloads of different blocks do not overlap, and every payload is aligned and inside the heap. */
  lemma PayloadsDisjoint(s: Shape, a: int, b: int)
    requires Sound(s) && a in s.size && b in s.size
    ensures (a + 4) % 4 == 0 && HEAD + 4 <= a + 4 && a + 4 + s.size[a] <= END - 4
    ensures a != b ==> a + 4 + s.size[a] + OVERHEAD <= b + 4 || b + 4 + s.size[b] + OVERHEAD <= a + 4
  {
    assert GoodBlock(s.size, a) && Apart(s.size, a, b) && Apart(s.size, b, a);
  }

  /** The payload bytes of a set of blocks. */
  ghost function Total(us: set<int>, size: map<int, int>): int
    requires us <= size.Keys
  {
    if us == {} then 0 else
    assert (forall a :: a !in us) ==> us == {};
    var a :| a in us;
    size[a] + Total(us - {a}, size)
  }

  /** It is their sum, in whichever order they are added. */
  lemma {:induction false} TotalTakes(us: set<int>, size: map<int, int>, a: int)
    requires us <= size.Keys && a in us
    ensures Total(us, size) == size[a] + Total(us - {a}, size)
    decreases us
  {
    var b :| b in us && Total(us, size) == size[b] + Total(us - {b}, size);
    if a != b {
      TotalTakes(us - {b}, size, a);
      TotalTakes(us - {a}, size, b);
      assert us - {a} - {b} == us - {b} - {a};
    }
  }

  lemma {:induction false} TotalCovers(us: set<int>, size: map<int, int>, a: int)
    requires us <= size.Keys && a in us && forall x :: x in us ==> size[x] >= 0
    ensures size[a] <= Total(us, size)
    decreases us
  {
    TotalTakes(us, size, a);
    if us != {a} {
      assert (forall b :: b !in us - {a}) ==> us == {a};
      var b :| b in us - {a};
      TotalCovers(us - {a}, size, b);
    }
  }

  ghost function Fresh(): Shape { Shape(map[HEAD := HEAP_SIZE - OVERHEAD], {}, [HEAD + 4]) }
}
