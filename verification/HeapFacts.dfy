/** What the methods of the allocator need to know: bytes and words, what get_previous computes, and how
    the bytes of payloads fare in every step. */
module HeapFacts {
  import opened Common
  import opened MemUtil
  import opened HeapLayout
  import opened HeapOps
  import opened HeapSpec


  /** Halted: an assertion stopped the CPU.  NullCopy: memcpy was called with the payload of a null
      block, after __malloc failed. */
  datatype ReallocResult = Halted | NullCopy | Moved(ptr: int)

  ghost predicate WordHere(m: seq<byte>, w: Words, x: int) {
    0 <= x && x + 4 <= |m| && x in w ==> w[x] == WordAt(m, x)
  }

  /** `w` is the bytes `m` read as words. */
  ghost predicate WordsOf(m: seq<byte>, w: Words) {
    |m| == END && Full(w) && forall x {:trigger WordHere(m, w, x)} :: WordHere(m, w, x)
  }

  /** Replacing the four bytes of one aligned word. */
  lemma StoreWord(m: seq<byte>, m': seq<byte>, w: Words, x: int, v: int)
    requires WordsOf(m, w) && |m'| == END && x in w && 0 <= v < BITS32
    requires m'[x] == ByteOf(v, 0) && m'[x + 1] == ByteOf(v, 1) && m'[x + 2] == ByteOf(v, 2) && m'[x + 3] == ByteOf(v, 3)
    requires forall i :: 0 <= i < END && !(x <= i < x + 4) ==> m'[i] == m[i]
    ensures WordsOf(m', w[x := v])
  {
    BytesMakeWord(v);
    var w' := w[x := v];
    forall y ensures WordHere(m', w', y) {
      assert WordHere(m, w, y);
      if y in w && y != x { assert y + 4 <= x || x + 4 <= y; }
    }
  }

  function ClearFlags(w: int): int { w - w % 4 }

  /** The word at absolute address `x` of memory outside the object. */
  function OutsideWord(outside: int -> byte, x: int): int {
    Compose(outside(x), outside(x + 1), outside(x + 2), outside(x + 3))
  }

  /** Unsigned 32-bit arithmetic. */
  function Wrap(x: int): int { x % BITS32 }

  /** The object lies word-aligned well below the top of the 32-bit address space. */
  predicate Placed(base: int) {
    base % 4 == 0 && 0 < base && base + END + END <= BITS32
  }

  ghost predicate QuietAt(base: int, outside: int -> byte, f: int) {
    0 < f < END ==> ClearFlags(OutsideWord(outside, BITS32 - f)) != base + f
  }

  /** get_previous on the first block takes the sentinel's `next` pointer for a footer and looks for
      a matching header near the top of the address space; it finds none. */
  ghost predicate Quiet(base: int, outside: int -> byte) {
    forall f {:trigger QuietAt(base, outside, f)} :: QuietAt(base, outside, f)
  }

  /** A header word taken apart. */
  lemma HeaderBits(size: int, flag: int)
    requires size % 4 == 0 && 0 <= flag <= 1
    ensures (size + flag) % 4 == (size + flag) % 2 == flag && ClearFlags(size + flag) == size
  {
    var q := size / 4;
    assert size == 4 * q;
    LowBits(q, flag);
  }

  lemma LowBits(q: int, flag: int)
    requires 0 <= flag <= 1
    ensures (4 * q + flag) % 4 == flag && (4 * q + flag) % 2 == flag
  {
    ModFour(q, flag);
    ModTwo(2 * q, flag);
  }

  lemma ModFour(q: int, r: int)
    requires 0 <= r < 4
    ensures (4 * q + r) % 4 == r
  {
  }

  lemma ModTwo(q: int, r: int)
    requires 0 <= r < 2
    ensures (2 * q + r) % 2 == r
  {
  }

  lemma RingNonzero(free: seq<int>)
    requires Spaced(free)
    ensures forall j {:trigger Ring(free)[j + 1]} :: 0 <= j < |free| ==> Ring(free)[j + 1] == free[j] && free[j] > 0
  {
  }

  /** In a represented shape, get_next is the successor in the tiling. */
  lemma NextIsAfter(w: Words, base: int, s: Shape, block: int)
    requires Ok(w, base, s) && block in s.size
    ensures HEAD <= block && block % 4 == 0 && block in w
    ensures ClearFlags(w[block]) == s.size[block] == At(w, block + 4 + s.size[block])
    ensures w[block] % 4 == w[block] % 2 == Flag(s.used, block)
    ensures s.size[block] % 4 == 0 && MIN_BLOCK <= s.size[block] && After(s.size, block) <= END
    ensures After(s.size, block) <= END - OVERHEAD - MIN_BLOCK <==> After(s.size, block) in s.size
  {
    assert GoodBlock(s.size, block) && TagAt(w, s, block);
    HeaderBits(s.size[block], Flag(s.used, block));
    if After(s.size, block) in s.size { assert GoodBlock(s.size, After(s.size, block)); }
  }

  /** The address get_previous computes: the predecessor, or for the first block an address outside
      the object where no matching header is found. */
  lemma PreviousAddress(w: Words, base: int, outside: int -> byte, s: Shape, block: int)
    requires Ok(w, base, s) && block in s.size && Placed(base) && Quiet(base, outside)
    ensures block - 4 in w
    ensures var addr := Wrap(base + block - 4 - w[block - 4] - 4);
            && addr % 4 == 0
            && (block == HEAD ==> !(base <= addr < base + END))
            && (block == HEAD ==> addr == 0 || ClearFlags(OutsideWord(outside, addr)) != w[block - 4])
            && (block != HEAD ==> HasPred(s.size, block)
                                  && addr == base + PredOf(s.size, block)
                                  && HEAD <= addr - base < END
                                  && ClearFlags(At(w, addr - base)) == w[block - 4])
  {
    if block == HEAD {
      FirstAddress(w, base, outside, s);
    } else {
      FooterAddress(w, base, s, block);
    }
  }

  lemma FirstAddress(w: Words, base: int, outside: int -> byte, s: Shape)
    requires Ok(w, base, s) && Placed(base) && Quiet(base, outside)
    ensures 4 in w
    ensures var addr := Wrap(base + 4 - w[4] - 4);
            && addr % 4 == 0 && !(base <= addr < base + END)
            && (addr == 0 || ClearFlags(OutsideWord(outside, addr)) != w[4])
  {
    FirstPointer(w, base, s);
    var f := w[4] - base;
    assert QuietAt(base, outside, f);
    assert f > 0 ==> Wrap(-f) == BITS32 - f;
  }

  lemma FooterAddress(w: Words, base: int, s: Shape, block: int)
    requires Ok(w, base, s) && block in s.size && block != HEAD && Placed(base)
    ensures block - 4 in w && HasPred(s.size, block)
    ensures var p := PredOf(s.size, block);
            && p in w && HEAD <= p && Wrap(base + block - 4 - w[block - 4] - 4) == base + p
            && ClearFlags(w[p]) == w[block - 4]
  {
    assert GoodBlock(s.size, block) && HasPred(s.size, block);
    var p := PredOf(s.size, block);
    assert GoodBlock(s.size, p) && TagAt(w, s, p);
  }

  lemma FirstPointer(w: Words, base: int, s: Shape)
    requires Ok(w, base, s)
    ensures 4 in w && (w[4] - base) % 4 == 0 && 0 <= w[4] - base < END
    ensures s.free == [] ==> w[4] == base
    ensures s.free != [] ==> w[4] == base + s.free[0]
  {
    NodesSpaced(s);
    assert LinkAt(w, base, Ring(s.free), 0);
  }

  lemma NodePointers(w: Words, base: int, s: Shape, k: int)
    requires Ok(w, base, s) && 0 <= k < |s.free|
    ensures s.free[k] in w && s.free[k] + 4 in w
    ensures w[s.free[k]] - base + 4 in w && w[s.free[k] + 4] - base in w
  {
    var r := Ring(s.free);
    NodesSpaced(s);
    assert LinkAt(w, base, r, k) && LinkAt(w, base, r, k + 1) && r[k + 1] == s.free[k];
    assert r[k] == 0 || r[k] == s.free[k - 1];
    assert r[k + 2] == 0 || r[k + 2] == s.free[k + 1];
  }

  /** What the search for a free block reads at the `k`-th node: the size of its block, and the next node. */
  lemma NodeReads(w: Words, base: int, s: Shape, k: int)
    requires Ok(w, base, s) && 0 <= k < |s.free|
    ensures var a := s.free[k] - 4;
            && Ring(s.free)[k + 1] == s.free[k] && s.free[k] > 0
            && a in s.size && a in w && ClearFlags(w[a]) == s.size[a]
            && s.free[k] + 4 in w && w[s.free[k] + 4] == base + Ring(s.free)[k + 2]
  {
    NodesSpaced(s);
    assert OnBlock(s.size, s.free, s.free[k]);
    NextIsAfter(w, base, s, s.free[k] - 4);
    NodePointers(w, base, s, k);
    assert LinkAt(w, base, Ring(s.free), k + 1);
  }

  lemma RingEnds(free: seq<int>)
    ensures |Ring(free)| == |free| + 2 && Ring(free)[|free| + 1] == 0
  {
  }

  /** Nothing to merge: the shape stays as it is. */
  lemma MergeNothing(s: Shape, b: int)
    requires Sound(s) && b in s.used
    requires MergeStart(s, b) == b && MergeEnd(s, b) == After(s.size, b)
    ensures MergeShape(s, b) == s
  {
    assert UsedXorListed(s, b);
    MergeRange(s, b);
    UnlistedEnd(s, b);
    assert Fused(s.size, b, After(s.size, b)) == s.size;
  }

  lemma UnlistedUsed(s: Shape)
    requires Sound(s)
    ensures Unlisted(s) == s.used
  {
    forall u | u in s.size ensures u in Unlisted(s) <==> u in s.used {
      assert UsedXorListed(s, u);
    }
  }

  /** The block is not listed; its predecessor, if any, is listed exactly if it is free. */
  ghost predicate PrevListed(s: Shape, b: int) {
    && b + 4 !in s.free
    && (b != HEAD ==> HasPred(s.size, b) && (PredOf(s.size, b) in s.used <==> PredOf(s.size, b) + 4 !in s.free))
  }

  /** The successor is listed exactly if it is a free block. */
  ghost predicate NextListed(s: Shape, b: int)
    requires b in s.size
  {
    MergeEnd(s, b) == After(s.size, b) <==> After(s.size, b) + 4 !in s.free
  }

  lemma SoundPrevListed(s: Shape, b: int)
    requires Sound(s) && b in s.used
    ensures PrevListed(s, b)
  {
    assert UsedXorListed(s, b);
    if b != HEAD {
      assert HasPred(s.size, b);
      assert UsedXorListed(s, PredOf(s.size, b));
    }
  }

  /** What try_merge relies on from step to step. */
  ghost predicate Mergeable(s: Shape, b: int)
    requires Tiled(s.size) && b in s.size
  {
    var t := Unlinked(s, MergeStart(s, b));
    var a, e := MergeStart(s, b), MergeEnd(s, b);
    && PrevListed(s, b) && NextListed(t, b)
    && s.used <= Unlisted(s) && s.used <= Unlisted(t)
    && a in s.size && a <= b < After(s.size, b) <= e && (e == END || e in s.size)
    && RangeUnlisted(s.size, MergeList(s, b), a, e)
    && (a == b && e == After(s.size, b) ==> MergeShape(s, b) == s)
  }

  lemma MergePlan(s: Shape, b: int)
    requires Sound(s) && b in s.used
    ensures Mergeable(s, b) && Sound(MergeShape(s, b))
  {
    MergeLists(s, b, Unlinked(s, MergeStart(s, b)));
    MergeRange(s, b);
    MergeListed(s, b);
    MergeSound(s, b);
    UnlistedEnd(s, b);
    if MergeStart(s, b) == b && MergeEnd(s, b) == After(s.size, b) { MergeNothing(s, b); }
  }

  lemma MergeLists(s: Shape, b: int, t: Shape)
    requires Sound(s) && b in s.used && t == Unlinked(s, MergeStart(s, b))
    ensures PrevListed(s, b) && NextListed(t, b) && s.used <= Unlisted(s) && s.used <= Unlisted(t)
  {
    SoundPrevListed(s, b);
    UnlistedUsed(s);
    WithoutNodes(s, MergeStart(s, b) + 4);
    MergeRange(s, b);
    UnlistedEnd(s, b);
  }

  lemma KeptBoth(w: Words, w': Words, w'': Words, s: Shape, b: int)
    requires Tiled(s.size) && b in s.size && Mergeable(s, b)
    requires Kept(w, w', s.size, Unlisted(s))
    requires Kept(w', w'', s.size, Unlisted(Unlinked(s, MergeStart(s, b))))
    ensures Kept(w, w'', s.size, s.used)
  {
    KeptTrans(w, w', w'', s.size, Unlisted(Unlinked(s, MergeStart(s, b))), s.used);
  }

  /** A successor that is not free is not listed. */
  lemma UnlistedEnd(s: Shape, b: int)
    requires Sound(s) && b in s.size
    ensures MergeEnd(s, b) == After(s.size, b) <==> After(s.size, b) + 4 !in s.free
  {
    var m := After(s.size, b);
    if m in s.size {
      assert UsedXorListed(s, m) && GoodBlock(s.size, m);
    } else {
      assert OnBlock(s.size, s.free, m + 4);
    }
  }

  /** What the writes of maybe_split_block need, in terms of the words alone. */
  lemma CutReads(w: Words, base: int, a: int, front: int, c: int, first: int)
    requires Full(w) && HEAD <= a && a % 4 == 0 && front % 4 == 0 && MIN_BLOCK <= front
    requires c == a + OVERHEAD + front && c + OVERHEAD + MIN_BLOCK <= END
    requires first in w && first == w[4] - base && (first < a || c <= first)
    ensures var w1 := PutSize(w, a, front, 0);
            var w2 := Inserted(w1, base, a + 4);
            && Full(w1) && Full(w2)
            && At(w1, 4) - base in w1 && w1[a] % 2 == 0
            && w2[a] == w2[c - 4] == front == ClearFlags(w2[a])
  {
    HeaderBits(front, 0);
  }

  /** What maybe_split_block reads and writes on its way. */
  lemma SplitPoint(w: Words, base: int, s: Shape, a: int, c: int)
    requires Ok(w, base, s) && a in s.used && a + 4 !in s.free
    requires c % 4 == 0 && a + OVERHEAD + MIN_BLOCK <= c && c + OVERHEAD + MIN_BLOCK <= After(s.size, a)
    ensures var w1 := PutSize(w, a, c - a - OVERHEAD, 0);
            var w2 := Inserted(w1, base, a + 4);
            && Full(w1) && Full(w2)
            && At(w1, 4) - base in w1 && w1[a] % 2 == 0
            && w2[a] == w2[c - 4] == c - a - OVERHEAD == ClearFlags(w2[a])
    ensures After(s.size, a) <= END && HEAD <= a && a % 4 == 0
  {
    assert GoodBlock(s.size, a);
    FirstPointer(w, base, s);
    FirstLink(w, base, s.free);
    LinkInPayload(s, w[4] - base, a);
    CutReads(w, base, a, c - a - OVERHEAD, c, w[4] - base);
  }

  /** The words after maybe_split_block. */
  function SplitResult(w: Words, base: int, s: Shape, a: int, n: int): Words
    requires a in s.size
  {
    if Splits(s, a, n) then SplitWords(w, base, a, SplitAddr(s, a, n), After(s.size, a)) else w
  }

  /** The writes of a split: tags of the front, list insertion, tags of the back. */
  function CutResult(w: Words, base: int, a: int, front: int, need: int): Words {
    PutSize(Inserted(PutSize(w, a, front, 0), base, a + 4), a + OVERHEAD + front, need, 1)
  }

  /** What these writes need, and that get_next finds the back part in between. */
  ghost predicate CanCut(w: Words, base: int, a: int, front: int, need: int) {
    && HEAD <= a && a % 4 == 0 && front % 4 == 0 && need % 4 == 0 && MIN_BLOCK <= front && MIN_BLOCK <= need
    && a + front + need + 2 * OVERHEAD <= END
    && var w1 := PutSize(w, a, front, 0);
       var w2 := Inserted(w1, base, a + 4);
       && Full(w1) && Full(w2) && At(w1, 4) - base in w1 && w1[a] % 2 == 0
       && w2[a] == w2[a + 4 + front] == front == ClearFlags(w2[a])
  }

  lemma SplitPlan(w: Words, base: int, s: Shape, a: int, n: int, front: int, need: int)
    requires WellFormed(w, base, s) && a in s.used && 0 < n && Splits(s, a, n)
    requires need == Need(n) && need % 4 == 0 && MIN_BLOCK <= need && front == s.size[a] - need - OVERHEAD
    ensures CanCut(w, base, a, front, need) && SplitAddr(s, a, n) == a + OVERHEAD + front
    ensures SplitResult(w, base, s, a, n) == CutResult(w, base, a, front, need)
    ensures Ok(SplitResult(w, base, s, a, n), base, SplitShape(s, a, n))
    ensures Kept(w, SplitResult(w, base, s, a, n), s.size, s.used - {a})
  {
    hide Linked;
    hide Tagged;
    hide Nodes;
    hide Coalesced;
    hide Kept;
    assert GoodBlock(s.size, a) && UsedXorListed(s, a);
    UnlistedUsed(s);
    SplitPoint(w, base, s, a, a + OVERHEAD + front);
    SplitOk(w, base, s, a, a + OVERHEAD + front);
  }

  lemma PositionAt(s: Shape, k: int)
    requires Nodes(s) && 0 <= k < |s.free|
    ensures Position(s.free, s.free[k]) == k && Delete(s.free, s.free[k]) == Drop(s.free, k)
  {
    var p := Position(s.free, s.free[k]);
    assert Differ(s.free, p, k) && Differ(s.free, k, p);
  }

  lemma FreeBlocksListed(s: Shape)
    requires Sound(s)
    ensures forall a :: a in s.size && a !in s.used ==> a + 4 in s.free
    ensures forall i :: 0 <= i < |s.free| ==> s.free[i] - 4 in s.size && s.free[i] - 4 !in s.used
  {
    forall a | a in s.size && a !in s.used ensures a + 4 in s.free {
      assert UsedXorListed(s, a);
    }
    forall i | 0 <= i < |s.free| ensures s.free[i] - 4 in s.size && s.free[i] - 4 !in s.used {
      assert OnBlock(s.size, s.free, s.free[i]) && UsedXorListed(s, s.free[i] - 4);
    }
  }

  /** The payload bytes of the blocks in `us` are the same in both images. */
  ghost predicate SamePayloadBytes(m: seq<byte>, m': seq<byte>, s: Shape, us: set<int>) {
    forall u, i :: u in us && u in s.size && u + 4 <= i < u + 4 + s.size[u] && 0 <= i < |m| && i < |m'| ==> m'[i] == m[i]
  }

  lemma BytesTrans(m: seq<byte>, m': seq<byte>, m'': seq<byte>, s: Shape, t: Shape, us: set<int>)
    requires |m| == |m'| == |m''| && SamePayloadBytes(m, m', s, us) && SamePayloadBytes(m', m'', t, us)
    requires forall u :: u in us ==> u in s.size && u in t.size && t.size[u] == s.size[u]
    ensures SamePayloadBytes(m, m'', s, us)
  {
  }

  /** Words that agree on a payload mean bytes that agree on it. */
  lemma KeptBytes(m: seq<byte>, w: Words, m': seq<byte>, w': Words, s: Shape, us: set<int>)
    requires WordsOf(m, w) && WordsOf(m', w') && Tiled(s.size) && us <= s.size.Keys && Kept(w, w', s.size, us)
    ensures SamePayloadBytes(m, m', s, us)
  {
    forall u, i | u in us && u in s.size && u + 4 <= i < u + 4 + s.size[u] && 0 <= i < |m| && i < |m'|
      ensures m'[i] == m[i]
    {
      KeptByte(m, w, m', w', s, u, i);
    }
  }

  lemma KeptByte(m: seq<byte>, w: Words, m': seq<byte>, w': Words, s: Shape, u: int, i: int)
    requires WordsOf(m, w) && WordsOf(m', w') && Tiled(s.size) && KeptAt(w, w', s.size, u)
    requires u + 4 <= i < u + 4 + s.size[u]
    ensures 0 <= i < END && m'[i] == m[i]
  {
    assert GoodBlock(s.size, u);
    var x := WordStart(i);
    WordInPayload(u, s.size[u], i, x);
    ByteByWord(m, w, m', w', i, x);
  }

  /** The word that holds byte `i`. */
  lemma WordStart(i: int) returns (x: int)
    ensures x % 4 == 0 && x <= i < x + 4
  {
    x := i - i % 4;
  }

  lemma WordInPayload(u: int, size: int, i: int, x: int)
    requires u % 4 == 0 && size % 4 == 0 && x % 4 == 0 && x <= i < x + 4 && u + 4 <= i < u + 4 + size
    ensures u + 4 <= x && x + 4 <= u + 4 + size
  {
  }

  lemma ByteByWord(m: seq<byte>, w: Words, m': seq<byte>, w': Words, i: int, x: int)
    requires WordsOf(m, w) && WordsOf(m', w') && 0 <= x && x % 4 == 0 && x <= i < x + 4 && x + 4 <= END
    requires At(w, x) == At(w', x)
    ensures m'[i] == m[i]
  {
    assert WordHere(m, w, x) && WordHere(m', w', x);
    WordMakesBytes(m, m', x);
  }

  lemma SameBytes(m: seq<byte>, m': seq<byte>, w: Words)
    requires WordsOf(m, w) && WordsOf(m', w)
    ensures m == m'
  {
    forall i | 0 <= i < END ensures m[i] == m'[i] {
      var x := WordStart(i);
      ByteByWord(m, w, m', w, i, x);
    }
  }

  ghost function ImageOf(m: seq<byte>): Words
    requires |m| == END
  {
    map x | 0 <= x < END && x % 4 == 0 :: WordAt(m, x)
  }

  lemma ImageIsWords(m: seq<byte>)
    requires |m| == END
    ensures WordsOf(m, ImageOf(m))
  {
    forall x ensures WordHere(m, ImageOf(m), x) { }
  }

  lemma RewrittenWord(m: seq<byte>, m': seq<byte>, w: Words, lo: int, hi: int, x: int)
    requires WordsOf(m, w) && |m'| == END && lo % 4 == 0 && hi % 4 == 0 && !(lo <= x < hi)
    requires forall i :: 0 <= i < END && !(lo <= i < hi) ==> m'[i] == m[i]
    ensures At(ImageOf(m'), x) == At(w, x)
  {
    assert WordHere(m, w, x);
    if x in w {
      WordsApart(lo, x);
      WordsApart(x, hi);
      assert forall i :: x <= i < x + 4 ==> m'[i] == m[i];
    }
  }

  lemma WordsApart(x: int, y: int)
    requires x % 4 == 0 && y % 4 == 0
    ensures x < y ==> x + 4 <= y
  {
  }

  lemma Rewritten(m: seq<byte>, m': seq<byte>, w: Words, base: int, s: Shape, u: int)
    requires WordsOf(m, w) && |m'| == END && Ok(w, base, s) && u in s.size && u + 4 !in s.free
    requires forall i :: 0 <= i < END && !(u + 4 <= i < u + 4 + s.size[u]) ==> m'[i] == m[i]
    ensures WordsOf(m', ImageOf(m')) && Ok(ImageOf(m'), base, s)
    ensures Kept(w, ImageOf(m'), s.size, s.size.Keys - {u})
  {
    var w' := ImageOf(m');
    assert GoodBlock(s.size, u);
    ImageIsWords(m');
    forall x | !(u + 4 <= x < u + 4 + s.size[u]) ensures At(w', x) == At(w, x) {
      RewrittenWord(m, m', w, u + 4, u + 4 + s.size[u], x);
    }
    StoreOk(w, w', base, s, u);
  }

  /** The first `n` payload bytes of the block `c` are those the block `b` had. */
  ghost predicate SamePrefix(m: seq<byte>, b: int, m': seq<byte>, c: int, n: int) {
    forall i :: c + 4 <= i < c + 4 + n && 0 <= i < |m'| && 0 <= i - c + b < |m| ==> m'[i] == m[i - c + b]
  }

  /** Releasing the source keeps the copy. */
  lemma Copied(m1: seq<byte>, m2: seq<byte>, m3: seq<byte>, s: Shape, block: int, merged: int, u: int, len: int)
    requires Sound(s) && |m1| == |m2| == |m3| == END && u in s.used && u != merged && 0 <= len <= s.size[u]
    requires SamePrefix(m1, block, m2, u, len) && SamePayloadBytes(m2, m3, s, s.used - {merged})
    ensures SamePrefix(m1, block, m3, u, len)
  {
    forall i | u + 4 <= i < u + 4 + len && 0 <= i < END && 0 <= i - u + block < END
      ensures m3[i] == m1[i - u + block]
    {
      assert m3[i] == m2[i];
    }
  }

  /** A relocation out of the used block `merged`: where the result lies, the new shape, every other
      payload unchanged, and the first `len` bytes from behind `block` carried over. */
  ghost predicate MoveDone(m: seq<byte>, s: Shape, m': seq<byte>, s': Shape, k: int, n: int,
                           block: int, merged: int, len: int, r: int) {
    && FirstFit(s, k, n) && r == AllocAddr(s, k, n) && s' == MovedShape(s, k, n, merged)
    && SamePayloadBytes(m, m', s, s.used - {merged})
    && SamePrefix(m, block, m', r, len)
  }

  /** The bytes before and after a relocation, through the image `m1` after its malloc. */
  lemma Relocated(m0: seq<byte>, m1: seq<byte>, m3: seq<byte>, s: Shape, k: int, n: int, block: int, merged: int, len: int)
    requires |m0| == |m1| == |m3| == END && Sound(s) && merged in s.used && 0 < n && FirstFit(s, k, n)
    requires merged <= block && block + len <= merged + s.size[merged]
    requires SamePayloadBytes(m0, m1, s, s.used)
    requires var t, u := AllocShape(s, k, n), AllocAddr(s, k, n);
             SamePayloadBytes(m1, m3, t, t.used - {merged, u}) && SamePrefix(m1, block, m3, u, len)
    ensures MoveDone(m0, s, m3, MovedShape(s, k, n, merged), k, n, block, merged, len, AllocAddr(s, k, n))
  {
    AllocSound(s, k, n);
    var u := AllocAddr(s, k, n);
    BytesTrans(m0, m1, m3, s, AllocShape(s, k, n), s.used - {merged});
    forall i | u + 4 <= i < u + 4 + len && 0 <= i < END && 0 <= i - u + block < END
      ensures m3[i] == m0[i - u + block]
    {
      assert m1[i - u + block] == m0[i - u + block];
    }
  }

  /** After a relocation: the block allocated, the merged block free. */
  ghost function MovedShape(s: Shape, k: int, n: int, merged: int): Shape
    requires FirstFit(s, k, n)
  {
    var t := AllocShape(s, k, n);
    t.(used := t.used - {merged}, free := [merged + 4] + t.free)
  }

  /** The block `d` has the first `len` payload bytes `b` had, or one of them is lost. */
  ghost predicate Outcome(base: int, m: seq<byte>, m': seq<byte>, d: int, b: int, a: int, c: int, need: int, len: int) {
    && (Spared(b, a, c, len) ==> SamePrefix(m, b, m', d, len))
    && (!Spared(b, a, c, len) ==>
          var (k, v) := Overwritten(base, b, a, c, need);
          0 <= k < len && 0 <= d + 4 + k < |m'| && 0 <= v < BITS32 && m'[d + 4 + k] == ByteOf(v, 0))
  }

  /** Moving the payload afterwards moves the outcome with it. */
  lemma MoveOutcome(base: int, m: seq<byte>, m1: seq<byte>, m2: seq<byte>, s: Shape, d: int,
                    b: int, a: int, c: int, need: int, len: int, n: int)
    requires |m| == |m1| == |m2| == END && Sound(s) && d in s.used && len <= n <= s.size[d] && 0 <= b && b + 4 + len <= END
    requires Outcome(base, m, m1, b, b, a, c, need, len) && SamePrefix(m1, b, m2, d, n)
    ensures Outcome(base, m, m2, d, b, a, c, need, len)
  {
    PayloadsDisjoint(s, d, d);
    if Spared(b, a, c, len) {
      forall i | d + 4 <= i < d + 4 + len && 0 <= i < END && 0 <= i - d + b < END ensures m2[i] == m[i - d + b] {
        assert m2[i] == m1[i - d + b];
      }
    } else {
      var (k, v) := Overwritten(base, b, a, c, need);
      assert m2[d + 4 + k] == m1[d + 4 + k - d + b];
    }
  }

  /** What maybe_split_block does to bytes inside the payload of the block it splits. */
  lemma SplitBytes(m: seq<byte>, w: Words, m': seq<byte>, w': Words, base: int, s: Shape, a: int, n: int, b: int, len: int)
    requires WordsOf(m, w) && WordsOf(m', w') && WellFormed(w, base, s) && Placed(base)
    requires a in s.used && 0 < n <= s.size[a] && w' == SplitResult(w, base, s, a, n)
    requires a == b || a + OVERHEAD + MIN_BLOCK <= b
    requires b % 4 == 0 && b + len <= a + s.size[a] && 0 < len
    ensures Outcome(base, m, m', b, b, a, SplitAddr(s, a, n), Need(n), len)
  {
    hide Outcome;
    hide Linked;
    hide Tagged;
    hide Nodes;
    hide Coalesced;
    hide PutSize;
    hide Inserted;
    hide WordsOf;
    var c := SplitAddr(s, a, n);
    assert GoodBlock(s.size, a) && UsedXorListed(s, a);
    if Splits(s, a, n) {
      CutBytes(m, w, m', w', base, s, a, c, Need(n), b, len);
    } else {
      UncutBytes(base, m, w, m', b, a, c, Need(n), len);
    }
  }

  lemma UncutBytes(base: int, m: seq<byte>, w: Words, m': seq<byte>, b: int, a: int, c: int, need: int, len: int)
    requires WordsOf(m, w) && WordsOf(m', w) && Spared(b, a, c, len)
    ensures Outcome(base, m, m', b, b, a, c, need, len)
  {
    SamePrefixRefl(m, w, m', b, len);
  }

  lemma CutBytes(m: seq<byte>, w: Words, m': seq<byte>, w': Words, base: int, s: Shape, a: int, c: int, need: int, b: int, len: int)
    requires WordsOf(m, w) && WordsOf(m', w') && Ok(w, base, s) && Placed(base) && a in s.size && a + 4 !in s.free
    requires GoodBlock(s.size, a) && w' == SplitWords(w, base, a, c, After(s.size, a)) && c + need + OVERHEAD == After(s.size, a)
    requires c % 4 == 0 && a + OVERHEAD + MIN_BLOCK <= c && MIN_BLOCK <= need
    requires a == b || a + OVERHEAD + MIN_BLOCK <= b
    requires b % 4 == 0 && b + len <= a + s.size[a] && 0 < len
    ensures Outcome(base, m, m', b, b, a, c, need, len)
  {
    SplitTouches(w, base, s, a, c);
    if Spared(b, a, c, len) {
      SplitSpares(m, w, m', w', s, a, b, c, len);
    } else {
      SplitLoses(m', w', base, s, a, b, c, need, len);
    }
  }

  lemma SplitSpares(m: seq<byte>, w: Words, m': seq<byte>, w': Words, s: Shape, a: int, b: int, c: int, len: int)
    requires WordsOf(m, w) && WordsOf(m', w') && GoodBlock(s.size, a) && a < c && a < b && Spared(b, a, c, len)
    requires a + OVERHEAD + MIN_BLOCK <= b && b % 4 == 0 && c % 4 == 0 && b + len <= a + s.size[a]
    requires forall x :: a + 4 <= x < a + 4 + s.size[a] && x != a + 4 && x != a + 8 && x != c - 4 && x != c ==>
               At(w', x) == At(w, x)
    ensures SamePrefix(m, b, m', b, len)
  {
    forall i | b + 4 <= i < b + 4 + len && 0 <= i < |m'| ensures m'[i] == m[i] {
      var x := WordStart(i);
      WordInPayload(a, s.size[a], i, x);
      ByteByWord(m, w, m', w', i, x);
    }
  }

  lemma SplitLoses(m': seq<byte>, w': Words, base: int, s: Shape, a: int, b: int, c: int, need: int, len: int)
    requires WordsOf(m', w') && GoodBlock(s.size, a) && Placed(base) && 0 < need
    requires a + OVERHEAD + MIN_BLOCK <= c && c % 4 == 0 && b % 4 == 0 && !Spared(b, a, c, len)
    requires (a == b || a + OVERHEAD + MIN_BLOCK <= b) && 0 < len && b + len <= a + s.size[a]
    requires c + need + OVERHEAD == After(s.size, a)
    requires At(w', a + 4) == base && At(w', c - 4) == c - a - OVERHEAD && At(w', c) == need + 1
    ensures var (k, v) := Overwritten(base, b, a, c, need);
            0 <= k < len && 0 <= b + 4 + k < |m'| && 0 <= v < BITS32 && m'[b + 4 + k] == ByteOf(v, 0)
  {
    var (k, v) := Overwritten(base, b, a, c, need);
    assert WordHere(m', w', b + 4 + k);
    LowByte(m', b + 4 + k);
  }

  lemma SamePrefixRefl(m: seq<byte>, w: Words, m': seq<byte>, b: int, len: int)
    requires WordsOf(m, w) && WordsOf(m', w)
    ensures SamePrefix(m, b, m', b, len)
  {
    SameBytes(m, m', w);
  }

  lemma LowByte(m: seq<byte>, x: int)
    requires 0 <= x && x + 4 <= |m|
    ensures m[x] == ByteOf(WordAt(m, x), 0)
  {
  }

  /** The words of a payload that a split changes, and to what. */
  lemma SplitTouches(w: Words, base: int, s: Shape, a: int, c: int)
    requires Ok(w, base, s) && a in s.size && a + 4 !in s.free
    requires c % 4 == 0 && a + OVERHEAD + MIN_BLOCK <= c && c + OVERHEAD + MIN_BLOCK <= After(s.size, a)
    ensures var w' := SplitWords(w, base, a, c, After(s.size, a));
            && At(w', a + 4) == base
            && At(w', c - 4) == c - a - OVERHEAD
            && At(w', c) == After(s.size, a) - c - OVERHEAD + 1
            && forall x :: a + 4 <= x < a + 4 + s.size[a] && x != a + 4 && x != a + 8 && x != c - 4 && x != c ==>
                 At(w', x) == At(w, x)
  {
    assert GoodBlock(s.size, a);
    FirstPointer(w, base, s);
    var first := w[4] - base;
    assert IsLink(s.free, first);
    LinkInPayload(s, first, a);
  }

  /** What a realloc of the used block `b` to `n` bytes leaves: a used block `r` of at least that
      size in place of `b`, every other used block and its payload as they were, and the first
      min(old, new) bytes, unless a split has to lose one of them. */
  ghost predicate ReallocDone(base: int, m: seq<byte>, s: Shape, m': seq<byte>, s': Shape, b: int, n: int, r: int)
    requires Sound(s) && b in s.used
  {
    && r in s'.used && r in s'.size && n <= s'.size[r] <= Max(n + 3, 8) + 15 && s'.used == s.used - {b} + {r}
    && (forall u :: u in s.used && u != b ==> u != r && u in s'.size && s'.size[u] == s.size[u])
    && SamePayloadBytes(m, m', s, s.used - {b})
    && (KeepsContent(s, b, n) ==> SamePrefix(m, b, m', r, Min(s.size[b], n)))
    && (!KeepsContent(s, b, n) ==>
          var (k, v) := Overwritten(base, b, MergeStart(s, b), r, Need(n));
          0 <= k < Min(s.size[b], n) && 0 <= r + 4 + k < |m'| && 0 <= v < BITS32 && m'[r + 4 + k] == ByteOf(v, 0))
  }

  /** A merged predecessor leaves room for a header, a list node and a footer in front of the payload. */
  lemma MergeGap(s: Shape, b: int)
    requires Sound(s) && b in s.used
    ensures var a := MergeStart(s, b);
            && (a == b || a + OVERHEAD + MIN_BLOCK <= b) && b % 4 == 0 && HEAD <= a <= b
            && b + s.size[b] <= a + (MergeEnd(s, b) - a - OVERHEAD) && MIN_BLOCK <= s.size[b]
            && a in MergeShape(s, b).size && MergeShape(s, b).size[a] == MergeEnd(s, b) - a - OVERHEAD
  {
    MergeRange(s, b);
    assert GoodBlock(s.size, b) && GoodBlock(s.size, MergeStart(s, b));
  }

  /** The payloads that survive the merge, seen from before it. */
  lemma MergeBytes(m0: seq<byte>, s: Shape, m1: seq<byte>, m3: seq<byte>, b: int)
    requires |m0| == |m1| == |m3| && Sound(s) && b in s.used
    requires SamePayloadBytes(m0, m1, s, s.used)
    requires SamePayloadBytes(m1, m3, MergeShape(s, b), MergeShape(s, b).used - {MergeStart(s, b)})
    ensures SamePayloadBytes(m0, m3, s, s.used - {b})
  {
    MergeSound(s, b);
    BytesTrans(m0, m1, m3, s, MergeShape(s, b), s.used - {b});
  }

  lemma PrefixFrom(m0: seq<byte>, m1: seq<byte>, m3: seq<byte>, s: Shape, b: int, r: int, len: int)
    requires |m0| == |m1| == |m3| && b in s.used && b in s.size && len <= s.size[b]
    requires SamePayloadBytes(m0, m1, s, s.used) && SamePrefix(m1, b, m3, r, len)
    ensures SamePrefix(m0, b, m3, r, len)
  {
    forall i | r + 4 <= i < r + 4 + len && 0 <= i < |m3| && 0 <= i - r + b < |m0| ensures m3[i] == m0[i - r + b] {
      assert m1[i - r + b] == m0[i - r + b];
    }
  }

  lemma MoveIsDone(base: int, m0: seq<byte>, s: Shape, m1: seq<byte>, m3: seq<byte>, s': Shape, b: int, n: int, k: int, r: int)
    requires |m0| == |m1| == |m3| && Sound(s) && b in s.used && 0 < n && Relocates(s, b, n)
    requires SamePayloadBytes(m0, m1, s, s.used)
    requires MoveDone(m1, MergeShape(s, b), m3, s', k, n, b, MergeStart(s, b), s.size[b], r)
    ensures ReallocDone(base, m0, s, m3, s', b, n, r)
  {
    MergeSound(s, b);
    AllocSound(MergeShape(s, b), k, n);
    MergeBytes(m0, s, m1, m3, b);
    MergeGap(s, b);
    PrefixFrom(m0, m1, m3, s, b, r, s.size[b]);
  }

  lemma ReuseIsDone(base: int, m0: seq<byte>, s: Shape, m1: seq<byte>, m3: seq<byte>, s': Shape, b: int, n: int, r: int)
    requires |m0| == |m1| == |m3| && Sound(s) && b in s.used && 0 < n && !Relocates(s, b, n)
    requires SamePayloadBytes(m0, m1, s, s.used)
    requires SamePayloadBytes(m1, m3, MergeShape(s, b), MergeShape(s, b).used - {MergeStart(s, b)})
    requires MergeStart(s, b) in MergeShape(s, b).size
    requires s' == SplitShape(MergeShape(s, b), MergeStart(s, b), n) && r == ReuseAddr(s, b, n)
    requires Outcome(base, m1, m3, r, b, MergeStart(s, b), r, Need(n), Min(s.size[b], n))
    ensures ReallocDone(base, m0, s, m3, s', b, n, r)
  {
    MergeSound(s, b);
    SplitSound(MergeShape(s, b), MergeStart(s, b), n);
    MergeBytes(m0, s, m1, m3, b);
    if KeepsContent(s, b, n) { PrefixFrom(m0, m1, m3, s, b, r, Min(s.size[b], n)); }
  }

  // ---------------------------------------------------------------- pointers that pass for used blocks

  /** The test of free and realloc: the block lies in the heap and the used bit of its header is set. */
  predicate Passes(m: seq<byte>, ptr: int) {
    HEAD <= ptr - 4 <= END - OVERHEAD - MIN_BLOCK && ptr - 4 < |m| && m[ptr - 4] % 2 == 1
  }

  lemma LowBit(b0: int, b1: int, b2: int, b3: int)
    ensures Compose(b0, b1, b2, b3) % 2 == b0 % 2
  {
    ModTwo(b0 / 2 + 0x80 * b1 + 0x8000 * b2 + 0x80_0000 * b3, b0 % 2);
  }

  lemma HeaderByte(m: seq<byte>, w: Words, x: int)
    requires WordsOf(m, w) && x in w
    ensures 0 <= x && x + 4 <= |m| && m[x] % 2 == w[x] % 2
  {
    assert WordHere(m, w, x);
    LowBit(m[x], m[x + 1], m[x + 2], m[x + 3]);
  }

  /** The test is exact on the blocks there are, and so it goes wrong exactly on other places in the
      heap where an odd byte lies. */
  lemma PassesIfUsed(m: seq<byte>, w: Words, base: int, s: Shape, ptr: int)
    requires WordsOf(m, w) && Ok(w, base, s)
    ensures ptr - 4 in s.size ==> (Passes(m, ptr) <==> ptr - 4 in s.used)
    ensures (Passes(m, ptr) <==> ptr - 4 in s.used) <==> (ptr - 4 in s.size || !Passes(m, ptr))
  {
    if ptr - 4 in s.size {
      assert GoodBlock(s.size, ptr - 4);
      NextIsAfter(w, base, s, ptr - 4);
      HeaderByte(m, w, ptr - 4);
    }
  }

  /** A free predecessor takes the block over when it is freed. */
  ghost predicate Absorbed(s: Shape, b: int)
    requires Tiled(s.size) && b in s.size
  {
    MergeStart(s, b) != b
  }

  /** An absorbed block has left its header behind, used bit and all. */
  ghost predicate Stale(w: Words, s: Shape, b: int)
    requires Tiled(s.size) && b in s.size
  {
    Absorbed(s, b) ==> At(w, b) == s.size[b] + 1
  }

  lemma StaleFused(w: Words, base: int, t: Shape, s: Shape, b: int, a: int, e: int)
    requires Ok(w, base, t) && t.size == s.size && b in t.used
    requires a < b < After(s.size, b) <= e
    ensures At(w, b) == s.size[b] + 1
    ensures At(PutSize(w, a, e - a - OVERHEAD, 1), b) == s.size[b] + 1
  {
    assert TagAt(w, t, b) && GoodBlock(s.size, b);
  }

  /** Beyond its list node the payload of `a` stays as it is. */
  ghost predicate InnerKept(w: Words, w': Words, size: map<int, int>, a: int) {
    a in size && forall x :: a + 12 <= x < a + 4 + size[a] ==> At(w', x) == At(w, x)
  }

  lemma InsertSpares(w: Words, base: int, s: Shape, a: int)
    requires Ok(w, base, s) && a in s.size && a + 4 !in s.free
    ensures InnerKept(w, Inserted(w, base, a + 4), s.size, a)
  {
    assert GoodBlock(s.size, a);
    FirstLink(w, base, s.free);
    LinkInPayload(s, At(w, 4) - base, a);
  }

  lemma StaleStays(w: Words, w': Words, s: Shape, b: int)
    requires Sound(s) && b in s.used && Stale(w, s, b)
    requires InnerKept(w, w', MergeShape(s, b).size, MergeStart(s, b))
    ensures Stale(w', s, b)
  {
    MergeGap(s, b);
  }

  /** What becomes of a pointer that was freed: it passes for a used block exactly if the block was
      absorbed, and then no block is left at that place. */
  lemma FreedTwice(m: seq<byte>, w: Words, base: int, s: Shape, b: int)
    requires Sound(s) && b in s.used
    requires WordsOf(m, w) && Ok(w, base, FreeShape(s, b)) && Stale(w, s, b)
    ensures Passes(m, b + 4) <==> Absorbed(s, b)
    ensures b in FreeShape(s, b).size <==> !Absorbed(s, b)
  {
    MergeRange(s, b);
    FreeSound(s, b);
    if Absorbed(s, b) {
      assert GoodBlock(s.size, b);
      HeaderByte(m, w, b);
      HeaderBits(s.size[b], 1);
    } else {
      PassesIfUsed(m, w, base, FreeShape(s, b), b + 4);
    }
  }

  ghost function UsedBelow(s: Shape, a: int): set<int> { set x | x in s.used && x < a }

  ghost function FreeBelow(s: Shape, a: int): set<int> { set x | x in s.size && x !in s.used && x < a }

  /** One step along the tiling counts one block more. */
  lemma SeenNext(s: Shape, a: int)
    requires Sound(s) && a in s.size
    ensures UsedBelow(s, After(s.size, a)) == UsedBelow(s, a) + (if a in s.used then {a} else {})
    ensures FreeBelow(s, After(s.size, a)) == FreeBelow(s, a) + (if a in s.used then {} else {a})
  {
    assert GoodBlock(s.size, a);
    forall x | x in s.size ensures x < After(s.size, a) <==> x < a || x == a {
      assert Apart(s.size, a, x);
    }
  }

  /** The counters of get_heap_stats when the walk has reached `a`. */
  ghost predicate Tally(s: Shape, a: int, used: int, free: int, usedBlocks: int, freeBlocks: int)
    requires s.used <= s.size.Keys
  {
    && used == Total(UsedBelow(s, a), s.size) && free == Total(FreeBelow(s, a), s.size)
    && usedBlocks == |UsedBelow(s, a)| && freeBlocks == |FreeBelow(s, a)|
    && used + free + OVERHEAD * (usedBlocks + freeBlocks) == a - HEAD
  }

  lemma TallyStep(s: Shape, a: int, used: int, free: int, usedBlocks: int, freeBlocks: int)
    requires Sound(s) && a in s.size && Tally(s, a, used, free, usedBlocks, freeBlocks)
    ensures After(s.size, a) == END || After(s.size, a) in s.size
    ensures a in s.used ==> Tally(s, After(s.size, a), used + s.size[a], free, usedBlocks + 1, freeBlocks)
    ensures a !in s.used ==> Tally(s, After(s.size, a), used, free + s.size[a], usedBlocks, freeBlocks + 1)
  {
    assert GoodBlock(s.size, a);
    SeenNext(s, a);
    var u, f := UsedBelow(s, After(s.size, a)), FreeBelow(s, After(s.size, a));
    if a in s.used {
      TotalTakes(u, s.size, a);
      assert u - {a} == UsedBelow(s, a);
    } else {
      TotalTakes(f, s.size, a);
      assert f - {a} == FreeBelow(s, a);
    }
  }

  lemma BlockFits(s: Shape, a: int)
    requires Tiled(s.size) && a in s.size
    ensures a < After(s.size, a) <= END && (After(s.size, a) == END || After(s.size, a) in s.size)
    ensures After(s.size, a) > END - OVERHEAD - MIN_BLOCK <==> After(s.size, a) == END
  {
    assert GoodBlock(s.size, a);
    if After(s.size, a) in s.size { assert GoodBlock(s.size, After(s.size, a)); }
  }

  /** One round of get_heap_stats. */
  lemma StatsRound(s: Shape, a: int, used: int, free: int, usedBlocks: int, freeBlocks: int)
    requires Sound(s) && a in s.size && Tally(s, a, used, free, usedBlocks, freeBlocks)
    ensures a < After(s.size, a) <= END && (After(s.size, a) == END || After(s.size, a) in s.size)
    ensures Tally(s, After(s.size, a), used + (if a in s.used then s.size[a] else 0), free + (if a in s.used then 0 else s.size[a]),
                  usedBlocks + (if a in s.used then 1 else 0), freeBlocks + (if a in s.used then 0 else 1))
  {
    BlockFits(s, a);
    TallyStep(s, a, used, free, usedBlocks, freeBlocks);
  }

  /** At the end every block is counted, the free ones as often as they are listed. */
  lemma SeenAll(s: Shape)
    requires Sound(s)
    ensures UsedBelow(s, END) == s.used && FreeBelow(s, END) == s.size.Keys - s.used
    ensures |FreeBelow(s, END)| == |s.free|
    ensures forall a :: a in s.used ==> s.size[a] <= Total(s.used, s.size)
  {
    forall x | x in s.size ensures x < END { assert GoodBlock(s.size, x); }
    forall a | a in s.used ensures s.size[a] <= Total(s.used, s.size) {
      assert forall x :: x in s.used ==> GoodBlock(s.size, x);
      TotalCovers(s.used, s.size, a);
    }
    var f := FreeBelow(s, END);
    FreeBlocksListed(s);
    forall a ensures Lists(s.free, f, a) { assert OnBlock(s.size, s.free, a + 4); }
    CountList(s.free, f);
  }

  ghost predicate Lists(l: seq<int>, f: set<int>, a: int) { a in f <==> a + 4 in l }

  lemma {:induction false} CountList(l: seq<int>, f: set<int>)
    requires forall a {:trigger Lists(l, f, a)} :: Lists(l, f, a)
    requires forall i, j {:trigger Differ(l, i, j)} :: Differ(l, i, j)
    ensures |f| == |l|
  {
    if l == [] {
      forall a ensures a !in f { assert Lists(l, f, a); }
      assert f == {};
    } else {
      var a, t := l[0] - 4, l[1..];
      assert Lists(l, f, a);
      forall x ensures Lists(t, f - {a}, x) {
        assert Lists(l, f, x);
        assert l == [l[0]] + t;
        if l[0] in t { HeadInTail(l); }
      }
      forall i, j ensures Differ(t, i, j) { assert Differ(l, i + 1, j + 1); }
      CountList(t, f - {a});
    }
  }

  lemma HeadInTail(l: seq<int>)
    requires l != [] && l[0] in l[1..]
    ensures exists j :: !Differ(l, 0, j)
  {
    var i :| 0 <= i < |l[1..]| && l[1..][i] == l[0];
    assert !Differ(l, 0, i + 1);
  }

  lemma BelowHead(s: Shape)
    requires Sound(s)
    ensures UsedBelow(s, HEAD) == {} && FreeBelow(s, HEAD) == {}
  {
    forall x | x in s.size ensures HEAD <= x { assert GoodBlock(s.size, x); }
  }

  /** The words that the constructors write: the sentinel linked to itself, one free block, its insertion. */
  function FreshWords(w: Words, base: int): Words {
    Inserted(PutSize(w[0 := base][4 := base], HEAD, HEAP_SIZE - OVERHEAD, 0), base, HEAD + 4)
  }

  lemma FreshWordsFormed(w: Words, base: int)
    requires Full(w)
    ensures WellFormed(FreshWords(w, base), base, Fresh())
  {
    FreshFormed(FreshWords(w, base), base);
  }

  lemma FreshFormed(w: Words, base: int)
    requires Full(w) && w[HEAD] == HEAP_SIZE - OVERHEAD == w[END - 4]
    requires w[0] == base + HEAD + 4 == w[4] && w[HEAD + 4] == base == w[HEAD + 8]
    ensures WellFormed(w, base, Fresh())
  {
    var s := Fresh();
    assert TagAt(w, s, HEAD);
    var r := Ring(s.free);
    assert r == [0, HEAD + 4, 0];
    forall i ensures LinkAt(w, base, r, i) { }
  }
}
