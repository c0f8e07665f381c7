/** The allocator of utils/heap.cc over the bytes of its `Heap` object. */
module HeapAllocator {
  import opened Common
  import opened MemUtil
  import opened HeapLayout
  import opened HeapOps
  import opened HeapSpec
  import opened HeapFacts

  class Heap {
    const mem: array<byte>
    const base: int
    const outside: int -> byte
    ghost var words: Words
    ghost var shape: Shape

    /** The ghost words mirror the bytes. */
    ghost predicate Mapped()
      reads this`words, mem
    {
      mem.Length == END && Placed(base) && WordsOf(mem[..], words)
    }

    /** The bytes represent the shape.  (Matching on the shape keeps the conjunction in one piece for the
        verifier.) */
    ghost predicate Consistent()
      reads this, mem
    {
      match shape
      case Shape(_, _, _) => Mapped() && Quiet(base, outside) && Ok(words, base, shape)
    }

    ghost predicate Valid()
      reads this, mem
    {
      Mapped() && Quiet(base, outside) && WellFormed(words, base, shape)
    }

    // -------------------------------------------------------------- words

    method ReadWord(x: int) returns (v: int)
      requires Mapped() && x in words
      ensures v == words[x] && 0 <= v < BITS32
    {
      assert WordHere(mem[..], words, x);
      v := Compose(mem[x], mem[x + 1], mem[x + 2], mem[x + 3]);
    }

    method WriteWord(x: int, v: int)
      requires Mapped() && x in words && 0 <= v < BITS32
      modifies mem, this`words
      ensures Mapped() && words == old(words)[x := v]
    {
      ghost var m := mem[..];
      mem[x], mem[x + 1], mem[x + 2], mem[x + 3] := ByteOf(v, 0), ByteOf(v, 1), ByteOf(v, 2), ByteOf(v, 3);
      StoreWord(m, mem[..], words, x, v);
      words := words[x := v];
    }

    /** A word at an absolute address, inside the object or out of it. */
    method LoadWord(addr: int) returns (v: int)
      requires Mapped() && addr % 4 == 0 && 0 <= addr < BITS32
      ensures base <= addr < base + END ==> addr - base in words && v == words[addr - base]
      ensures !(base <= addr < base + END) ==> v == OutsideWord(outside, addr)
    {
      if base <= addr < base + END {
        v := ReadWord(addr - base);
      } else {
        v := OutsideWord(outside, addr);
      }
    }

    // -------------------------------------------------------------- headers and footers

    method GetSize(block: int) returns (size: int)
      requires Mapped() && block in words
      ensures size == ClearFlags(words[block])
    {
      var w := ReadWord(block);
      size := ClearFlags(w);
    }

    method IsFree(block: int) returns (free: bool)
      requires Mapped() && block in words
      ensures free <==> words[block] % 2 == 0
    {
      var w := ReadWord(block);
      free := w % 2 == 0;
    }

    method GetFlags(block: int) returns (flags: int)
      requires Mapped() && block in words
      ensures flags == words[block] % 4
    {
      var w := ReadWord(block);
      flags := w % 4;
    }

    method WriteSizeFields(block: int, size: int, flags: int)
      requires Mapped() && HEAD <= block && block % 4 == 0 && size % 4 == 0 && 0 <= size
      requires block + OVERHEAD + size <= END && 0 <= flags < 4
      modifies mem, this`words
      ensures Mapped() && words == PutSize(old(words), block, size, flags)
    {
      WriteWord(block, size + flags);
      WriteWord(block + 4 + size, size);
    }

    /** The block behind `block`: none if the footer, wherever the header says it is, disagrees with the
        header, or at the end of the heap. */
    method GetNext(block: int) returns (next: Option<int>)
      requires Mapped() && block in words
      requires block + 4 + ClearFlags(words[block]) in words
      ensures var size := ClearFlags(words[block]);
              next == if words[block + 4 + size] != size || block + OVERHEAD + size > END - OVERHEAD - MIN_BLOCK then None
                      else Some(block + OVERHEAD + size)
    {
      var size := GetSize(block);
      var footer := ReadWord(block + 4 + size);
      if size != footer {
        return None;
      }
      var n := block + 4 + size + 4;
      if n > END - OVERHEAD - MIN_BLOCK {
        return None;
      }
      next := Some(n);
    }

    /** The block in front of `block`: its footer gives the size, its header must agree.  In front of
        the first block lies the sentinel. */
    method GetPrevious(block: int) returns (prev: Option<int>)
      requires Consistent() && block in shape.size
      ensures block == HEAD ==> prev == None
      ensures block != HEAD ==> HasPred(shape.size, block) && prev == Some(PredOf(shape.size, block))
    {
      PreviousAddress(words, base, outside, shape, block);
      var size := ReadWord(block - 4);
      var addr := Wrap(base + block - 4 - size - 4);
      var header := LoadWord(addr);
      if ClearFlags(header) != size {
        return None;
      }
      if addr < base + HEAD {
        return None;
      }
      prev := Some(addr - base);
    }

    // -------------------------------------------------------------- the free list

    method FreeListInsert(block: int)
      requires Mapped() && HEAD <= block && block % 4 == 0 && block + OVERHEAD + MIN_BLOCK <= END
      requires words[block] % 2 == 0
      requires At(words, 4) - base in words
      modifies mem, this`words
      ensures Mapped() && words == Inserted(old(words), base, block + 4)
    {
      var node := block + 4;
      var first := ReadWord(4);
      WriteWord(node + 4, first);
      WriteWord(node, base);
      WriteWord(4, base + node);
      var next := ReadWord(node + 4);
      WriteWord(next - base, base + node);
    }

    method FreeListRemove(block: int)
      requires Consistent() && block + 4 in shape.free
      modifies mem, this`words, this`shape
      ensures words == Removed(old(words), base, block + 4)
      ensures Consistent() && shape == Unlinked(old(shape), block)
      ensures Kept(old(words), words, shape.size, Unlisted(old(shape)))
    {
      ghost var k := Position(shape.free, block + 4);
      RemoveOk(words, base, shape, k);
      NodePointers(words, base, shape, k);
      shape := shape.(free := Drop(shape.free, k));
      var prev := ReadWord(block + 4);
      var next := ReadWord(block + 8);
      WriteWord(prev - base + 4, next);
      WriteWord(next - base, prev);
    }

    // -------------------------------------------------------------- merging and splitting

    /** First half of try_merge: take a free predecessor off the list. */
    method AbsorbPrevious(block: int) returns (result: int, grown: int)
      requires Consistent()
      requires block in shape.used && PrevListed(shape, block)
      modifies mem, this`words, this`shape
      ensures Consistent()
      ensures result == MergeStart(old(shape), block) && grown == block - result
      ensures shape == Unlinked(old(shape), result)
      ensures Kept(old(words), words, old(shape).size, Unlisted(old(shape)))
    {
      result, grown := block, 0;
      var prev := GetPrevious(block);
      if prev.Some? {
        NextIsAfter(words, base, shape, prev.value);
        var free := IsFree(prev.value);
        if free {
          FreeListRemove(prev.value);
          NextIsAfter(words, base, shape, prev.value);
          var size := GetSize(prev.value);
          result, grown := prev.value, size + OVERHEAD;
        }
      }
    }

    /** Second half of try_merge: take a free successor off the list. */
    method AbsorbNext(block: int) returns (grown: int)
      requires Consistent() && block in shape.used
      requires NextListed(shape, block)
      modifies mem, this`words, this`shape
      ensures Consistent()
      ensures grown == MergeEnd(old(shape), block) - After(old(shape).size, block)
      ensures shape == Unlinked(old(shape), After(old(shape).size, block))
      ensures Kept(old(words), words, old(shape).size, Unlisted(old(shape)))
    {
      NextIsAfter(words, base, shape, block);
      grown := 0;
      var next := GetNext(block);
      if next.Some? {
        NextIsAfter(words, base, shape, next.value);
        var free := IsFree(next.value);
        if free {
          FreeListRemove(next.value);
          NextIsAfter(words, base, shape, next.value);
          var size := GetSize(next.value);
          grown := size + OVERHEAD;
        }
      }
    }

    /** Last step of try_merge: one header and one footer for the whole range, with the flags of the
        original block. */
    method FuseBlocks(block: int, result: int, newSize: int, ghost e: int)
      requires Consistent() && block in shape.used && result in shape.size
      requires result <= block < e && newSize == e - result - OVERHEAD && (e == END || e in shape.size)
      requires RangeUnlisted(shape.size, shape.free, result, e)
      modifies mem, this`words, this`shape
      ensures Consistent() && shape == FusedShape(old(shape), result, e)
      ensures words == PutSize(old(words), result, newSize, 1)
      ensures Kept(old(words), words, old(shape).size, old(shape).used)
    {
      NextIsAfter(words, base, shape, block);
      FuseOk(words, base, shape, result, e);
      FuseTiled(shape.size, result, e);
      assert GoodBlock(Fused(shape.size, result, e), result);
      var flags := GetFlags(block);
      WriteSizeFields(result, newSize, flags);
      shape := FusedShape(shape, result, e);
    }

    /** Both free neighbours taken off the list. */
    method AbsorbNeighbours(block: int) returns (result: int, grown: int, ghost between: Words)
      requires Consistent() && block in shape.used && PrevListed(shape, block)
      requires NextListed(Unlinked(shape, MergeStart(shape, block)), block)
      modifies mem, this`words, this`shape
      ensures Consistent()
      ensures result == MergeStart(old(shape), block)
      ensures grown == MergeEnd(old(shape), block) - result - (After(old(shape).size, block) - block)
      ensures shape == Unlinked(Unlinked(old(shape), result), After(old(shape).size, block))
      ensures Kept(old(words), between, shape.size, Unlisted(old(shape)))
      ensures Kept(between, words, shape.size, Unlisted(Unlinked(old(shape), result)))
    {
      var more;
      result, grown := AbsorbPrevious(block);
      between := words;
      more := AbsorbNext(block);
      grown := grown + more;
    }

    /** try_merge: the block is fused with its free neighbours and keeps its flags. */
    method TryMerge(block: int) returns (result: int)
      requires Valid() && block in shape.used
      modifies mem, this`words, this`shape
      ensures Valid() && shape == MergeShape(old(shape), block) && result == MergeStart(old(shape), block)
      ensures Stale(words, old(shape), block)
      ensures SamePayloadBytes(old(mem[..]), mem[..], old(shape), old(shape).used)
    {
      ghost var s, w, m := shape, words, mem[..];
      MergePlan(s, block);
      result := MergeWords(block);
      KeptBytes(m, w, mem[..], words, s, s.used);
    }

    method MergeWords(block: int) returns (result: int)
      requires Consistent() && block in shape.used && Mergeable(shape, block)
      modifies mem, this`words, this`shape
      ensures Consistent() && shape == MergeShape(old(shape), block)
      ensures result == MergeStart(old(shape), block) && Kept(old(words), words, old(shape).size, old(shape).used)
      ensures Stale(words, old(shape), block)
    {
      ghost var s, w := shape, words;
      NextIsAfter(words, base, shape, block);
      var origSize := GetSize(block);
      var grown;
      ghost var between;
      result, grown, between := AbsorbNeighbours(block);
      ghost var w2 := words;
      KeptBoth(w, between, w2, s, block);
      if result != block { StaleFused(words, base, shape, s, block, result, MergeEnd(s, block)); }
      var newSize := origSize + grown;
      if newSize != origSize {
        FuseBlocks(block, result, newSize, MergeEnd(s, block));
        KeptTrans(w, w2, words, s.size, s.used, s.used);
      }
    }

    /** The front of a block that is cut: its tags, and its node at the head of the list. */
    method CutFront(block: int, newSize: int)
      requires Mapped() && HEAD <= block && block % 4 == 0 && newSize % 4 == 0 && MIN_BLOCK <= newSize
      requires block + OVERHEAD + newSize <= END
      requires At(PutSize(words, block, newSize, 0), 4) - base in PutSize(words, block, newSize, 0)
      requires PutSize(words, block, newSize, 0)[block] % 2 == 0
      modifies mem, this`words
      ensures Mapped() && words == Inserted(PutSize(old(words), block, newSize, 0), base, block + 4)
    {
      WriteSizeFields(block, newSize, 0);
      FreeListInsert(block);
    }

    /** The writes of maybe_split_block: the front, then the tags of the back, found by get_next. */
    method CutBlock(block: int, newSize: int, need: int, flags: int) returns (result: int)
      requires Mapped() && CanCut(words, base, block, newSize, need) && flags == 1
      modifies mem, this`words
      ensures Mapped() && result == block + OVERHEAD + newSize
      ensures words == CutResult(old(words), base, block, newSize, need)
    {
      CutFront(block, newSize);
      var next := GetNext(block);
      result := next.value;
      WriteSizeFields(result, need, flags);
    }

    /** maybe_split_block: a block with enough to spare is cut; the front part stays free, the back
        part is returned. */
    method MaybeSplitBlock(block: int, size: int) returns (result: int)
      requires Valid() && block in shape.used && Surrounded(shape, block)
      requires 0 < size <= shape.size[block]
      modifies mem, this`words, this`shape
      ensures Valid() && shape == SplitShape(old(shape), block, size)
      ensures result == SplitAddr(old(shape), block, size)
      ensures words == SplitResult(old(words), base, old(shape), block, size)
      ensures result in shape.size && size <= shape.size[result] <= Max(size + 3, 8) + 15
      ensures old(shape).size[block] >= Max(size + 3, 8) + 16 ==> shape.size[result] <= Max(size + 3, 8)
      ensures SamePayloadBytes(old(mem[..]), mem[..], old(shape), old(shape).used - {block})
    {
      ghost var s, w, m := shape, words, mem[..];
      SplitSound(shape, block, size);
      NextIsAfter(words, base, shape, block);
      var need := RoundRequest(size);
      result := block;
      var blockSize := GetSize(block);
      if blockSize >= need + OVERHEAD + MIN_BLOCK {
        var flags := GetFlags(block);
        var newSize := blockSize - need - OVERHEAD;
        SplitPlan(words, base, shape, block, size, newSize, need);
        result := CutBlock(block, newSize, need, flags);
        shape := SplitShape(shape, block, size);
      }
      KeptBytes(m, w, mem[..], words, s, s.used - {block});
    }

    method RoundRequest(size: int) returns (need: int)
      requires 0 < size
      ensures need == Need(size) && need % 4 == 0 && MIN_BLOCK <= need
    {
      need := Align(size);
      if need < MIN_BLOCK { need := MIN_BLOCK; }
    }

    // -------------------------------------------------------------- allocating and freeing

    method MarkUsed(block: int)
      requires Consistent() && block in shape.size
      modifies mem, this`words, this`shape
      ensures Consistent() && shape == old(shape).(used := old(shape).used + {block})
      ensures Kept(old(words), words, shape.size, shape.size.Keys)
    {
      NextIsAfter(words, base, shape, block);
      MarkOk(words, base, shape, block, true);
      var w := ReadWord(block);
      WriteWord(block, if w % 2 == 0 then w + 1 else w);
      shape := shape.(used := shape.used + {block});
    }

    method MarkFree(block: int)
      requires Consistent() && block in shape.size
      modifies mem, this`words, this`shape
      ensures Consistent() && shape == old(shape).(used := old(shape).used - {block})
      ensures Kept(old(words), words, shape.size, shape.size.Keys)
    {
      NextIsAfter(words, base, shape, block);
      MarkOk(words, base, shape, block, false);
      var w := ReadWord(block);
      WriteWord(block, if w % 2 == 1 then w - 1 else w);
      shape := shape.(used := shape.used - {block});
    }

    /** find_free_block: first fit along the list; `k` is the position found. */
    method FindFreeBlock(size: int) returns (found: Option<int>, ghost k: int)
      requires Consistent()
      ensures found.Some? ==> FirstFit(shape, k, size) && found.value == shape.free[k] - 4
      ensures found.None? ==> forall f :: f in shape.free ==> f - 4 in shape.size && shape.size[f - 4] < size
    {
      FirstPointer(words, base, shape);
      RingEnds(shape.free);
      ghost var r := Ring(shape.free);
      var p := ReadWord(4);
      k := 0;
      while p != base
        invariant 0 <= k <= |shape.free| && p == base + r[k + 1]
        invariant forall j {:trigger TooSmall(shape, j, size)} :: 0 <= j < k ==> TooSmall(shape, j, size)
        decreases |shape.free| - k
      {
        NodeReads(words, base, shape, k);
        var block := p - base - 4;
        var blockSize := GetSize(block);
        if blockSize >= size {
          return Some(block), k;
        }
        p := ReadWord(p - base + 4);
        assert TooSmall(shape, k, size);
        k := k + 1;
      }
      NodesSpaced(shape);
      RingNonzero(shape.free);
      assert k == |shape.free|;
      forall f | f in shape.free ensures f - 4 in shape.size && shape.size[f - 4] < size {
        var j :| 0 <= j < |shape.free| && shape.free[j] == f;
        assert TooSmall(shape, j, size);
      }
      found := None;
    }

    /** The block found is marked used and leaves the list. */
    method TakeBlock(block: int, ghost k: int)
      requires Valid() && 0 <= k < |shape.free| && block == shape.free[k] - 4
      modifies mem, this`words, this`shape
      ensures Valid() && shape == TakeShape(old(shape), k) && Surrounded(shape, block)
      ensures SamePayloadBytes(old(mem[..]), mem[..], old(shape), old(shape).used)
    {
      ghost var s, w, m := shape, words, mem[..];
      TakeSound(shape, k);
      UnlistedUsed(shape);
      PositionAt(shape, k);
      MarkUsed(block);
      ghost var w1 := words;
      FreeListRemove(block);
      KeptTrans(w, w1, words, s.size, s.used, s.used);
      KeptBytes(m, w, mem[..], words, s, s.used);
    }

    /** __malloc: fails exactly when no free block is large enough. */
    method MallocBlock(size: int) returns (block: Option<int>, ghost k: int)
      requires Valid() && 0 < size
      modifies mem, this`words, this`shape
      ensures Valid()
      ensures block.None? <==> forall a :: a in old(shape).size && a !in old(shape).used ==> old(shape).size[a] < size
      ensures block.None? ==> mem[..] == old(mem[..]) && shape == old(shape)
      ensures block.Some? ==> FirstFit(old(shape), k, size)
                              && shape == AllocShape(old(shape), k, size)
                              && block.value == AllocAddr(old(shape), k, size)
      ensures SamePayloadBytes(old(mem[..]), mem[..], old(shape), old(shape).used)
    {
      block, k := FindFreeBlock(size);
      FreeBlocksListed(shape);
      if block.Some? {
        var b := TakeAndSplit(block.value, size, k);
        block := Some(b);
      }
    }

    method TakeAndSplit(block: int, size: int, ghost k: int) returns (result: int)
      requires Valid() && 0 < size && FirstFit(shape, k, size) && block == shape.free[k] - 4 && block !in shape.used
      modifies mem, this`words, this`shape
      ensures Valid() && shape == AllocShape(old(shape), k, size) && result == AllocAddr(old(shape), k, size)
      ensures SamePayloadBytes(old(mem[..]), mem[..], old(shape), old(shape).used)
    {
      ghost var s, m := shape, mem[..];
      TakeBlock(block, k);
      ghost var t, m1 := shape, mem[..];
      result := MaybeSplitBlock(block, size);
      BytesTrans(m, m1, mem[..], s, t, s.used);
    }

    method ListBlock(block: int)
      requires Consistent() && block in shape.size
      requires block !in shape.used && block + 4 !in shape.free
      modifies mem, this`words, this`shape
      ensures Consistent()
      ensures shape == old(shape).(free := [block + 4] + old(shape).free)
      ensures Kept(old(words), words, shape.size, Unlisted(old(shape)) - {block})
      ensures InnerKept(old(words), words, shape.size, block)
    {
      NextIsAfter(words, base, shape, block);
      FirstPointer(words, base, shape);
      InsertSpares(words, base, shape, block);
      InsertOk(words, base, shape, block);
      FreeListInsert(block);
      shape := shape.(free := [block + 4] + shape.free);
    }

    /** mark_free and free_list_insert, the end of __free and of a relocating __realloc. */
    method ReleaseBlock(block: int)
      requires Valid() && block in shape.used && Surrounded(shape, block)
      modifies mem, this`words, this`shape
      ensures Valid()
      ensures shape == old(shape).(used := old(shape).used - {block}, free := [block + 4] + old(shape).free)
      ensures SamePayloadBytes(old(mem[..]), mem[..], old(shape), shape.used)
      ensures InnerKept(old(words), words, shape.size, block)
    {
      ghost var s, w, m := shape, words, mem[..];
      ReleaseSound(shape, block);
      UnlistedUsed(shape);
      assert UsedXorListed(shape, block);
      MarkFree(block);
      assert Unlisted(shape) == s.used;
      ghost var w1 := words;
      assert KeptAt(w, w1, s.size, block);
      ListBlock(block);
      KeptTrans(w, w1, words, s.size, s.used - {block}, s.used - {block});
      KeptBytes(m, w, mem[..], words, s, s.used - {block});
    }

    /** __free */
    method FreeBlock(block: int)
      requires Valid() && block in shape.used
      modifies mem, this`words, this`shape
      ensures Valid() && shape == FreeShape(old(shape), block) && Stale(words, old(shape), block)
      ensures SamePayloadBytes(old(mem[..]), mem[..], old(shape), shape.used)
    {
      ghost var s, m := shape, mem[..];
      MergeSound(shape, block);
      var merged := TryMerge(block);
      ghost var t, m1, w1 := shape, mem[..], words;
      ReleaseBlock(merged);
      StaleStays(w1, words, s, block);
      BytesTrans(m, m1, mem[..], s, t, shape.used);
    }

    /** malloc: None stands for the assertions that stop the CPU, on a size of 0 and when memory is
        exhausted.  A payload pointer is a block address plus 4. */
    method Malloc(size: int) returns (ptr: Option<int>, ghost k: int)
      requires Valid() && 0 <= size < BITS32
      modifies mem, this`words, this`shape
      ensures Valid()
      ensures ptr.None? <==> size == 0 || forall a :: a in old(shape).size && a !in old(shape).used ==> old(shape).size[a] < size
      ensures ptr.None? ==> mem[..] == old(mem[..]) && shape == old(shape)
      ensures ptr.Some? ==> && FirstFit(old(shape), k, size)
                            && shape == AllocShape(old(shape), k, size)
                            && ptr.value == AllocAddr(old(shape), k, size) + 4
                            && ptr.value - 4 in shape.used && ptr.value - 4 !in old(shape).used
                            && size <= shape.size[ptr.value - 4] <= Max(size + 3, 8) + 15
                            && (old(shape).size[old(shape).free[k] - 4] >= Max(size + 3, 8) + 16 ==>
                                  shape.size[ptr.value - 4] <= Max(size + 3, 8))
      ensures SamePayloadBytes(old(mem[..]), mem[..], old(shape), old(shape).used)
    {
      k := 0;
      if size == 0 {
        return None, k;
      }
      var block;
      block, k := MallocBlock(size);
      if block.None? {
        return None, k;
      }
      AllocSound(old(shape), k, size);
      ptr := Some(block.value + 4);
    }

    /** memblock_valid and is_free, for any pointer: neither knows whether a block starts there. */
    method CheckPointer(ptr: int) returns (ok: bool)
      requires Mapped()
      ensures ok <==> Passes(mem[..], ptr)
    {
      var block := ptr - 4;
      if !(HEAD <= block <= END - OVERHEAD - MIN_BLOCK) {
        return false;
      }
      var header := Compose(mem[block], mem[block + 1], mem[block + 2], mem[block + 3]);
      LowBit(mem[block], mem[block + 1], mem[block + 2], mem[block + 3]);
      ok := header % 2 == 1;
    }

    /** free: false stands for the assertion that stops the CPU.  A pointer that passes the check must
        be one to a used block; one that was freed before passes it exactly if its block was absorbed. */
    method Free(ptr: int) returns (ok: bool)
      requires Valid() && (Passes(mem[..], ptr) ==> ptr - 4 in shape.used)
      modifies mem, this`words, this`shape
      ensures Valid()
      ensures ok <==> Passes(old(mem[..]), ptr)
      ensures ok <==> ptr - 4 in old(shape).used
      ensures !ok ==> mem[..] == old(mem[..]) && shape == old(shape)
      ensures ok ==> shape == FreeShape(old(shape), ptr - 4) && shape.used == old(shape).used - {ptr - 4}
      ensures ok ==> (Passes(mem[..], ptr) <==> Absorbed(old(shape), ptr - 4))
      ensures ok ==> (ptr - 4 in shape.size <==> !Absorbed(old(shape), ptr - 4))
      ensures SamePayloadBytes(old(mem[..]), mem[..], old(shape), old(shape).used - {ptr - 4})
    {
      ghost var s := shape;
      PassesIfUsed(mem[..], words, base, shape, ptr);
      ok := CheckPointer(ptr);
      if ok {
        FreeSound(shape, ptr - 4);
        FreeBlock(ptr - 4);
        FreedTwice(mem[..], words, base, s, ptr - 4);
      }
    }

    // -------------------------------------------------------------- realloc

    /** Bytes of one payload were rewritten: the ghost words follow. */
    ghost method Resync(u: int, m: seq<byte>)
      requires mem.Length == END && Placed(base) && WordsOf(m, words) && Ok(words, base, shape)
      requires u in shape.size && u + 4 !in shape.free
      requires forall i :: 0 <= i < END && !(u + 4 <= i < u + 4 + shape.size[u]) ==> mem[i] == m[i]
      modifies this`words
      ensures Mapped() && Ok(words, base, shape)
      ensures Kept(old(words), words, shape.size, shape.size.Keys - {u})
    {
      Rewritten(m, mem[..], words, base, shape, u);
      words := ImageOf(mem[..]);
    }

    /** memcpy of `size` bytes into the payload of `u`; the first `len` of them come from the payload
        of another used block. */
    method CopyInto(u: int, block: int, size: int, ghost from: int, ghost len: int)
      requires Valid() && u in shape.used && from in shape.used && u != from && 0 <= size <= shape.size[u]
      requires from <= block && block + len <= from + shape.size[from] && 0 <= len <= size
      modifies mem, this`words
      ensures Valid()
      ensures SamePayloadBytes(old(mem[..]), mem[..], shape, shape.size.Keys - {u})
      ensures SamePrefix(old(mem[..]), block, mem[..], u, len)
    {
      ghost var m, w := mem[..], words;
      assert UsedXorListed(shape, u);
      PayloadsDisjoint(shape, u, from);
      PayloadsDisjoint(shape, from, u);
      MemCpy(mem, u + 4, block + 4, size);
      Resync(u, m);
      KeptBytes(m, w, mem[..], words, shape, shape.size.Keys - {u});
    }

    /** The end of a relocation: the copy, then the merged block becomes free. */
    method CopyAndRelease(u: int, block: int, merged: int, size: int, ghost len: int)
      requires Valid() && u in shape.used && merged in shape.used && u != merged && Surrounded(shape, merged)
      requires merged <= block && block + len <= merged + shape.size[merged] && 0 <= len <= size <= shape.size[u]
      modifies mem, this`words, this`shape
      ensures Valid()
      ensures shape == old(shape).(used := old(shape).used - {merged}, free := [merged + 4] + old(shape).free)
      ensures SamePayloadBytes(old(mem[..]), mem[..], old(shape), old(shape).used - {merged, u})
      ensures SamePrefix(old(mem[..]), block, mem[..], u, len)
    {
      ghost var s, m1 := shape, mem[..];
      CopyInto(u, block, size, merged, len);
      ghost var m2 := mem[..];
      ReleaseBlock(merged);
      BytesTrans(m1, m2, mem[..], s, s, s.used - {merged, u});
      Copied(m1, m2, mem[..], s, block, merged, u, len);
    }

    /** The relocating branch of __realloc: malloc, memcpy, and release of the merged block.  None
        stands for the copy to address 4 after a failed __malloc. */
    method Relocate(block: int, merged: int, size: int, ghost len: int) returns (result: Option<int>, ghost k: int)
      requires Valid() && merged in shape.used && Surrounded(shape, merged)
      requires merged <= block && block + len <= merged + shape.size[merged] < merged + size && 0 <= len
      modifies mem, this`words, this`shape
      ensures result.None? <==> forall a :: a in old(shape).size && a !in old(shape).used ==> old(shape).size[a] < size
      ensures result.Some? ==> Valid()
      ensures result.Some? ==> MoveDone(old(mem[..]), old(shape), mem[..], shape, k, size, block, merged, len, result.value)
    {
      hide NoWaste;
      ghost var s, m0 := shape, mem[..];
      result, k := MallocBlock(size);
      if result.None? {
        return;
      }
      AllocSound(s, k, size);
      AllocSurrounded(s, k, size, merged);
      ghost var m1 := mem[..];
      CopyAndRelease(result.value, block, merged, size, len);
      Relocated(m0, m1, mem[..], s, k, size, block, merged, len);
    }

    /** memmove of `size` bytes from behind `block` into the payload of `u`. */
    method MoveInto(u: int, block: int, size: int)
      requires Valid() && u in shape.used && 0 <= size <= shape.size[u] && HEAD <= block
      modifies mem, this`words
      ensures Valid()
      ensures SamePayloadBytes(old(mem[..]), mem[..], shape, shape.used - {u})
      ensures SamePrefix(old(mem[..]), block, mem[..], u, size)
    {
      ghost var m, w := mem[..], words;
      assert UsedXorListed(shape, u);
      PayloadsDisjoint(shape, u, u);
      MemMove(mem, u + 4, block + 4, size);
      Resync(u, m);
      KeptBytes(m, w, mem[..], words, shape, shape.used - {u});
    }

    /** The other branch of __realloc: the merged block is split if it is too big, and the payload
        moves to where the result starts. */
    method Reuse(block: int, merged: int, size: int, ghost len: int) returns (result: int)
      requires Valid() && merged in shape.used && Surrounded(shape, merged) && 0 < size <= shape.size[merged]
      requires merged == block || merged + OVERHEAD + MIN_BLOCK <= block
      requires block % 4 == 0 && block + len <= merged + shape.size[merged] && 0 < len <= size
      modifies mem, this`words, this`shape
      ensures Valid() && shape == SplitShape(old(shape), merged, size) && result == SplitAddr(old(shape), merged, size)
      ensures SamePayloadBytes(old(mem[..]), mem[..], old(shape), old(shape).used - {merged})
      ensures Outcome(base, old(mem[..]), mem[..], result, block, merged, result, Need(size), len)
    {
      ghost var s, m0, w0 := shape, mem[..], words;
      SplitSound(shape, merged, size);
      assert GoodBlock(shape.size, merged);
      result := MaybeSplitBlock(merged, size);
      ghost var t, m1 := shape, mem[..];
      SplitBytes(m0, w0, m1, words, base, s, merged, size, block, len);
      if result != block {
        MoveInto(result, block, size);
        BytesTrans(m0, m1, mem[..], s, t, s.used - {merged});
        MoveOutcome(base, m0, m1, mem[..], t, result, block, merged, result, Need(size), len, size);
      }
    }

    /** __realloc: merge, then reuse the block or relocate it. */
    method ReallocBlock(block: int, size: int) returns (result: Option<int>)
      requires Valid() && block in shape.used && 0 < size
      modifies mem, this`words, this`shape
      ensures result.None? <==> Exhausted(old(shape), block, size)
      ensures result.Some? ==> Valid() && ReallocDone(base, old(mem[..]), old(shape), mem[..], shape, block, size, result.value)
    {
      ghost var s, m0 := shape, mem[..];
      MergeSound(s, block);
      MergeGap(s, block);
      var merged := TryMerge(block);
      ghost var t, m1 := shape, mem[..];
      NextIsAfter(words, base, shape, merged);
      var mergedSize := GetSize(merged);
      if mergedSize < size {
        ghost var k;
        result, k := Relocate(block, merged, size, s.size[block]);
        if result.Some? {
          MoveIsDone(base, m0, s, m1, mem[..], shape, block, size, k, result.value);
        }
      } else {
        var r := Reuse(block, merged, size, Min(s.size[block], size));
        ReuseIsDone(base, m0, s, m1, mem[..], shape, block, size, r);
        result := Some(r);
      }
    }

    /** realloc, with the same check as free */
    method Realloc(ptr: int, size: int) returns (result: ReallocResult)
      requires Valid() && 0 <= size < BITS32 && (Passes(mem[..], ptr) ==> ptr - 4 in shape.used)
      modifies mem, this`words, this`shape
      ensures result == Halted <==> size == 0 || !Passes(old(mem[..]), ptr)
      ensures result == Halted <==> size == 0 || ptr - 4 !in old(shape).used
      ensures result == Halted ==> Valid() && mem[..] == old(mem[..]) && shape == old(shape)
      ensures result == NullCopy ==> Exhausted(old(shape), ptr - 4, size)
      ensures result.Moved? ==> && Valid() && !Exhausted(old(shape), ptr - 4, size)
                                && ReallocDone(base, old(mem[..]), old(shape), mem[..], shape, ptr - 4, size, result.ptr - 4)
    {
      PassesIfUsed(mem[..], words, base, shape, ptr);
      if size == 0 {
        return Halted;
      }
      if base + ptr == 0 {
        return Halted;
      }
      var ok := CheckPointer(ptr);
      if !ok {
        return Halted;
      }
      var r := ReallocBlock(ptr - 4, size);
      result := if r.None? then NullCopy else Moved(r.value + 4);
    }

    // -------------------------------------------------------------- statistics and construction

    /** get_heap_stats */
    method GetHeapStats() returns (used: int, free: int, usedBlocks: nat, freeBlocks: nat)
      requires Valid()
      ensures used == Total(shape.used, shape.size) && free == Total(shape.size.Keys - shape.used, shape.size)
      ensures shape.used == {} ==> used == 0
      ensures forall a :: a in shape.used ==> shape.size[a] <= used
      ensures usedBlocks == |shape.used| && freeBlocks == |shape.free|
      ensures used + free + OVERHEAD * (usedBlocks + freeBlocks) == HEAP_SIZE
    {
      used, free, usedBlocks, freeBlocks := 0, 0, 0, 0;
      ghost var a := HEAD;
      BelowHead(shape);
      var cur := Some(HEAD);
      while cur.Some?
        invariant a == END || a in shape.size
        invariant cur == if a == END then None else Some(a)
        invariant Tally(shape, a, used, free, usedBlocks, freeBlocks)
        decreases END - a
      {
        StatsRound(shape, a, used, free, usedBlocks, freeBlocks);
        var size, isFree;
        size, isFree, cur := Examine(cur.value);
        if isFree {
          free, freeBlocks := free + size, freeBlocks + 1;
        } else {
          used, usedBlocks := used + size, usedBlocks + 1;
        }
        a := After(shape.size, a);
      }
      SeenAll(shape);
    }

    /** What get_heap_stats asks of each block. */
    method Examine(block: int) returns (size: int, isFree: bool, next: Option<int>)
      requires Consistent() && block in shape.size
      ensures size == shape.size[block] && (isFree <==> block !in shape.used)
      ensures next == if After(shape.size, block) == END then None else Some(After(shape.size, block))
    {
      NextIsAfter(words, base, shape, block);
      BlockFits(shape, block);
      size := GetSize(block);
      isFree := IsFree(block);
      next := GetNext(block);
    }

    /** The static initialisation: an empty ring, one free block, inserted. */
    constructor (base: int, outside: int -> byte)
      requires Placed(base) && Quiet(base, outside)
      ensures Valid() && fresh(mem) && shape == Fresh() && this.base == base
    {
      this.base := base;
      this.outside := outside;
      mem := new byte[END];
      new;
      words := ImageOf(mem[..]);
      ImageIsWords(mem[..]);
      FreshWordsFormed(words, base);
      WriteFreshWords();
      shape := Fresh();
    }

    method WriteFreshWords()
      requires Mapped()
      modifies mem, this`words
      ensures Mapped() && words == FreshWords(old(words), base)
    {
      WriteWord(0, base);
      WriteWord(4, base);
      WriteSizeFields(HEAD, HEAP_SIZE - OVERHEAD, 0);
      FreeListInsert(HEAD);
    }

    /** A client writes into a payload it holds. */
    method Store(ptr: int, offset: int, value: byte)
      requires Valid() && ptr - 4 in shape.used && 0 <= offset < shape.size[ptr - 4]
      modifies mem, this`words
      ensures Valid()
      ensures 0 <= ptr + offset < END == mem.Length && mem[..] == old(mem[..])[ptr + offset := value]
    {
      ghost var m := mem[..];
      assert UsedXorListed(shape, ptr - 4);
      PayloadsDisjoint(shape, ptr - 4, ptr - 4);
      mem[ptr + offset] := value;
      Resync(ptr - 4, m);
    }
  }
}
