/** Whole runs of the allocator, and when realloc keeps the payload. */
module HeapRuns {
  import opened Common
  import opened MemUtil
  import opened HeapLayout
  import opened HeapOps
  import opened HeapSpec
  import opened HeapFacts
  import opened HeapAllocator

  datatype Op =
    | DoMalloc(size: int)
    | DoFree(ptr: int)
    | DoRealloc(ptr: int, size: int)
    | DoStore(ptr: int, offset: int, value: byte)

  /** A call a client may make: it frees, reallocates and writes only what it holds. */
  predicate Fair(s: Shape, op: Op) {
    match op
    case DoMalloc(size) => 0 <= size < BITS32
    case DoFree(ptr) => ptr - 4 in s.used
    case DoRealloc(ptr, size) => ptr - 4 in s.used && 0 <= size < BITS32
    case DoStore(ptr, offset, value) => ptr - 4 in s.used && ptr - 4 in s.size && 0 <= offset < s.size[ptr - 4]
  }

  /** No free block holds `n` bytes. */
  ghost predicate Lacking(s: Shape, n: int) {
    forall a :: a in s.size && a !in s.used ==> s.size[a] < n
  }

  /** The calls that stop the CPU: a size of 0, and memory exhausted. */
  ghost predicate Stops(s: Shape, op: Op)
    requires Sound(s) && Fair(s, op)
  {
    match op
    case DoMalloc(size) => size == 0 || Lacking(s, size)
    case DoRealloc(ptr, size) => size == 0 || Exhausted(s, ptr - 4, size)
    case _ => false
  }

  /** The block a call gives up or writes to, if any. */
  predicate Names(op: Op, u: int) {
    match op
    case DoMalloc(size) => false
    case DoFree(ptr) => u == ptr - 4
    case DoRealloc(ptr, size) => u == ptr - 4
    case DoStore(ptr, offset, value) => u == ptr - 4
  }

  /** What a call does to the blocks in use: a new one of the size asked for, one less, or one replaced. */
  ghost predicate Uses(s: Shape, op: Op, s': Shape) {
    match op
    case DoMalloc(size) => exists a :: Gained(s, s', a, size)
    case DoFree(ptr) => s'.used == s.used - {ptr - 4}
    case DoRealloc(ptr, size) => exists r :: Replaced(s, s', ptr, r, size)
    case DoStore(ptr, offset, value) => s' == s
  }

  ghost predicate Gained(s: Shape, s': Shape, a: int, size: int) {
    a !in s.used && a in s'.size && size <= s'.size[a] <= Max(size + 3, 8) + 15 && s'.used == s.used + {a}
  }

  ghost predicate Replaced(s: Shape, s': Shape, ptr: int, r: int, size: int) {
    r in s'.size && size <= s'.size[r] <= Max(size + 3, 8) + 15 && s'.used == s.used - {ptr - 4} + {r}
  }

  /** A block in use that the call does not name stays in use, with its size and its payload. */
  ghost predicate Untouched(m: seq<byte>, s: Shape, m': seq<byte>, s': Shape, op: Op) {
    forall u :: u in s.used && u in s.size && !Names(op, u) ==>
      u in s'.used && u in s'.size && s'.size[u] == s.size[u] && SamePayloadBytes(m, m', s, {u})
  }

  // ---------------------------------------------------------------- what the client knows of its blocks

  /** The bytes of a payload that the client knows, by offset. */
  type Content = map<int, byte>

  function Written(c: Content, offset: int, value: byte): Content {
    c[offset := value]
  }

  /** The blocks the client holds, each with what it knows of it. */
  datatype Account = Account(shape: Shape, view: map<int, Content>)

  ghost predicate KnowsAt(m: seq<byte>, s: Shape, u: int, c: Content) {
    u in s.size && forall o :: o in c ==> 0 <= o < s.size[u] && 0 <= u + 4 + o < |m| && m[u + 4 + o] == c[o]
  }

  /** The client holds exactly the blocks in use, and memory has what it knows of them. */
  ghost predicate Knows(m: seq<byte>, a: Account) {
    a.view.Keys == a.shape.used && forall u :: u in a.view ==> KnowsAt(m, a.shape, u, a.view[u])
  }

  /** What of `c` a realloc of `b` to `n` bytes carries over: what fits, if it keeps content at all. */
  ghost function Carried(s: Shape, b: int, n: int, c: Content): Content
    requires Sound(s) && b in s.used
  {
    if KeepsContent(s, b, n) then map o | o in c && o < n :: c[o] else map[]
  }

  /** The client's books from one call to the next: nothing is known of a new block, nothing is kept of a
      freed one, a written byte is known, and what a realloc carries over moves to its result. */
  ghost predicate Follows(a: Account, op: Op, a': Account)
    requires Sound(a.shape) && Fair(a.shape, op) && a.view.Keys == a.shape.used
  {
    match op
    case DoMalloc(size) => exists b :: Gained(a.shape, a'.shape, b, size) && a'.view == a.view[b := map[]]
    case DoFree(ptr) => a'.shape.used == a.shape.used - {ptr - 4} && a'.view == a.view - {ptr - 4}
    case DoRealloc(ptr, size) => exists r :: Replaced(a.shape, a'.shape, ptr, r, size) && a'.view == Rebooked(a, ptr, r, size)
    case DoStore(ptr, offset, value) => a' == Account(a.shape, a.view[ptr - 4 := Written(a.view[ptr - 4], offset, value)])
  }

  ghost function Rebooked(a: Account, ptr: int, r: int, size: int): map<int, Content>
    requires Sound(a.shape) && ptr - 4 in a.shape.used && a.view.Keys == a.shape.used
  {
    (a.view - {ptr - 4})[r := Carried(a.shape, ptr - 4, size, a.view[ptr - 4])]
  }

  /** A call leaves alone what the client knows of every block it does not name. */
  lemma OthersKnown(m: seq<byte>, a: Account, m': seq<byte>, s': Shape, op: Op, u: int)
    requires Knows(m, a) && Untouched(m, a.shape, m', s', op) && |m| == |m'| && u in a.view && !Names(op, u)
    ensures u in s'.used && KnowsAt(m', s', u, a.view[u])
  {
    assert KnowsAt(m, a.shape, u, a.view[u]);
    assert SamePayloadBytes(m, m', a.shape, {u});
  }

  lemma MallocKnown(m: seq<byte>, a: Account, m': seq<byte>, s': Shape, b: int, size: int)
    requires Knows(m, a) && |m| == |m'| && Gained(a.shape, s', b, size) && Untouched(m, a.shape, m', s', DoMalloc(size))
    ensures Knows(m', Account(s', a.view[b := map[]]))
  {
    forall u | u in a.view ensures KnowsAt(m', s', u, a.view[u]) { OthersKnown(m, a, m', s', DoMalloc(size), u); }
  }

  lemma FreeKnown(m: seq<byte>, a: Account, m': seq<byte>, s': Shape, ptr: int)
    requires Knows(m, a) && |m| == |m'| && s'.used == a.shape.used - {ptr - 4} && Untouched(m, a.shape, m', s', DoFree(ptr))
    ensures Knows(m', Account(s', a.view - {ptr - 4}))
  {
    forall u | u in a.view && u != ptr - 4 ensures KnowsAt(m', s', u, a.view[u]) {
      OthersKnown(m, a, m', s', DoFree(ptr), u);
    }
  }

  lemma CarriedKnown(m: seq<byte>, a: Account, m': seq<byte>, s': Shape, b: int, r: int, size: int)
    requires Sound(a.shape) && Knows(m, a) && b in a.shape.used && b in a.view
    requires r in s'.size && size <= s'.size[r] && 0 <= r && r + 4 + s'.size[r] <= |m'|
    requires KeepsContent(a.shape, b, size) ==> SamePrefix(m, b, m', r, Min(a.shape.size[b], size))
    ensures KnowsAt(m', s', r, Carried(a.shape, b, size, a.view[b]))
  {
    var c := Carried(a.shape, b, size, a.view[b]);
    assert KnowsAt(m, a.shape, b, a.view[b]);
    forall o | o in c ensures 0 <= o < size && m'[r + 4 + o] == c[o] {
      assert m[r + 4 + o - r + b] == c[o];
    }
  }

  lemma ReallocKnown(m: seq<byte>, a: Account, m': seq<byte>, s': Shape, ptr: int, r: int, size: int)
    requires Sound(a.shape) && Knows(m, a) && |m| == |m'| && ptr - 4 in a.shape.used
    requires Replaced(a.shape, s', ptr, r, size) && (r in a.shape.used ==> r == ptr - 4)
    requires Untouched(m, a.shape, m', s', DoRealloc(ptr, size))
    requires KnowsAt(m', s', r, Carried(a.shape, ptr - 4, size, a.view[ptr - 4]))
    ensures Knows(m', Account(s', Rebooked(a, ptr, r, size)))
  {
    forall u | u in a.view && u != ptr - 4 ensures u != r && KnowsAt(m', s', u, a.view[u]) {
      OthersKnown(m, a, m', s', DoRealloc(ptr, size), u);
    }
  }

  lemma StoreKnown(m: seq<byte>, a: Account, m': seq<byte>, ptr: int, offset: int, value: byte)
    requires Knows(m, a) && ptr - 4 in a.view && 0 <= offset && Fair(a.shape, DoStore(ptr, offset, value))
    requires 0 <= ptr + offset < |m| && m' == m[ptr + offset := value]
    requires Untouched(m, a.shape, m', a.shape, DoStore(ptr, offset, value))
    ensures Knows(m', Account(a.shape, a.view[ptr - 4 := Written(a.view[ptr - 4], offset, value)]))
  {
    assert KnowsAt(m, a.shape, ptr - 4, a.view[ptr - 4]);
    forall u | u in a.view && u != ptr - 4 ensures KnowsAt(m', a.shape, u, a.view[u]) {
      OthersKnown(m, a, m', a.shape, DoStore(ptr, offset, value), u);
    }
  }

  // ---------------------------------------------------------------- one call

  /** One call of a client, which keeps account of the blocks it holds. */
  method Step(h: Heap, op: Op, held: set<int>, ghost view: map<int, Content>)
    returns (held': set<int>, stopped: bool, ghost view': map<int, Content>)
    requires h.Valid() && h.shape.used == held && Fair(h.shape, op) && Knows(h.mem[..], Account(h.shape, view))
    modifies h, h.mem
    ensures stopped <==> Stops(old(h.shape), op)
    ensures !stopped ==> h.Valid() && h.shape.used == held' && Uses(old(h.shape), op, h.shape)
    ensures !stopped ==> Untouched(old(h.mem[..]), old(h.shape), h.mem[..], h.shape, op)
    ensures !stopped ==> Follows(Account(old(h.shape), view), op, Account(h.shape, view'))
    ensures !stopped ==> Knows(h.mem[..], Account(h.shape, view'))
  {
    stopped := false;
    match op
    case DoMalloc(size) =>
      var block;
      block, stopped, view' := StepMalloc(h, size, view);
      held' := held + {block};
    case DoFree(ptr) =>
      view' := StepFree(h, ptr, view);
      held' := held - {ptr - 4};
    case DoRealloc(ptr, size) =>
      var block;
      block, stopped, view' := StepRealloc(h, ptr, size, view);
      held' := held - {ptr - 4} + {block};
    case DoStore(ptr, offset, value) =>
      view' := StepStore(h, ptr, offset, value, view);
      held' := held;
  }

  method StepMalloc(h: Heap, size: int, ghost view: map<int, Content>)
    returns (block: int, stopped: bool, ghost view': map<int, Content>)
    requires h.Valid() && 0 <= size < BITS32 && Knows(h.mem[..], Account(h.shape, view))
    modifies h, h.mem
    ensures stopped <==> size == 0 || Lacking(old(h.shape), size)
    ensures !stopped ==> h.Valid() && Gained(old(h.shape), h.shape, block, size) && view' == view[block := map[]]
    ensures !stopped ==> Untouched(old(h.mem[..]), old(h.shape), h.mem[..], h.shape, DoMalloc(size))
    ensures !stopped ==> Knows(h.mem[..], Account(h.shape, view'))
  {
    ghost var m, s := h.mem[..], h.shape;
    var ptr, k := h.Malloc(size);
    stopped := ptr.None?;
    block, view' := 0, view;
    if !stopped {
      AllocSound(s, k, size);
      block := ptr.value - 4;
      view' := view[block := map[]];
      MallocKnown(m, Account(s, view), h.mem[..], h.shape, block, size);
    }
  }

  method StepFree(h: Heap, ptr: int, ghost view: map<int, Content>) returns (ghost view': map<int, Content>)
    requires h.Valid() && ptr - 4 in h.shape.used && Knows(h.mem[..], Account(h.shape, view))
    modifies h, h.mem
    ensures h.Valid() && h.shape.used == old(h.shape).used - {ptr - 4} && view' == view - {ptr - 4}
    ensures Untouched(old(h.mem[..]), old(h.shape), h.mem[..], h.shape, DoFree(ptr))
    ensures Knows(h.mem[..], Account(h.shape, view'))
  {
    ghost var m, s := h.mem[..], h.shape;
    FreeSound(h.shape, ptr - 4);
    var _ := h.Free(ptr);
    view' := view - {ptr - 4};
    FreeKnown(m, Account(s, view), h.mem[..], h.shape, ptr);
  }

  method StepRealloc(h: Heap, ptr: int, size: int, ghost view: map<int, Content>)
    returns (block: int, stopped: bool, ghost view': map<int, Content>)
    requires h.Valid() && ptr - 4 in h.shape.used && 0 <= size < BITS32 && Knows(h.mem[..], Account(h.shape, view))
    modifies h, h.mem
    ensures stopped <==> size == 0 || Exhausted(old(h.shape), ptr - 4, size)
    ensures !stopped ==> h.Valid() && Replaced(old(h.shape), h.shape, ptr, block, size)
    ensures !stopped ==> Untouched(old(h.mem[..]), old(h.shape), h.mem[..], h.shape, DoRealloc(ptr, size))
    ensures !stopped ==> view' == Rebooked(Account(old(h.shape), view), ptr, block, size)
    ensures !stopped ==> Knows(h.mem[..], Account(h.shape, view'))
  {
    ghost var m, a := h.mem[..], Account(h.shape, view);
    var r := h.Realloc(ptr, size);
    stopped := !r.Moved?;
    block, view' := 0, view;
    if !stopped {
      block := r.ptr - 4;
      PayloadsDisjoint(h.shape, block, block);
      CarriedKnown(m, a, h.mem[..], h.shape, ptr - 4, block, size);
      ReallocKnown(m, a, h.mem[..], h.shape, ptr, block, size);
      view' := Rebooked(a, ptr, block, size);
    }
  }

  method StepStore(h: Heap, ptr: int, offset: int, value: byte, ghost view: map<int, Content>)
    returns (ghost view': map<int, Content>)
    requires h.Valid() && ptr - 4 in h.shape.used && 0 <= offset < h.shape.size[ptr - 4]
    requires Knows(h.mem[..], Account(h.shape, view))
    modifies h, h.mem
    ensures h.Valid() && h.shape == old(h.shape) && 0 <= ptr + offset < h.mem.Length
    ensures h.mem[..] == old(h.mem[..])[ptr + offset := value]
    ensures Untouched(old(h.mem[..]), old(h.shape), h.mem[..], h.shape, DoStore(ptr, offset, value))
    ensures view' == view[ptr - 4 := Written(view[ptr - 4], offset, value)]
    ensures Knows(h.mem[..], Account(h.shape, view'))
  {
    ghost var s, m := h.shape, h.mem[..];
    h.Store(ptr, offset, value);
    forall u | u in s.used && u in s.size && u != ptr - 4
      ensures SamePayloadBytes(m, h.mem[..], s, {u})
    {
      PayloadsDisjoint(s, u, ptr - 4);
    }
    view' := view[ptr - 4 := Written(view[ptr - 4], offset, value)];
    StoreKnown(m, Account(s, view), h.mem[..], ptr, offset, value);
  }

  /** May the client make the call? */
  method MayCall(h: Heap, op: Op, held: set<int>) returns (fair: bool)
    requires h.Valid() && h.shape.used == held
    ensures fair <==> Fair(h.shape, op)
  {
    match op
    case DoMalloc(size) => fair := 0 <= size < BITS32;
    case DoFree(ptr) => fair := ptr - 4 in held;
    case DoRealloc(ptr, size) => fair := ptr - 4 in held && 0 <= size < BITS32;
    case DoStore(ptr, offset, value) =>
      fair := false;
      if ptr - 4 in held {
        NextIsAfter(h.words, h.base, h.shape, ptr - 4);
        var size := h.GetSize(ptr - 4);
        fair := 0 <= offset < size;
      }
  }

  /** A block in use at the start that no call of the script names is in use at the end, with its payload. */
  ghost predicate Preserved(m: seq<byte>, s: Shape, m': seq<byte>, s': Shape, script: seq<Op>) {
    forall u {:trigger Unnamed(script, u)} :: u in s.used && u in s.size && Unnamed(script, u) ==>
      u in s'.used && u in s'.size && s'.size[u] == s.size[u] && SamePayloadBytes(m, m', s, {u})
  }

  predicate Unnamed(script: seq<Op>, u: int) {
    forall i :: 0 <= i < |script| ==> !Names(script[i], u)
  }

  /** The accounts from call to call: those the client may make change them, the others are not made. */
  ghost predicate Recorded(trace: seq<Account>, script: seq<Op>) {
    && 0 < |trace| <= |script| + 1
    && forall i :: 0 <= i < |trace| - 1 ==> Booked(trace[i], script[i], trace[i + 1])
  }

  ghost predicate Booked(a: Account, op: Op, a': Account) {
    && Sound(a.shape) && a.view.Keys == a.shape.used
    && if Fair(a.shape, op) then !Stops(a.shape, op) && Follows(a, op, a') else a' == a
  }

  lemma Appended(trace: seq<Account>, script: seq<Op>, i: nat, a: Account)
    requires i < |script| && |trace| == i + 1 && Recorded(trace, script) && Booked(trace[i], script[i], a)
    ensures Recorded(trace + [a], script)
  {
  }

  /** Any run, until the script ends or the CPU stops: the heap stays well formed, the blocks in use are
      those the client holds, memory has what its books say of them, blocks the script does not name keep
      their content, and once the client holds nothing the heap is one free block again. */
  method Run(h: Heap, script: seq<Op>, start: set<int>, ghost view: map<int, Content>)
    returns (held: set<int>, stopped: bool, ghost trace: seq<Account>)
    requires h.Valid() && h.shape.used == start && Knows(h.mem[..], Account(h.shape, view))
    modifies h, h.mem
    ensures Recorded(trace, script) && trace[0] == Account(old(h.shape), view)
    ensures !stopped ==> h.Valid() && h.shape.used == held && |trace| == |script| + 1
    ensures !stopped ==> trace[|script|].shape == h.shape && Knows(h.mem[..], trace[|script|])
    ensures !stopped ==> Preserved(old(h.mem[..]), old(h.shape), h.mem[..], h.shape, script)
    ensures !stopped && held == {} ==> h.shape == Fresh()
    ensures stopped ==> StopsAt(trace, script)
  {
    held, stopped := start, false;
    ghost var m, s := h.mem[..], h.shape;
    trace := [Account(h.shape, view)];
    var i := 0;
    while i < |script|
      invariant 0 <= i <= |script| && !stopped && h.Valid() && h.shape.used == held
      invariant |trace| == i + 1 && Recorded(trace, script) && trace[0] == Account(s, view)
      invariant trace[i].shape == h.shape && Knows(h.mem[..], trace[i])
      invariant Preserved(m, s, h.mem[..], h.shape, script[..i])
    {
      ghost var m1, s1 := h.mem[..], h.shape;
      var fair := MayCall(h, script[i], held);
      if fair {
        ghost var view';
        held, stopped, view' := Step(h, script[i], held, trace[i].view);
        if stopped { return; }
        Appended(trace, script, i, Account(h.shape, view'));
        trace := trace + [Account(h.shape, view')];
        PreservedStep(m, s, m1, s1, h.mem[..], h.shape, script, i);
      } else {
        Appended(trace, script, i, trace[i]);
        trace := trace + [trace[i]];
        PreservedSkip(m, s, m1, s1, script, i);
      }
      i := i + 1;
    }
    assert script[..i] == script;
    if held == {} {
      AllFreeIsWhole(h.shape);
    }
  }

  /** The last account is that of a call that stops the CPU. */
  ghost predicate StopsAt(trace: seq<Account>, script: seq<Op>) {
    && 0 < |trace| <= |script|
    && var s, op := trace[|trace| - 1].shape, script[|trace| - 1];
       Sound(s) && Fair(s, op) && Stops(s, op)
  }

  lemma PreservedStep(m: seq<byte>, s: Shape, m1: seq<byte>, s1: Shape, m2: seq<byte>, s2: Shape, script: seq<Op>, i: nat)
    requires i < |script| && |m| == |m1| == |m2|
    requires Preserved(m, s, m1, s1, script[..i]) && Untouched(m1, s1, m2, s2, script[i])
    ensures Preserved(m, s, m2, s2, script[..i + 1])
  {
    forall u | u in s.used && u in s.size && Unnamed(script[..i + 1], u)
      ensures u in s2.used && u in s2.size && s2.size[u] == s.size[u] && SamePayloadBytes(m, m2, s, {u})
    {
      UnnamedPrefix(script, i, u);
      BytesTrans(m, m1, m2, s, s1, {u});
    }
  }

  lemma PreservedSkip(m: seq<byte>, s: Shape, m1: seq<byte>, s1: Shape, script: seq<Op>, i: nat)
    requires i < |script| && Preserved(m, s, m1, s1, script[..i])
    ensures Preserved(m, s, m1, s1, script[..i + 1])
  {
    forall u | u in s.used && u in s.size && Unnamed(script[..i + 1], u)
      ensures u in s1.used && u in s1.size && s1.size[u] == s.size[u] && SamePayloadBytes(m, m1, s, {u})
    {
      UnnamedPrefix(script, i, u);
    }
  }

  lemma UnnamedPrefix(script: seq<Op>, i: nat, u: int)
    requires i < |script| && Unnamed(script[..i + 1], u)
    ensures Unnamed(script[..i], u) && !Names(script[i], u)
  {
    assert script[..i + 1][i] == script[i];
    assert forall k :: 0 <= k < i ==> script[..i][k] == script[..i + 1][k];
  }


  // ---------------------------------------------------------------- what realloc loses

  /** Where realloc cannot keep the payload, a block whose byte at that place differs from the byte
      written there does lose its content: KeepsContent is exact. */
  lemma LossIsReal(base: int, m: seq<byte>, s: Shape, m': seq<byte>, s': Shape, b: int, n: int, r: int)
    requires |m| == |m'| == END && Sound(s) && b in s.used && 0 < n
    requires ReallocDone(base, m, s, m', s', b, n, r) && !KeepsContent(s, b, n)
    ensures var (k, v) := Overwritten(base, b, MergeStart(s, b), r, Need(n));
            && 0 <= k < Min(s.size[b], n) && 0 <= b + 4 + k < END && 0 <= v < BITS32
            && (m[b + 4 + k] != ByteOf(v, 0) ==> !SamePrefix(m, b, m', r, Min(s.size[b], n)))
  {
    var (k, v) := Overwritten(base, b, MergeStart(s, b), r, Need(n));
    PayloadsDisjoint(s, b, b);
    assert m'[r + 4 + k] == ByteOf(v, 0) && r + 4 + k - r + b == b + 4 + k;
  }

  /** Shrinking a block between used neighbours far enough to split it always loses content. */
  lemma ShrinkInPlaceLoses(s: Shape, b: int, n: int)
    requires Sound(s) && b in s.used && 0 < n && Surrounded(s, b) && Splits(s, b, n)
    ensures !KeepsContent(s, b, n)
  {
    MergeNothing(s, b);
    assert GoodBlock(s.size, b);
  }

  /** The heap as one used block. */
  ghost function Whole(): Shape {
    Shape(map[HEAD := HEAP_SIZE - OVERHEAD], {HEAD}, [])
  }

  lemma WholeTaken(k: int)
    requires FirstFit(Fresh(), k, HEAP_SIZE - OVERHEAD)
    ensures AllocShape(Fresh(), k, HEAP_SIZE - OVERHEAD) == Whole() && AllocAddr(Fresh(), k, HEAP_SIZE - OVERHEAD) == HEAD
  {
    assert k == 0;
    assert Fresh().free[0] == HEAD + 4;
    assert !Splits(TakeShape(Fresh(), 0), HEAD, HEAP_SIZE - OVERHEAD);
    assert TakeShape(Fresh(), 0) == Whole();
  }

  lemma WholeShrunk()
    requires Sound(Whole())
    ensures Surrounded(Whole(), HEAD) && Splits(Whole(), HEAD, 10) && !KeepsContent(Whole(), HEAD, 10)
    ensures MergeStart(Whole(), HEAD) == HEAD && !Relocates(Whole(), HEAD, 10)
  {
    ShrinkInPlaceLoses(Whole(), HEAD, 10);
    MergeNothing(Whole(), HEAD);
  }

  /** A run that loses a byte: all of the heap is allocated, its first byte written, and the block shrunk
      to 10 bytes.  Whatever was written, that byte is then the low byte of the heap's address. */
  method ShrinkWholeHeap(base: int, outside: int -> byte, value: byte) returns (h: Heap, ptr: int)
    requires Placed(base) && Quiet(base, outside)
    ensures h.Valid() && ptr - 4 in h.shape.used && 0 <= ptr < h.mem.Length
    ensures h.mem[ptr] == ByteOf(base, 0)
  {
    h := new Heap(base, outside);
    var p, k := h.Malloc(HEAP_SIZE - OVERHEAD);
    WholeTaken(k);
    h.Store(HEAD + 4, 0, value);
    WholeShrunk();
    var r := h.Realloc(HEAD + 4, 10);
    ptr := r.ptr;
    PayloadsDisjoint(h.shape, ptr - 4, ptr - 4);
  }

  // ---------------------------------------------------------------- what a second free does not notice

  lemma FirstBlockAbsorbed(k: int, size: int)
    requires 0 < size && Need(size) + 2 * OVERHEAD + MIN_BLOCK <= HEAP_SIZE && FirstFit(Fresh(), k, size)
    requires Sound(Fresh())
    ensures var t, c := AllocShape(Fresh(), k, size), AllocAddr(Fresh(), k, size);
            Sound(t) && c in t.used && Absorbed(t, c)
  {
    AllocSound(Fresh(), k, size);
    assert k == 0 && Fresh().free[0] == HEAD + 4;
    var t, c := AllocShape(Fresh(), k, size), AllocAddr(Fresh(), k, size);
    assert c != HEAD && HEAD !in t.used && After(t.size, HEAD) == c;
    PredUnique(t.size, c, HEAD);
  }

  /** A run in which a second free would go unnoticed: the first block ever allocated, unless it takes the
      whole heap, still passes for a used one when it is free. */
  method FreeFirstBlock(base: int, outside: int -> byte, size: int) returns (h: Heap, ptr: int)
    requires Placed(base) && Quiet(base, outside)
    requires 0 < size && Need(size) + 2 * OVERHEAD + MIN_BLOCK <= HEAP_SIZE
    ensures h.Valid() && h.shape.used == {} && Passes(h.mem[..], ptr)
  {
    h := new Heap(base, outside);
    var p, k := h.Malloc(size);
    FirstBlockAbsorbed(k, size);
    ptr := p.value;
    var _ := h.Free(ptr);
  }
}
