/** The timer list of meeting/bellringer.cc: every bell stores how many ticks after its predecessor it is
    due.  The list refines a map from bells to remaining ticks. */
module BellringerList {
  import opened Common


  // ---- the list, with deadlines in place of differences ----

  /** Pending bells in the order they will ring, and when each is due. */
  datatype Timers<T> = Timers(bells: seq<T>, due: seq<int>)

  ghost predicate Shaped<T>(t: Timers<T>) {
    |t.bells| == |t.due| && Distinct(t.bells) && Sorted(t.due)
  }

  ghost predicate Sound<T>(t: Timers<T>) {
    Shaped(t) && InRange(t.due)
  }

  ghost predicate InRange(due: seq<int>) {
    forall i :: 0 <= i < |due| ==> 1 <= due[i] < BITS32
  }

  ghost predicate Sorted(due: seq<int>) {
    forall i, j :: 0 <= i < j < |due| ==> due[i] <= due[j]
  }

  /** The number of leading entries that are not after `ms`. */
  function Slot(due: seq<int>, ms: int): (p: nat)
    ensures p <= |due| && (p < |due| ==> due[p] > ms)
    ensures forall i :: 0 <= i < p ==> due[i] <= ms
  {
    if due == [] || due[0] > ms then 0 else 1 + Slot(due[1..], ms)
  }

  function Insert<T>(q: seq<T>, p: nat, x: T): (r: seq<T>)
    requires p <= |q|
    ensures |r| == |q| + 1
  {
    q[..p] + [x] + q[p..]
  }

  function Added<T>(t: Timers<T>, bell: T, ms: int): Timers<T>
    requires |t.bells| == |t.due|
  {
    Timers(Insert(t.bells, Slot(t.due, ms), bell), Insert(t.due, Slot(t.due, ms), ms))
  }

  function Removed<T>(t: Timers<T>, k: nat): Timers<T>
    requires k < |t.bells| == |t.due|
  {
    Timers(Drop(t.bells, k), Drop(t.due, k))
  }

  /** The bells of this tick. */
  function Rung<T>(t: Timers<T>): seq<T>
    requires |t.bells| == |t.due|
  {
    t.bells[..Slot(t.due, 1)]
  }

  function Elapsed<T>(t: Timers<T>): Timers<T>
    requires |t.bells| == |t.due|
  {
    var n := Slot(t.due, 1);
    Timers(t.bells[n..], Sooner(t.due)[n..])
  }

  function Sooner(due: seq<int>): (r: seq<int>)
    ensures |r| == |due| && forall i :: 0 <= i < |r| ==> r[i] == due[i] - 1
  {
    seq(|due|, i requires 0 <= i < |due| => due[i] - 1)
  }

  // ---- the map it stands for ----

  ghost predicate Refines<T>(t: Timers<T>, m: map<T, int>) {
    Sound(t) && Maps(t, m) && Covers(t.bells, m)
  }

  ghost predicate Maps<T>(t: Timers<T>, m: map<T, int>)
    requires |t.bells| == |t.due|
  {
    forall i {:trigger MapsTo(m, t.bells[i], t.due[i])} :: 0 <= i < |t.bells| ==> MapsTo(m, t.bells[i], t.due[i])
  }

  ghost predicate MapsTo<T>(m: map<T, int>, bell: T, due: int) {
    bell in m && m[bell] == due
  }

  ghost predicate Covers<T>(q: seq<T>, m: map<T, int>) {
    forall b :: b in m ==> b in q
  }

  /** Where the `i`-th entry was before the insertion at `p`. */
  function OldIndex(p: nat, i: nat): int {
    if i < p then i else i - 1
  }

  lemma InsertAt<T>(q: seq<T>, p: nat, x: T, i: nat)
    requires p <= |q| && i <= |q|
    ensures Insert(q, p, x)[i] == if i == p then x else q[OldIndex(p, i)]
  {
  }

  lemma InsertKeepsOrder(due: seq<int>, ms: int, i: nat, j: nat)
    requires Sorted(due) && i < j <= |due|
    ensures Insert(due, Slot(due, ms), ms)[i] <= Insert(due, Slot(due, ms), ms)[j]
  {
    var p := Slot(due, ms);
    InsertAt(due, p, ms, i);
    InsertAt(due, p, ms, j);
    if i == p { SlotIsDeadline(due, ms, j - 1); }
    if j == p { SlotIsDeadline(due, ms, i); }
  }

  lemma InsertSorted(due: seq<int>, ms: int)
    requires Sorted(due) && InRange(due) && 1 <= ms < BITS32
    ensures Sorted(Insert(due, Slot(due, ms), ms)) && InRange(Insert(due, Slot(due, ms), ms))
  {
    var p := Slot(due, ms);
    var r := Insert(due, p, ms);
    forall i: nat | i < |r|
      ensures 1 <= r[i] < BITS32
    {
      InsertAt(due, p, ms, i);
    }
    forall i: nat, j: nat | i < j < |r|
      ensures r[i] <= r[j]
    {
      InsertKeepsOrder(due, ms, i, j);
    }
  }

  lemma InsertDistinct<T>(q: seq<T>, p: nat, x: T)
    requires p <= |q| && Distinct(q) && x !in q
    ensures Distinct(Insert(q, p, x))
  {
    var r := Insert(q, p, x);
    forall i: nat, j: nat | i < j < |r|
      ensures r[i] != r[j]
    {
      InsertAt(q, p, x, i);
      InsertAt(q, p, x, j);
    }
  }

  lemma InsertHas<T>(q: seq<T>, p: nat, x: T, b: T)
    requires p <= |q|
    ensures b in Insert(q, p, x) <==> b in q || b == x
  {
    assert Insert(q, p, x)[p] == x;
    if b in q {
      var i :| 0 <= i < |q| && q[i] == b;
      assert Insert(q, p, x)[if i < p then i else i + 1] == b;
    }
  }

  lemma JobSound<T>(t: Timers<T>, bell: T, ms: int)
    requires Sound(t) && bell !in t.bells && 1 <= ms < BITS32
    ensures Sound(Added(t, bell, ms))
  {
    InsertSorted(t.due, ms);
    InsertDistinct(t.bells, Slot(t.due, ms), bell);
  }

  lemma JobMaps<T>(t: Timers<T>, m: map<T, int>, bell: T, ms: int)
    requires |t.bells| == |t.due| && Maps(t, m) && bell !in m
    ensures Maps(Added(t, bell, ms), m[bell := ms])
  {
    var p := Slot(t.due, ms);
    var bells, due := Insert(t.bells, p, bell), Insert(t.due, p, ms);
    forall i: nat | i < |bells|
      ensures MapsTo(m[bell := ms], bells[i], due[i])
    {
      InsertAt(t.bells, p, bell, i);
      InsertAt(t.due, p, ms, i);
      if i != p { assert MapsTo(m, t.bells[OldIndex(p, i)], t.due[OldIndex(p, i)]); }
    }
  }

  lemma JobCovers<T>(t: Timers<T>, m: map<T, int>, bell: T, ms: int)
    requires |t.bells| == |t.due| && Covers(t.bells, m)
    ensures Covers(Added(t, bell, ms).bells, m[bell := ms])
  {
    var p := Slot(t.due, ms);
    forall b | b in m[bell := ms]
      ensures b in Insert(t.bells, p, bell)
    {
      InsertHas(t.bells, p, bell, b);
    }
  }

  lemma Unmapped<T>(t: Timers<T>, m: map<T, int>, bell: T)
    requires Refines(t, m) && bell !in m
    ensures bell !in t.bells
  {
    assert forall i :: 0 <= i < |t.bells| ==> MapsTo(m, t.bells[i], t.due[i]);
  }

  /** `job` adds one entry and changes no other. */
  lemma JobRefines<T>(t: Timers<T>, m: map<T, int>, bell: T, ms: int)
    requires Refines(t, m) && bell !in m && 1 <= ms < BITS32
    ensures Refines(Added(t, bell, ms), m[bell := ms])
  {
    Unmapped(t, m, bell);
    JobSound(t, bell, ms);
    JobMaps(t, m, bell, ms);
    JobCovers(t, m, bell, ms);
  }

  lemma CancelSound<T>(t: Timers<T>, k: nat)
    requires Sound(t) && k < |t.bells|
    ensures Sound(Removed(t, k))
  {
    DropFacts(t.bells, k);
    DropSorted(t.due, k);
  }

  lemma DropSorted(due: seq<int>, k: nat)
    requires Sorted(due) && k < |due|
    ensures Sorted(Drop(due, k)) && (InRange(due) ==> InRange(Drop(due, k)))
  {
    var r := Drop(due, k);
    assert forall i :: 0 <= i < |r| ==> r[i] == due[if i < k then i else i + 1];
  }

  lemma CancelMaps<T>(t: Timers<T>, m: map<T, int>, k: nat)
    requires |t.bells| == |t.due| && Distinct(t.bells) && Maps(t, m) && k < |t.bells|
    ensures Maps(Removed(t, k), m - {t.bells[k]})
  {
    var c := Removed(t, k);
    forall i | 0 <= i < |c.bells|
      ensures MapsTo(m - {t.bells[k]}, c.bells[i], c.due[i])
    {
      var o := if i < k then i else i + 1;
      assert c.bells[i] == t.bells[o] && c.due[i] == t.due[o];
      assert MapsTo(m, t.bells[o], t.due[o]);
    }
  }

  /** `cancel` removes one entry and changes no other. */
  lemma CancelRefines<T>(t: Timers<T>, m: map<T, int>, k: nat)
    requires Refines(t, m) && k < |t.bells|
    ensures Refines(Removed(t, k), m - {t.bells[k]})
  {
    CancelSound(t, k);
    CancelMaps(t, m, k);
    forall b | b in m - {t.bells[k]}
      ensures b in Drop(t.bells, k)
    {
      DropFacts(t.bells, k);
    }
  }

  function Tick<T>(m: map<T, int>): map<T, int> {
    map b | b in m && m[b] > 1 :: m[b] - 1
  }

  lemma SlotIsDeadline(due: seq<int>, ms: int, i: nat)
    requires Sorted(due) && i < |due|
    ensures i < Slot(due, ms) <==> due[i] <= ms
  {
    var p := Slot(due, ms);
    assert p < i ==> due[p] <= due[i];
  }

  /** `check` rings exactly the bells with one tick left... */
  lemma CheckRings<T>(t: Timers<T>, m: map<T, int>)
    requires Refines(t, m)
    ensures Distinct(Rung(t)) && forall b :: b in Rung(t) <==> b in m && m[b] == 1
  {
    var n := Slot(t.due, 1);
    forall b | b in m && m[b] == 1
      ensures b in Rung(t)
    {
      var i :| 0 <= i < |t.bells| && t.bells[i] == b;
      SlotIsDeadline(t.due, 1, i);
      assert MapsTo(m, t.bells[i], t.due[i]);
      assert Rung(t)[i] == b;
    }
    forall b | b in Rung(t)
      ensures b in m && m[b] == 1
    {
      var i :| 0 <= i < n && Rung(t)[i] == b;
      assert t.bells[i] == b && MapsTo(m, t.bells[i], t.due[i]);
    }
  }

  lemma CheckAt<T>(t: Timers<T>, i: nat)
    requires Sound(t) && i < |Elapsed(t).due|
    ensures var n := Slot(t.due, 1);
      n + i < |t.due| && Elapsed(t).due[i] == t.due[n + i] - 1 && Elapsed(t).bells[i] == t.bells[n + i] && t.due[n + i] > 1
  {
    SlotIsDeadline(t.due, 1, Slot(t.due, 1) + i);
  }

  lemma CheckSound<T>(t: Timers<T>)
    requires Sound(t)
    ensures Sound(Elapsed(t))
  {
    var c := Elapsed(t);
    forall i | 0 <= i < |c.due|
      ensures 1 <= c.due[i] < BITS32
    {
      CheckAt(t, i);
    }
  }

  lemma CheckMaps<T>(t: Timers<T>, m: map<T, int>)
    requires Sound(t) && Maps(t, m)
    ensures Maps(Elapsed(t), Tick(m))
  {
    var c := Elapsed(t);
    forall i | 0 <= i < |c.bells|
      ensures MapsTo(Tick(m), c.bells[i], c.due[i])
    {
      CheckAt(t, i);
      assert MapsTo(m, t.bells[Slot(t.due, 1) + i], t.due[Slot(t.due, 1) + i]);
    }
  }

  /** ... and brings every other one tick nearer. */
  lemma CheckRefines<T>(t: Timers<T>, m: map<T, int>)
    requires Refines(t, m)
    ensures Refines(Elapsed(t), Tick(m))
  {
    var n := Slot(t.due, 1);
    var c := Elapsed(t);
    CheckSound(t);
    CheckMaps(t, m);
    forall b | b in Tick(m)
      ensures b in c.bells
    {
      var i :| 0 <= i < |t.bells| && t.bells[i] == b;
      SlotIsDeadline(t.due, 1, i);
      assert MapsTo(m, t.bells[i], t.due[i]);
      assert c.bells[i - n] == b;
    }
  }

  // ---- runs ----

  datatype Op<T> = Set(bell: T, ms: int) | Stop(bell: T) | Elapse

  ghost predicate Enabled<T>(m: map<T, int>, op: Op<T>) {
    match op
    case Set(b, ms) => b !in m && 1 <= ms < BITS32
    case Stop(b) => b in m
    case Elapse => true
  }

  function Apply<T(==)>(t: Timers<T>, op: Op<T>): Timers<T>
    requires |t.bells| == |t.due| && (op.Stop? ==> op.bell in t.bells)
  {
    match op
    case Set(b, ms) => Added(t, b, ms)
    case Stop(b) => Removed(t, Position(t.bells, b))
    case Elapse => Elapsed(t)
  }

  function Later<T>(m: map<T, int>, op: Op<T>): map<T, int> {
    match op
    case Set(b, ms) => m[b := ms]
    case Stop(b) => m - {b}
    case Elapse => Tick(m)
  }

  lemma ApplyRefines<T>(t: Timers<T>, m: map<T, int>, op: Op<T>)
    requires Refines(t, m) && Enabled(m, op)
    ensures op.Stop? ==> op.bell in t.bells
    ensures Refines(Apply(t, op), Later(m, op))
  {
    match op
    case Set(b, ms) => JobRefines(t, m, b, ms);
    case Stop(b) => CancelRefines(t, m, Position(t.bells, b));
    case Elapse => CheckRefines(t, m);
  }

  /** `ops`, none of which cancels `bell`, lead from `t` to `f`. */
  ghost predicate Run<T>(t: Timers<T>, m: map<T, int>, ops: seq<Op<T>>, bell: T, f: Timers<T>)
    requires Refines(t, m)
    decreases |ops|
  {
    if ops == [] then f == t else
    && Enabled(m, ops[0]) && ops[0] != Stop(bell)
    && (ApplyRefines(t, m, ops[0]); Run(Apply(t, ops[0]), Later(m, ops[0]), ops[1..], bell, f))
  }

  function Ticks<T>(ops: seq<Op<T>>): nat {
    if ops == [] then 0 else (if ops[0].Elapse? then 1 else 0) + Ticks(ops[1..])
  }

  /** A bell with `k` ticks left that is not cancelled is silent for `k - 1` checks... */
  lemma {:induction false} SilentBefore<T>(t: Timers<T>, m: map<T, int>, ops: seq<Op<T>>, bell: T, f: Timers<T>) returns (n: map<T, int>)
    requires Refines(t, m) && Run(t, m, ops, bell, f)
    requires bell in m && Ticks(ops) < m[bell]
    ensures Refines(f, n) && bell in n && n[bell] == m[bell] - Ticks(ops)
    decreases |ops|
  {
    if ops == [] {
      n := m;
    } else {
      ApplyRefines(t, m, ops[0]);
      n := SilentBefore(Apply(t, ops[0]), Later(m, ops[0]), ops[1..], bell, f);
    }
  }

  /** ... and rings on the `ms`-th check after `job`, whatever else was set, cancelled or rung between. */
  lemma RingsOnTime<T>(t: Timers<T>, m: map<T, int>, bell: T, ms: int, ops: seq<Op<T>>, f: Timers<T>)
    requires Refines(t, m) && bell !in m && 1 <= ms < BITS32
    requires (JobRefines(t, m, bell, ms); Run(Added(t, bell, ms), m[bell := ms], ops, bell, f))
    requires Ticks(ops) < ms
    ensures Sound(f) && bell in f.bells
    ensures bell in Rung(f) <==> Ticks(ops) == ms - 1
    ensures Ticks(ops) == ms - 1 ==> bell !in Elapsed(f).bells
  {
    JobRefines(t, m, bell, ms);
    var n := SilentBefore(Added(t, bell, ms), m[bell := ms], ops, bell, f);
    CheckRings(f, n);
    CheckRefines(f, n);
  }

  lemma SetKeepsOrder<T>(t: Timers<T>, b: T, ms: int, x: T, y: T)
    requires |t.bells| == |t.due| && Before(t.bells, x, y)
    ensures Before(Added(t, b, ms).bells, x, y)
  {
    var i, j :| 0 <= i < j < |t.bells| && t.bells[i] == x && t.bells[j] == y;
    var p := Slot(t.due, ms);
    var f := Insert(t.bells, p, b);
    InsertAt(t.bells, p, b, After(p, i));
    InsertAt(t.bells, p, b, After(p, j));
    assert f[After(p, i)] == x && f[After(p, j)] == y;
  }

  lemma NotRung<T>(t: Timers<T>, j: nat)
    requires Sound(t) && Slot(t.due, 1) <= j < |t.bells|
    ensures t.bells[j] !in Rung(t)
  {
    assert forall k :: 0 <= k < |Rung(t)| ==> Rung(t)[k] == t.bells[k];
  }

  lemma ElapseKeepsOrder<T>(t: Timers<T>, x: T, y: T)
    requires Sound(t) && Before(t.bells, x, y)
    ensures y in Rung(t) ==> Before(Rung(t), x, y)
    ensures x !in Rung(t) ==> Before(Elapsed(t).bells, x, y)
  {
    var i, j :| 0 <= i < j < |t.bells| && t.bells[i] == x && t.bells[j] == y;
    var n := Slot(t.due, 1);
    if i < n { assert Rung(t)[i] == x; }
    if j < n { assert Rung(t)[j] == y; } else { NotRung(t, j); }
    if i >= n { assert Elapsed(t).bells[i - n] == x && Elapsed(t).bells[j - n] == y; }
  }

  /** A bell ahead of another in the list stays ahead of it until it rings or is cancelled, and rings in the
      same check, before it, or in an earlier one. */
  lemma RingInOrder<T>(t: Timers<T>, m: map<T, int>, op: Op<T>, x: T, y: T)
    requires Refines(t, m) && Enabled(m, op) && Before(t.bells, x, y)
    requires op != Stop(x) && op != Stop(y)
    ensures op.Elapse? && y in Rung(t) ==> Before(Rung(t), x, y)
    ensures op.Stop? ==> op.bell in t.bells
    ensures !(op.Elapse? && x in Rung(t)) ==> Before(Apply(t, op).bells, x, y)
  {
    ApplyRefines(t, m, op);
    match op
    case Set(b, ms) => SetKeepsOrder(t, b, ms, x, y);
    case Stop(b) => DropKeepsOrder(t.bells, Position(t.bells, b), x, y);
    case Elapse => ElapseKeepsOrder(t, x, y);
  }

  /** A new bell goes behind every bell due no later than it. */
  lemma SetBehind<T>(t: Timers<T>, m: map<T, int>, x: T, y: T, ms: int)
    requires Refines(t, m) && x in m && m[x] <= ms
    ensures Before(Added(t, y, ms).bells, x, y)
  {
    var i :| 0 <= i < |t.bells| && t.bells[i] == x;
    assert MapsTo(m, t.bells[i], t.due[i]);
    SlotIsDeadline(t.due, ms, i);
    assert Added(t, y, ms).bells[i] == x && Added(t, y, ms).bells[Slot(t.due, ms)] == y;
  }

  lemma {:induction false} OrderLasts<T>(t: Timers<T>, m: map<T, int>, ops: seq<Op<T>>, x: T, y: T, f: Timers<T>)
    requires Refines(t, m) && Run(t, m, ops, x, f) && Run(t, m, ops, y, f)
    requires x in m && Ticks(ops) < m[x] && Before(t.bells, x, y)
    ensures Sound(f) && Before(f.bells, x, y)
    decreases |ops|
  {
    if ops != [] {
      CheckRings(t, m);
      RingInOrder(t, m, ops[0], x, y);
      ApplyRefines(t, m, ops[0]);
      OrderLasts(Apply(t, ops[0]), Later(m, ops[0]), ops[1..], x, y, f);
    }
  }

  /** Bells due in the same check ring in the order in which they were set, whatever else was set, cancelled
      or rung between. */
  lemma TiesRingInOrder<T>(t: Timers<T>, m: map<T, int>, x: T, y: T, ms: int, ops: seq<Op<T>>, f: Timers<T>)
    requires Refines(t, m) && x in m && y !in m && m[x] == ms && 1 <= ms < BITS32
    requires (JobRefines(t, m, y, ms);
              Run(Added(t, y, ms), m[y := ms], ops, x, f) && Run(Added(t, y, ms), m[y := ms], ops, y, f))
    requires Ticks(ops) == ms - 1
    ensures Sound(f) && x in Rung(f) && y in Rung(f) && Before(Rung(f), x, y)
  {
    JobRefines(t, m, y, ms);
    SetBehind(t, m, x, y, ms);
    OrderLasts(Added(t, y, ms), m[y := ms], ops, x, y, f);
    var n := SilentBefore(Added(t, y, ms), m[y := ms], ops, x, f);
    CheckRings(f, n);
    var k := SilentBefore(Added(t, y, ms), m[y := ms], ops, y, f);
    CheckRings(f, k);
    ElapseKeepsOrder(f, x, y);
  }

  function After(p: nat, i: nat): nat {
    if i < p then i else i + 1
  }

  // ---- the list as the code keeps it ----

  function Difference(due: seq<int>, i: nat): int
    requires i < |due|
  {
    if i == 0 then due[0] else due[i] - due[i - 1]
  }

  lemma InsertDifference(due: seq<int>, p: nat, ms: int, k: nat)
    requires p <= |due| && k <= |due|
    ensures Difference(Insert(due, p, ms), k) ==
      if k < p then Difference(due, k)
      else if k == p then ms - (if p == 0 then 0 else due[p - 1])
      else if k == p + 1 then due[p] - ms
      else Difference(due, k - 1)
  {
    InsertAt(due, p, ms, k);
    if k > 0 { InsertAt(due, p, ms, k - 1); }
  }

  lemma DropDifference(due: seq<int>, k: nat, i: nat)
    requires k < |due| && i < |due| - 1
    ensures Difference(Drop(due, k), i) ==
      if i < k then Difference(due, i)
      else if i == k then Difference(due, k) + Difference(due, k + 1)
      else Difference(due, i + 1)
  {
  }

  class Bell {
    /** Ticks after the predecessor, an `unsigned int`. */
    var ms: nat

    constructor ()
      ensures ms == 0
    {
      ms := 0;
    }
  }

  class Bellringer {
    var bellList: seq<Bell>
    ghost var due: seq<int>

    ghost function View(): Timers<Bell>
      reads this
    {
      Timers(bellList, due)
    }

    /** The difference each bell stores; the first counts from now. */
    ghost predicate Stored(i: int)
      requires 0 <= i < |bellList| == |due|
      reads this, bellList
    {
      bellList[i].ms == Difference(due, i)
    }

    ghost predicate Valid()
      reads this, bellList
    {
      Linked() && InRange(due)
    }

    /** What holds even while a check is half done. */
    ghost predicate Linked()
      reads this, bellList
    {
      && Shaped(View())
      && (forall i {:trigger Stored(i)} {:trigger bellList[i]} :: 0 <= i < |bellList| ==> Stored(i))
    }

    /** The head's difference is always positive, and no stored difference needs more than 32 bits. */
    lemma StoredInRange(i: nat)
      requires Valid() && i < |bellList|
      ensures bellList[i].ms < BITS32 && (i == 0 ==> bellList[i].ms > 0)
    {
      assert Stored(i);
    }

    constructor ()
      ensures Valid() && View() == Timers([], [])
    {
      bellList, due := [], [];
    }

    method Job(bell: Bell, ms: nat)
      requires Valid() && bell !in bellList && 1 <= ms < BITS32
      modifies this, bell, bellList
      ensures Valid() && View() == Added(old(View()), bell, ms)
    {
      var i, left := FindSlot(ms);
      PutAt(i, left, bell, ms);
    }

    /** The place of a new bell, and what is left of `ms` there. */
    method FindSlot(ms: nat) returns (i: nat, left: nat)
      requires Valid()
      ensures i == Slot(due, ms) && left == ms - (if i == 0 then 0 else due[i - 1])
      ensures i < |bellList| ==> left <= bellList[i].ms
    {
      left := ms;
      i := 0;
      while i < |bellList| && bellList[i].ms <= left
        invariant i <= |bellList|
        invariant left == ms - (if i == 0 then 0 else due[i - 1])
      {
        assert Stored(i);
        left := left - bellList[i].ms;
        i := i + 1;
      }
      if i < |bellList| { assert Stored(i); }
      SlotUnique(due, ms, i);
    }

    method PutAt(i: nat, left: nat, bell: Bell, ghost ms: nat)
      requires Valid() && bell !in bellList && 1 <= ms < BITS32
      requires i == Slot(due, ms) && left == ms - (if i == 0 then 0 else due[i - 1])
      requires i < |bellList| ==> left <= bellList[i].ms
      modifies this, bell, bellList
      ensures Valid() && View() == Added(old(View()), bell, ms)
    {
      JobSound(View(), bell, ms);
      Relink(i, left, bell);
      ghost var bells, dues := bellList, due;
      bellList, due := Insert(bellList, i, bell), Insert(due, i, ms);
      forall k: nat | k < |bellList|
        ensures Stored(k)
      {
        InsertAt(bells, i, bell, k);
        InsertDifference(dues, i, ms, k);
        if k != i { assert bells[OldIndex(i, k)].ms == Difference(dues, OldIndex(i, k)) - (if k == i + 1 then left else 0); }
      }
    }

    method Relink(i: nat, left: nat, bell: Bell)
      requires Valid() && bell !in bellList && i <= |bellList| && (i < |bellList| ==> left <= bellList[i].ms)
      modifies bell, bellList
      ensures bell.ms == left
      ensures forall k :: 0 <= k < |bellList| ==> bellList[k].ms == Difference(due, k) - (if k == i then left else 0)
    {
      assert forall k :: 0 <= k < |bellList| ==> Stored(k);
      if i < |bellList| {
        bellList[i].ms := bellList[i].ms - left;
      }
      bell.ms := left;
    }

    /** `Queue::remove` finds the bell by going through the list. */
    method IndexOf(bell: Bell) returns (k: nat)
      requires Valid() && bell in bellList
      ensures k < |bellList| && bellList[k] == bell && k == Position(bellList, bell)
    {
      k := 0;
      while bellList[k] != bell
        invariant k < |bellList| && bell !in bellList[..k]
        decreases |bellList| - k
      {
        k := k + 1;
        assert bell in bellList[k..];
      }
      PositionIs(bellList, k);
    }

    method Cancel(bell: Bell)
      requires Valid() && bell in bellList
      modifies this, bellList
      ensures Valid() && View() == Removed(old(View()), Position(old(bellList), bell))
    {
      var k := IndexOf(bell);
      DropSorted(due, k);
      CancelAt(k);
    }

    /** The successor takes over the removed bell's difference. */
    method CancelAt(k: nat)
      requires k < |bellList| && Linked()
      modifies this, bellList
      ensures Linked() && View() == Removed(old(View()), k)
    {
      assert Stored(k);
      if k + 1 < |bellList| {
        assert Stored(k + 1);
        bellList[k + 1].ms := bellList[k + 1].ms + bellList[k].ms;
      }
      DropFacts(bellList, k);
      DropSorted(due, k);
      bellList, due := Drop(bellList, k), Drop(due, k);
      forall i: nat | i < |bellList|
        ensures Stored(i)
      {
        DropDifference(old(due), k, i);
        assert old(Stored(if i < k then i else i + 1));
      }
    }

    method CancelFirst()
      requires Linked() && bellList != []
      modifies this, bellList
      ensures Linked() && bellList == old(bellList)[1..] && due == old(due)[1..]
    {
      CancelAt(0);
    }

    /** One tick.  The rung bells are returned; waking their sleepers is up to `Bell::ring`. */
    method Check() returns (rung: seq<Bell>)
      requires Valid()
      modifies this, bellList
      ensures Valid() && View() == Elapsed(old(View())) && rung == Rung(old(View()))
    {
      rung := [];
      if bellList == [] { return; }
      CheckSound(View());
      SoonerSlot(due);
      DecrementFirst();
      assert Stored(0);
      if bellList[0].ms == 0 { rung := RingDue(); }
    }

    method DecrementFirst()
      requires Valid() && bellList != []
      modifies bellList, this`due
      ensures Linked() && due == Sooner(old(due))
    {
      assert Stored(0);
      bellList[0].ms := bellList[0].ms - 1;
      due := Sooner(due);
      forall i: nat | i < |bellList|
        ensures Stored(i)
      {
        assert old(Stored(i));
      }
      SoonerSorted(old(due));
    }

    /** The bells whose time has come are rung and cancelled, from the front. */
    method RingDue() returns (rung: seq<Bell>)
      requires Linked() && bellList != [] && bellList[0].ms == 0
      modifies this, bellList
      ensures Linked() && rung == old(bellList)[..Slot(old(due), 0)]
      ensures bellList == old(bellList)[Slot(old(due), 0)..] && due == old(due)[Slot(old(due), 0)..]
    {
      rung := [];
      ghost var k := 0;
      assert Stored(0);
      var more := true;
      while more
        invariant 0 <= k <= |old(bellList)| && Linked()
        invariant rung == old(bellList)[..k] && bellList == old(bellList)[k..] && due == old(due)[k..]
        invariant k > 0 ==> old(due)[k - 1] <= 0
        invariant more <==> bellList != [] && due[0] <= 0
        decreases |bellList|
      {
        rung := rung + [bellList[0]];
        CancelFirst();
        k := k + 1;
        if bellList != [] { assert Stored(0); }
        more := bellList != [] && bellList[0].ms == 0;
      }
      SlotUnique(old(due), 0, k);
    }
  }

  lemma SoonerSorted(due: seq<int>)
    requires Sorted(due)
    ensures Sorted(Sooner(due))
  {
  }

  lemma {:induction false} SoonerSlot(due: seq<int>)
    ensures Slot(Sooner(due), 0) == Slot(due, 1)
  {
    if due != [] {
      assert Sooner(due)[1..] == Sooner(due[1..]);
      SoonerSlot(due[1..]);
    }
  }

  lemma SlotUnique(due: seq<int>, ms: int, i: nat)
    requires Sorted(due) && i <= |due| && (i > 0 ==> due[i - 1] <= ms) && (i < |due| ==> due[i] > ms)
    ensures Slot(due, ms) == i
  {
    if i < |due| { SlotIsDeadline(due, ms, i); }
    if i > 0 { SlotIsDeadline(due, ms, i - 1); }
  }
}
