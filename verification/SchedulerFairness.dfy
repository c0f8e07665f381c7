/** How long a thread can be kept waiting, by its position in the ready list or in a waiting room; and the
    order in which mutexes are held and let go. */
module SchedulerFairness {
  import opened Common
  import opened SchedulerSpec
  import opened SchedulerRuns
  import opened SchedulerTheorems

  // ---- positions in queues ----

  lemma PlaceIs<T>(q: seq<T>, k: nat, x: T)
    requires Distinct(q) && k < |q| && q[k] == x
    ensures Position(q, x) == k
  {
    PositionIs(q, k);
  }

  /** Newcomers at the end change no position. */
  lemma NewcomersBehind<T>(q: seq<T>, p: seq<T>, x: T)
    requires q <= p && Distinct(p) && x in q
    ensures x in p && Position(p, x) == Position(q, x)
  {
    PlaceIs(p, Position(q, x), x);
  }

  lemma HeadLeaves<T>(q: seq<T>, x: T)
    requires Distinct(q) && q != [] && x in q[1..]
    ensures x in q && Position(q, x) == Position(q[1..], x) + 1
  {
    PlaceIs(q, Position(q[1..], x) + 1, x);
  }

  lemma FrontLeaves<T>(q: seq<T>, p: seq<T>, x: T)
    requires Distinct(q) && Suffix(q, p) && x in p
    ensures x in q && Position(p, x) <= Position(q, x)
  {
    var d := |q| - |p|;
    assert q[Position(p, x) + d] == p[Position(p, x)];
    PlaceIs(q, Position(p, x) + d, x);
  }

  lemma OneLeaves<T>(q: seq<T>, k: T, x: T)
    requires Distinct(q) && x in q && x != k
    ensures x in Delete(q, k) && Position(Delete(q, k), x) <= Position(q, x)
  {
    DeleteFacts(q, k);
    var i := Position(q, x);
    if k in q {
      var j := Position(q, k);
      PlaceIs(Delete(q, k), if i < j then i else i - 1, x);
    }
  }

  // ---- the ready list ----

  /** The call makes some CPU take the next thread from the ready list. */
  ghost predicate Switches(s: State, call: Call)
    requires Inv(s) && Enabled(s, call)
  {
    match call
    case Schedule(_) => true
    case Resume(_) => true
    case Exit(_) => true
    case Sleep(_, _) => true
    case Kill(c, t) => t !in s.th.ready && t !in s.th.waitingIn && s.th.life[c] == Some(t)
    case Assassin(c) => s.th.life[c].value in s.th.killed
    case P(_, r) => s.lk.sem[r].count <= 0
    case Lock(_, m) => assert UnitSound(s.lk, m, NONE); s.lk.sem[m].count <= 0
    case _ => false
  }

  /** A thread that is still in the ready list has moved up by `n` places, or more. */
  ghost predicate MovesUp(th: Threads, th': Threads, t: Thread, n: nat) {
    t in th.ready && t in th'.ready ==> Position(th'.ready, t) + n <= Position(th.ready, t)
  }

  lemma DispatchMovesUp(s: State, c: Cpu, t: Thread)
    requires |s.th.life| == |s.th.idle| == CPU_MAX && Distinct(s.th.ready)
    ensures t in Dispatch(s, c).th.ready ==>
              t in s.th.ready && Position(Dispatch(s, c).th.ready, t) + 1 == Position(s.th.ready, t)
  {
    if t in Dispatch(s, c).th.ready { HeadLeaves(s.th.ready, t); }
  }

  /** The longest waiting threads of the mutexes in `h`, one for each that is waited for. */
  function Heirs(rooms: map<Room, seq<Thread>>, h: seq<Room>): seq<Thread>
    requires forall m :: m in h ==> m in rooms
  {
    if h == [] then [] else (if rooms[h[0]] != [] then [rooms[h[0]][0]] else []) + Heirs(rooms, h[1..])
  }

  lemma {:induction false} HeirsElsewhere(rooms: map<Room, seq<Thread>>, m: Room, q: seq<Thread>, h: seq<Room>)
    requires m !in h && forall k :: k in h ==> k in rooms
    ensures Heirs(rooms[m := q], h) == Heirs(rooms, h)
  {
    if h != [] { HeirsElsewhere(rooms, m, q, h[1..]); }
  }

  lemma ReleaseReady(s: State, t: Thread, m: Room)
    requires m in s.lk.mutex && s.lk.mutex[m] == Owned(t) && m in s.lk.sem && m in s.th.rooms
    ensures Release(s, m).th.ready == s.th.ready + Heirs(s.th.rooms, [m])
    ensures Release(s, m).th.rooms == if s.th.rooms[m] != [] then s.th.rooms[m := s.th.rooms[m][1..]] else s.th.rooms
    ensures forall u :: u != t ==> Held(Release(s, m).lk, u) == Held(s.lk, u)
  {
  }

  lemma HeirsSplit(rooms: map<Room, seq<Thread>>, h: seq<Room>)
    requires h != [] && forall m :: m in h ==> m in rooms
    ensures Heirs(rooms, h) == Heirs(rooms, [h[0]]) + Heirs(rooms, h[1..])
  {
  }

  /** A dying thread unlocks its mutexes in the order in which it locked them: the threads that wait
      longest for them get ready in that order. */
  lemma {:induction false} ReleaseOrder(s: State, t: Thread)
    requires Releasable(s, t)
    ensures ReleaseAll(s, t).th.ready == s.th.ready + Heirs(s.th.rooms, Held(s.lk, t))
    decreases |Held(s.lk, t)|
  {
    hide Release;
    hide Heirs;
    var h := Held(s.lk, t);
    if h == [] {
      NoHeirs(s.th.rooms);
    } else {
      var m := h[0];
      assert h == [m] + h[1..] && m !in h[1..];
      ReleaseKeepsRest(s, t);
      ReleaseReady(s, t, m);
      ReleaseOrder(Release(s, m), t);
      if s.th.rooms[m] != [] { HeirsElsewhere(s.th.rooms, m, s.th.rooms[m][1..], h[1..]); }
      HeirsSplit(s.th.rooms, h);
      Appended(s.th.ready, Heirs(s.th.rooms, [m]), Heirs(s.th.rooms, h[1..]));
    }
  }

  lemma NoHeirs(rooms: map<Room, seq<Thread>>)
    ensures Heirs(rooms, []) == []
  {
  }

  lemma Appended<T>(q: seq<T>, a: seq<T>, b: seq<T>)
    ensures (q + a) + b == q + (a + b)
  {
  }

  lemma ExitMovesUp(s: State, c: Cpu, t: Thread)
    requires Inv(s) && Runs(s.th, c)
    ensures MovesUp(s.th, DoExit(s, c).th, t, 1)
  {
    var dying := s.th.life[c].value;
    var d := Die(s, Bury(s.th, dying), dying);
    ActiveDies(s, c);
    ReleaseOrder(State(Bury(s.th, dying), Forsake(s.lk, dying)), dying);
    DispatchMovesUp(d, c, t);
    if t in s.th.ready { NewcomersBehind(s.th.ready, d.th.ready, t); }
  }

  lemma ResumeMovesUp(s: State, c: Cpu, t: Thread)
    requires Inv(s) && s.th.life[c].Some?
    ensures MovesUp(s.th, DoResume(s, c).th, t, 1)
  {
    var prev := s.th.life[c].value;
    if prev in s.th.killed {
      ExitMovesUp(s, c, t);
    } else if prev in s.th.idle {
      DispatchMovesUp(s, c, t);
    } else {
      var q := State(Requeue(s.th, prev), s.lk);
      RequeueReady(s, c);
      DispatchMovesUp(q, c, t);
      if t in s.th.ready { NewcomersBehind(s.th.ready, q.th.ready, t); }
    }
  }

  lemma KillMovesUp(s: State, c: Cpu, k: Thread, t: Thread)
    requires Inv(s) && Enabled(s, Kill(c, k))
    ensures MovesUp(s.th, DoKill(s, c, k).th, t, if Switches(s, Kill(c, k)) then 1 else 0)
  {
    var f := DoKill(s, c, k);
    if k in s.th.ready {
      QueuedDies(s, k);
      ReleaseOrder(State(DropReady(s.th, k), Forsake(s.lk, k)), k);
      if t in s.th.ready && t in f.th.ready {
        OneLeaves(s.th.ready, k, t);
        NewcomersBehind(Delete(s.th.ready, k), f.th.ready, t);
      }
    } else if k in s.th.waitingIn {
      WaiterDies(s, k);
      ReleaseOrder(State(DropWaiting(s.th, k), Forsake(s.lk, k)), k);
      if t in s.th.ready { NewcomersBehind(s.th.ready, f.th.ready, t); }
    } else {
      FlagKeeps(s, k);
      if s.th.life[c] == Some(k) { ExitMovesUp(Flag(s, k), c, t); }
    }
  }

  lemma CallMovesUp(s: State, call: Call, t: Thread)
    requires Inv(s) && Enabled(s, call)
    ensures MovesUp(s.th, Apply(s, call).th, t, if Switches(s, call) then 1 else 0)
  {
    var f := Apply(s, call);
    CallKeeps(s, call);
    match call
    case Resume(c) => ResumeMovesUp(s, c, t);
    case Exit(c) => ExitMovesUp(s, c, t);
    case Kill(c, k) => KillMovesUp(s, c, k, t);
    case Assassin(c) => if s.th.life[c].value in s.th.killed { ExitMovesUp(s, c, t); }
    case Schedule(c) => DispatchMovesUp(s, c, t);
    case Sleep(c, r) => BlockMovesUp(s, c, r, t);
    case P(c, r) => assert SemaphoreSound(s, r); if s.lk.sem[r].count <= 0 { BlockMovesUp(s, c, r, t); }
    case Lock(c, m) => LockMovesUp(s, c, m, t);
    case Ready(k) => if t in s.th.ready { NewcomersBehind(s.th.ready, f.th.ready, t); }
    case V(r) => if t in s.th.ready { NewcomersBehind(s.th.ready, f.th.ready, t); }
    case Unlock(m) => if t in s.th.ready { NewcomersBehind(s.th.ready, f.th.ready, t); }
    case Ring(r) => WakeAllRest(s.th, r); if t in s.th.ready { NewcomersBehind(s.th.ready, f.th.ready, t); }
  }

  lemma BlockMovesUp(s: State, c: Cpu, r: Room, t: Thread)
    requires Inv(s) && Runs(s.th, c) && r in s.th.rooms
    ensures MovesUp(s.th, Block(s, c, r).th, t, 1)
  {
    DispatchMovesUp(State(Wait(s.th, s.th.life[c].value, r), s.lk), c, t);
  }

  lemma LockMovesUp(s: State, c: Cpu, m: Room, t: Thread)
    requires Inv(s) && Enabled(s, Lock(c, m))
    ensures MovesUp(s.th, DoLock(s, c, m).th, t, if Switches(s, Lock(c, m)) then 1 else 0)
  {
    assert UnitSound(s.lk, m, NONE) && SemaphoreSound(s, m);
    if s.lk.sem[m].count <= 0 { DispatchMovesUp(Stop(s, s.th.life[c].value, m), c, t); }
  }

  /** Thread `t` is in the ready list in every state of the run. */
  ghost predicate ReadyThroughout(s: State, calls: seq<Call>, t: Thread)
    requires Inv(s)
    decreases |calls|
  {
    t in s.th.ready && (calls == [] || !Enabled(s, calls[0]) ||
      (CallKeeps(s, calls[0]); ReadyThroughout(Apply(s, calls[0]), calls[1..], t)))
  }

  /** The number of calls of a run that take a thread from the ready list, or find it empty. */
  ghost function Dispatches(s: State, calls: seq<Call>): nat
    requires Inv(s)
    decreases |calls|
  {
    if calls == [] || !Enabled(s, calls[0]) then 0 else
    CallKeeps(s, calls[0]);
    (if Switches(s, calls[0]) then 1 else 0) + Dispatches(Apply(s, calls[0]), calls[1..])
  }

  /** Nobody overtakes in the ready list: a thread with `k` others before it is still there after `n`
      dispatches, on whatever CPUs, only if `n` is at most `k`, and then at most `k - n` are before it. */
  lemma {:induction false} ReadyWaitBounded(s: State, calls: seq<Call>, f: State, t: Thread)
    requires Inv(s) && Run(s, calls, f) && ReadyThroughout(s, calls, t)
    ensures t in f.th.ready && Position(f.th.ready, t) + Dispatches(s, calls) <= Position(s.th.ready, t)
    decreases |calls|
  {
    if calls != [] {
      CallKeeps(s, calls[0]);
      CallMovesUp(s, calls[0], t);
      ReadyWaitBounded(Apply(s, calls[0]), calls[1..], f, t);
    }
  }

  // ---- the waiting rooms ----

  /** The call posts the semaphore, or unlocks the mutex, `r`. */
  predicate Serves(call: Call, r: Room) {
    call == V(r) || call == Unlock(r)
  }

  function Served(calls: seq<Call>, r: Room): nat {
    if calls == [] then 0 else (if Serves(calls[0], r) then 1 else 0) + Served(calls[1..], r)
  }

  ghost predicate Nearer(s: State, f: State, r: Room, t: Thread, n: nat) {
    Queued(s, r, t) && Queued(f, r, t) ==> Position(f.th.rooms[r], t) + n <= Position(s.th.rooms[r], t)
  }

  lemma ShrunkNearer(s: State, f: State, r: Room, t: Thread)
    requires Inv(s) && r in s.th.rooms && r in f.th.rooms && Suffix(s.th.rooms[r], f.th.rooms[r])
    ensures Nearer(s, f, r, t, 0)
  {
    if Queued(f, r, t) { FrontLeaves(s.th.rooms[r], f.th.rooms[r], t); }
  }

  lemma PostNearer(s: State, b: Room, r: Room, t: Thread)
    requires b in s.lk.sem && b in s.th.rooms && r in s.th.rooms && Distinct(s.th.rooms[r])
    ensures Nearer(s, Post(s, b), r, t, if b == r then 1 else 0)
  {
    if b == r && Queued(s, r, t) && Queued(Post(s, b), r, t) { HeadLeaves(s.th.rooms[r], t); }
  }

  lemma KillNearer(s: State, c: Cpu, k: Thread, r: Room, t: Thread)
    requires Inv(s) && Enabled(s, Kill(c, k)) && r in s.th.rooms
    ensures Nearer(s, DoKill(s, c, k), r, t, 0)
  {
    var f := DoKill(s, c, k);
    KillAside(s, c, k, r);
    if KillsWaiter(s, Kill(c, k), r) {
      var q := s.th.rooms[r];
      DeleteFacts(q, k);
      if Queued(s, r, t) && Queued(f, r, t) {
        FrontLeaves(Delete(q, k), f.th.rooms[r], t);
        OneLeaves(q, k, t);
      }
    } else {
      ShrunkNearer(s, f, r, t);
    }
  }

  lemma ServeNearer(s: State, call: Call, r: Room, t: Thread)
    requires Inv(s) && Enabled(s, call) && r in s.th.rooms && (call.V? || call.Unlock?)
    ensures Nearer(s, Apply(s, call), r, t, if Serves(call, r) then 1 else 0)
  {
    if call.V? {
      assert SemaphoreSound(s, call.r);
      PostNearer(s, call.r, r, t);
    } else {
      assert UnitSound(s.lk, call.r, NONE) && SemaphoreSound(s, call.r);
      PostNearer(State(s.th, TakeBack(s.lk, call.r)), call.r, r, t);
    }
  }

  lemma ExitNearer(s: State, c: Cpu, r: Room, t: Thread)
    requires Inv(s) && Runs(s.th, c) && r in s.th.rooms
    ensures Nearer(s, DoExit(s, c), r, t, 0)
  {
    ExitAside(s, c, r);
    ShrunkNearer(s, DoExit(s, c), r, t);
  }

  lemma RingNearer(s: State, b: Room, r: Room, t: Thread)
    requires Inv(s) && Enabled(s, Ring(b)) && r in s.th.rooms
    ensures Nearer(s, Apply(s, Ring(b)), r, t, 0)
  {
    WakeAllRest(s.th, b);
  }

  lemma CallNearer(s: State, call: Call, r: Room, t: Thread)
    requires Inv(s) && Enabled(s, call) && r in s.th.rooms
    ensures Nearer(s, Apply(s, call), r, t, if Serves(call, r) then 1 else 0)
  {
    match call
    case V(_) => ServeNearer(s, call, r, t);
    case Unlock(_) => ServeNearer(s, call, r, t);
    case Lock(_, _) => RequestNearer(s, call, r, t);
    case P(_, _) => RequestNearer(s, call, r, t);
    case Sleep(_, _) => RequestNearer(s, call, r, t);
    case Exit(c) => ExitNearer(s, c, r, t);
    case Resume(c) => if s.th.life[c].value in s.th.killed { ExitNearer(s, c, r, t); }
    case Assassin(c) => if s.th.life[c].value in s.th.killed { ExitNearer(s, c, r, t); }
    case Kill(c, k) => KillNearer(s, c, k, r, t);
    case Ring(b) => RingNearer(s, b, r, t);
    case Ready(_) =>
    case Schedule(_) =>
  }

  lemma RequestNearer(s: State, call: Call, r: Room, t: Thread)
    requires Inv(s) && Enabled(s, call) && r in s.th.rooms && (call.P? || call.Lock? || call.Sleep?)
    ensures Nearer(s, Apply(s, call), r, t, 0)
  {
    CallKeeps(s, call);
    if call.Lock? { assert UnitSound(s.lk, call.r, NONE); }
    assert call.r in s.lk.sem ==> SemaphoreSound(s, call.r);
    if Queued(s, r, t) { NewcomersBehind(s.th.rooms[r], Apply(s, call).th.rooms[r], t); }
  }

  /** Nobody overtakes in a waiting room: a thread with `k` others before it at a semaphore or a mutex
      still waits after `n` calls of `v` or `unlock` only if `n` is at most `k`, and then at most `k - n`
      are before it. */
  lemma {:induction false} RoomWaitBounded(s: State, calls: seq<Call>, f: State, r: Room, t: Thread)
    requires Inv(s) && Run(s, calls, f) && WaitsThroughout(s, calls, r, t)
    ensures Queued(f, r, t) && Position(f.th.rooms[r], t) + Served(calls, r) <= Position(s.th.rooms[r], t)
    decreases |calls|
  {
    if calls != [] {
      CallKeeps(s, calls[0]);
      CallNearer(s, calls[0], r, t);
      RoomWaitBounded(Apply(s, calls[0]), calls[1..], f, r, t);
    }
  }

  // ---- the lists of held mutexes ----

  /** A list of held mutexes stays, gets one more at the end, or loses one. */
  ghost predicate HeldStep(h: seq<Room>, g: seq<Room>) {
    g == h || (g != [] && g[..|g| - 1] == h) || (exists m :: m in h && g == Delete(h, m))
  }

  lemma ArriveHeld(lk: Locks, n: Thread, t: Thread)
    ensures HeldStep(Held(lk, t), Held(Arrive(lk, n), t)) && (n != t ==> Held(Arrive(lk, n), t) == Held(lk, t))
  {
  }

  lemma {:induction false} ReleaseAllOthers(s: State, dying: Thread, t: Thread)
    requires Releasable(s, dying) && t != dying
    ensures Held(ReleaseAll(s, dying).lk, t) == Held(s.lk, t)
    decreases |Held(s.lk, dying)|
  {
    hide Release;
    if Held(s.lk, dying) != [] {
      ReleaseKeepsRest(s, dying);
      ReleaseReady(s, dying, Held(s.lk, dying)[0]);
      ReleaseAllOthers(Release(s, Held(s.lk, dying)[0]), dying, t);
    }
  }

  lemma ExitHeld(s: State, c: Cpu, t: Thread)
    requires Inv(s) && Runs(s.th, c)
    ensures t in DoExit(s, c).th.dead || HeldStep(Held(s.lk, t), Held(DoExit(s, c).lk, t))
  {
    var dying := s.th.life[c].value;
    var b := State(Bury(s.th, dying), Forsake(s.lk, dying));
    ExitDestroys(s, c);
    ActiveDies(s, c);
    if t != dying {
      ReleaseAllOthers(b, dying, t);
      ArriveHeld(ReleaseAll(b, dying).lk, NextThread(ReleaseAll(b, dying).th, c), t);
    }
  }

  lemma KillHeld(s: State, c: Cpu, k: Thread, t: Thread)
    requires Inv(s) && Enabled(s, Kill(c, k))
    ensures t in DoKill(s, c, k).th.dead || HeldStep(Held(s.lk, t), Held(DoKill(s, c, k).lk, t))
  {
    if k in s.th.ready {
      QueuedDies(s, k);
      if t != k { ReleaseAllOthers(State(DropReady(s.th, k), Forsake(s.lk, k)), k, t); }
    } else if k in s.th.waitingIn {
      WaiterDies(s, k);
      if t != k { ReleaseAllOthers(State(DropWaiting(s.th, k), Forsake(s.lk, k)), k, t); }
    } else {
      FlagKeeps(s, k);
      if s.th.life[c] == Some(k) { ExitHeld(Flag(s, k), c, t); }
    }
  }

  /** Mutexes stand in the list of their owner in the order in which it got them, until it is destroyed. */
  lemma HeldInOrder(s: State, call: Call, t: Thread)
    requires Inv(s) && Enabled(s, call)
    ensures t in Apply(s, call).th.dead || HeldStep(Held(s.lk, t), Held(Apply(s, call).lk, t))
  {
    match call
    case Exit(c) => ExitHeld(s, c, t);
    case Kill(c, k) => KillHeld(s, c, k, t);
    case Assassin(c) => if s.th.life[c].value in s.th.killed { ExitHeld(s, c, t); }
    case Resume(c) => ResumeHeld(s, c, t);
    case Schedule(c) => ArriveHeld(s.lk, NextThread(s.th, c), t);
    case Lock(c, m) => LockHeld(s, c, m, t);
    case P(c, r) => assert SemaphoreSound(s, r); if s.lk.sem[r].count <= 0 { BlockHeld(s, c, r, t); }
    case Sleep(c, r) => BlockHeld(s, c, r, t);
    case Unlock(m) => UnlockHeld(s, m, t);
    case V(r) =>
    case Ready(k) =>
    case Ring(r) =>
  }

  lemma ResumeHeld(s: State, c: Cpu, t: Thread)
    requires Inv(s) && s.th.life[c].Some?
    ensures t in DoResume(s, c).th.dead || HeldStep(Held(s.lk, t), Held(DoResume(s, c).lk, t))
  {
    var prev := s.th.life[c].value;
    if prev in s.th.killed {
      ExitHeld(s, c, t);
    } else {
      ArriveHeld(s.lk, NextThread(if prev in s.th.idle then s.th else Requeue(s.th, prev), c), t);
    }
  }

  lemma BlockHeld(s: State, c: Cpu, r: Room, t: Thread)
    requires Inv(s) && Runs(s.th, c) && r in s.th.rooms
    ensures HeldStep(Held(s.lk, t), Held(Block(s, c, r).lk, t))
  {
    ArriveHeld(s.lk, NextThread(Wait(s.th, s.th.life[c].value, r), c), t);
  }

  lemma LockHeld(s: State, c: Cpu, m: Room, t: Thread)
    requires Inv(s) && Enabled(s, Lock(c, m))
    ensures HeldStep(Held(s.lk, t), Held(DoLock(s, c, m).lk, t))
  {
    assert UnitSound(s.lk, m, NONE) && SemaphoreSound(s, m);
    var w := Stop(s, s.th.life[c].value, m);
    ArriveHeld(w.lk, NextThread(w.th, c), t);
  }

  lemma UnlockHeld(s: State, m: Room, t: Thread)
    requires Inv(s) && Enabled(s, Unlock(m))
    ensures HeldStep(Held(s.lk, t), Held(Apply(s, Unlock(m)).lk, t))
  {
    assert UnitSound(s.lk, m, NONE) && SemaphoreSound(s, m) && OwnerSound(s.lk, m);
    if s.lk.mutex[m] == Owned(t) { assert m in Held(s.lk, t); }
  }
}
