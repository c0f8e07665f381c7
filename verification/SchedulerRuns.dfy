/** The calls the kernel makes of the scheduler, and what holds in every run of them, whichever CPUs make
    them and in whatever order. */
module SchedulerRuns {
  import opened Common
  import opened SchedulerSpec

  datatype Call =
    | Ready(t: Thread)
    | Schedule(c: Cpu)
    | Resume(c: Cpu)
    | Exit(c: Cpu)
    | Kill(c: Cpu, t: Thread)
    | Assassin(c: Cpu)
    | P(c: Cpu, r: Room)
    | V(r: Room)
    | Lock(c: Cpu, r: Room)
    | Unlock(r: Room)
    | Sleep(c: Cpu, r: Room)
    | Ring(r: Room)

  ghost predicate Runs(th: Threads, c: Cpu)
    requires |th.life| == |th.idle| == CPU_MAX
  {
    th.life[c].Some? && th.life[c].value !in th.idle
  }

  /** What the callers owe: a thread is announced once, the idle threads neither block nor end nor are
      killed, a destroyed thread is not named again, semaphores, mutexes and bells are used as such, and
      only an owned mutex is unlocked. */
  ghost predicate Enabled(s: State, call: Call)
    requires |s.th.life| == |s.th.idle| == CPU_MAX
  {
    match call
    case Ready(t) => t !in s.th.live && t !in s.th.dead && t !in s.th.idle
    case Schedule(c) => s.th.life[c] == None
    case Resume(c) => s.th.life[c].Some?
    case Exit(c) => Runs(s.th, c)
    case Kill(c, t) => s.th.life[c].Some? && t !in s.th.dead && t !in s.th.idle
    case Assassin(c) => s.th.life[c].Some?
    case P(c, r) => Runs(s.th, c) && r in s.lk.sem && r !in s.lk.mutex
    case V(r) => r in s.lk.sem && r !in s.lk.mutex
    case Lock(c, r) => Runs(s.th, c) && r in s.lk.mutex
    case Unlock(r) => r in s.lk.mutex && s.lk.mutex[r].Owned?
    case Sleep(c, r) => Runs(s.th, c) && r in s.th.rooms && r !in s.lk.sem
    case Ring(r) => r in s.th.rooms && r !in s.lk.sem
  }

  // ---- the start ----

  /** After the constructors: nobody runs, nobody waits. */
  function Boot(idle: seq<Thread>, semaphores: map<Room, int>, mutexes: set<Room>, bells: set<Room>): State {
    State(
      Threads([], seq(CPU_MAX, _ => None), idle, map r | r in semaphores.Keys + mutexes + bells :: [],
              map[], {}, {}, {}),
      Locks(
        map r | r in semaphores.Keys + mutexes ::
          if r in mutexes then Semaphore(1, 1, 0, 0) else Semaphore(semaphores[r], semaphores[r], 0, 0),
        map m | m in mutexes :: Free,
        map[], map[]))
  }

  lemma BootInv(idle: seq<Thread>, semaphores: map<Room, int>, mutexes: set<Room>, bells: set<Room>)
    requires |idle| == CPU_MAX && Distinct(idle)
    ensures Inv(Boot(idle, semaphores, mutexes, bells))
  {
    var s := Boot(idle, semaphores, mutexes, bells);
    assert forall r :: r in s.lk.sem ==> SemaphoreSound(s, r);
  }

  // ---- the calls ----

  lemma ActiveDies(s: State, c: Cpu)
    requires Inv(s) && Runs(s.th, c)
    ensures Releasable(State(Bury(s.th, s.th.life[c].value), Forsake(s.lk, s.th.life[c].value)), s.th.life[c].value)
    ensures var t := s.th.life[c].value;
            var d := Die(s, Bury(s.th, t), t);
            Placed(d.th, c) && Locked(d, NONE, NONE) && Held(d.lk, t) == [] &&
            d.th.live == s.th.live - {t} && d.th.dead == s.th.dead + {t} && d.th.killed == s.th.killed
  {
    var t := s.th.life[c].value;
    assert RunsSoundly(s.th, c, t) && s.th.idle[c] in s.th.idle;
    DropActivePlaces(s.th, c);
    DieKeeps(s, Bury(s.th, t), t, c);
  }

  /** `Scheduler::exit`. */
  function DoExit(s: State, c: Cpu): State
    requires Inv(s) && Runs(s.th, c)
  {
    var t := s.th.life[c].value;
    ActiveDies(s, c);
    Dispatch(Die(s, Bury(s.th, t), t), c)
  }

  /** `Scheduler::resume`. */
  function DoResume(s: State, c: Cpu): State
    requires Inv(s) && s.th.life[c].Some?
  {
    var t := s.th.life[c].value;
    if t in s.th.killed then
      DoExit(s, c)
    else if t in s.th.idle then
      Dispatch(s, c)
    else
      Dispatch(State(Requeue(s.th, t), s.lk), c)
  }

  function Flag(s: State, t: Thread): State {
    State(s.th.(killed := s.th.killed + {t}), s.lk)
  }

  lemma FlagKeeps(s: State, t: Thread)
    requires Inv(s) && t !in s.th.idle
    ensures Inv(Flag(s, t))
  {
    var f := Flag(s, t);
    assert forall u :: OnCpu(s.th, u, NONE) ==> OnCpu(f.th, u, NONE);
    SameThreads(s, f);
  }

  lemma SameThreads(s: State, f: State)
    requires Locked(s, NONE, NONE) && f.lk == s.lk
    requires f.th == s.th.(killed := f.th.killed)
    ensures Locked(f, NONE, NONE)
  {
    assert forall r :: r in s.lk.sem ==> SemaphoreSound(s, r);
    MirroredSame(s, f, NONE);
    HandingSame(s, f);
  }

  /** The promises stand as long as nobody stopped in `lock` is moved. */
  lemma HandingSame(s: State, f: State)
    requires Handing(s) && f.lk.inLock == s.lk.inLock
    requires forall m :: m in f.lk.mutex <==> m in s.lk.mutex
    requires forall m :: m in s.lk.mutex && (s.lk.mutex[m].Promised? || f.lk.mutex[m].Promised?) ==> f.lk.mutex[m] == s.lk.mutex[m]
    requires forall t :: t in s.th.ready ==> t in f.th.ready
    requires forall t :: t in s.lk.inLock && t in f.th.live ==> t in s.th.live
    requires forall t :: t in s.th.live || t in s.th.dead ==> t in f.th.live || t in f.th.dead
    requires forall t :: t in s.lk.inLock && t in s.th.live ==>
      (t in f.th.waitingIn <==> t in s.th.waitingIn) && (t in s.th.waitingIn ==> f.th.waitingIn[t] == s.th.waitingIn[t])
    requires forall m :: m in s.lk.mutex && m in f.th.rooms ==> m in s.th.rooms && f.th.rooms[m] == s.th.rooms[m]
    ensures Handing(f)
  {
    forall t | t in f.th.live && t in f.lk.inLock
      ensures StoppedInLock(f, t)
    {
      assert StoppedInLock(s, t);
    }
    forall m | m in f.lk.mutex
      ensures PromiseSound(f, m)
    {
      assert PromiseSound(s, m);
    }
  }

  lemma QueuedDies(s: State, t: Thread)
    requires Inv(s) && t in s.th.ready
    ensures Releasable(State(DropReady(s.th, t), Forsake(s.lk, t)), t)
    ensures var d := Die(s, DropReady(s.th, t), t);
            Inv(d) && d.th.live == s.th.live - {t} && d.th.dead == s.th.dead + {t} && d.th.killed == s.th.killed
  {
    DeleteFacts(s.th.ready, t);
    DropReadyPlaces(s.th, t);
    DieKeeps(s, DropReady(s.th, t), t, NONE);
  }

  lemma WaiterDies(s: State, t: Thread)
    requires Inv(s) && t in s.th.live && t in s.th.waitingIn
    ensures Releasable(State(DropWaiting(s.th, t), Forsake(s.lk, t)), t)
    ensures var d := Die(s, DropWaiting(s.th, t), t);
            Inv(d) && d.th.live == s.th.live - {t} && d.th.dead == s.th.dead + {t} && d.th.killed == s.th.killed
  {
    DeleteFacts(s.th.rooms[s.th.waitingIn[t]], t);
    DropWaitingPlaces(s.th, t);
    DieKeeps(s, DropWaiting(s.th, t), t, NONE);
  }

  /** `Scheduler::kill`, called on CPU `c`.  A thread running on another CPU is only flagged. */
  function DoKill(s: State, c: Cpu, t: Thread): State
    requires Inv(s) && s.th.life[c].Some? && t !in s.th.dead && t !in s.th.idle
  {
    if t in s.th.ready then
      QueuedDies(s, t);
      Die(s, DropReady(s.th, t), t)
    else if t in s.th.waitingIn then
      WaiterDies(s, t);
      Die(s, DropWaiting(s.th, t), t)
    else
      FlagKeeps(s, t);
      if s.th.life[c] == Some(t) then DoExit(Flag(s, t), c) else Flag(s, t)
  }

  /** `Scheduler::block`. */
  function Block(s: State, c: Cpu, r: Room): State
    requires |s.th.life| == |s.th.idle| == CPU_MAX && s.th.life[c].Some? && r in s.th.rooms
  {
    Dispatch(State(Wait(s.th, s.th.life[c].value, r), s.lk), c)
  }

  function Grant(e: Semaphore): Semaphore {
    e.(count := e.count - 1, grants := e.grants + 1)
  }

  /** `Semaphore::p`. */
  function DoP(s: State, c: Cpu, r: Room): State
    requires Inv(s) && Runs(s.th, c) && r in s.lk.sem
  {
    if s.lk.sem[r].count > 0 then
      State(s.th, s.lk.(sem := s.lk.sem[r := Grant(s.lk.sem[r])]))
    else
      assert SemaphoreSound(s, r);
      Block(s, c, r)
  }

  /** `Mutex::lock`. */
  function DoLock(s: State, c: Cpu, m: Room): State
    requires Inv(s) && Runs(s.th, c) && m in s.lk.mutex
  {
    assert UnitSound(s.lk, m, NONE);
    assert SemaphoreSound(s, m);
    var t := s.th.life[c].value;
    if s.lk.sem[m].count > 0 then
      State(s.th, Acquire(s.lk, t, m))
    else
      Block(State(s.th, s.lk.(inLock := s.lk.inLock[t := m])), c, m)
  }

  function Acquire(lk: Locks, t: Thread, m: Room): Locks
    requires m in lk.sem
  {
    lk.(sem := lk.sem[m := Grant(lk.sem[m])], mutex := lk.mutex[m := Owned(t)], held := lk.held[t := Held(lk, t) + [m]])
  }

  /** `Scheduler::ready`. */
  function DoReady(s: State, t: Thread): State {
    State(s.th.(ready := s.th.ready + [t], live := s.th.live + {t}), s.lk)
  }

  /** `Bell::ring`: everybody in the room is woken. */
  function WakeAll(th: Threads, r: Room): Threads
    requires r in th.rooms
    decreases |th.rooms[r]|
  {
    if th.rooms[r] == [] then th else WakeAll(Wake(th, r), r)
  }

  function Apply(s: State, call: Call): State
    requires Inv(s) && Enabled(s, call)
  {
    match call
    case Ready(t) => DoReady(s, t)
    case Schedule(c) => Dispatch(s, c)
    case Resume(c) => DoResume(s, c)
    case Exit(c) => DoExit(s, c)
    case Kill(c, t) => DoKill(s, c, t)
    case Assassin(c) => if s.th.life[c].value in s.th.killed then DoExit(s, c) else s
    case P(c, r) => DoP(s, c, r)
    case V(r) => assert SemaphoreSound(s, r); Post(s, r)
    case Lock(c, m) => DoLock(s, c, m)
    case Unlock(m) => assert UnitSound(s.lk, m, NONE) && SemaphoreSound(s, m); Release(s, m)
    case Sleep(c, r) => Block(s, c, r)
    case Ring(r) => State(WakeAll(s.th, r), s.lk)
  }

  // ---- every call keeps the invariant ----

  lemma DispatchKeeps(s: State, c: Cpu)
    requires Placed(s.th, c) && Locked(s, NONE, NONE)
    ensures Inv(Dispatch(s, c))
  {
    SwitchPlaces(s.th, c);
    DispatchLocks(s, c);
  }

  lemma ExitKeeps(s: State, c: Cpu)
    requires Inv(s) && Runs(s.th, c)
    ensures Inv(DoExit(s, c))
  {
    var t := s.th.life[c].value;
    ActiveDies(s, c);
    DispatchKeeps(Die(s, Bury(s.th, t), t), c);
  }

  lemma ResumeKeeps(s: State, c: Cpu)
    requires Inv(s) && s.th.life[c].Some?
    ensures Inv(DoResume(s, c))
  {
    var t := s.th.life[c].value;
    if t in s.th.killed {
      ExitKeeps(s, c);
    } else if t in s.th.idle {
      IdleSwitches(s, c);
      DispatchKeeps(s, c);
    } else {
      RequeueReady(s, c);
      DispatchKeeps(State(Requeue(s.th, t), s.lk), c);
    }
  }

  lemma RequeueReady(s: State, c: Cpu)
    requires Inv(s) && Runs(s.th, c)
    ensures var q := State(Requeue(s.th, s.th.life[c].value), s.lk); Placed(q.th, c) && Locked(q, NONE, NONE)
  {
    var q := State(Requeue(s.th, s.th.life[c].value), s.lk);
    RequeuePlaces(s.th, c);
    assert forall r :: r in s.lk.sem ==> SemaphoreSound(s, r);
    MirroredSame(s, q, NONE);
    HandingSame(s, q);
  }

  lemma IdleSwitches(s: State, c: Cpu)
    requires Inv(s) && (s.th.life[c].Some? ==> s.th.life[c].value in s.th.idle)
    ensures Placed(s.th, c)
  {
    forall t | t in s.th.live
      ensures t in s.th.ready || t in s.th.waitingIn || OnCpu(s.th, t, c)
    {
      if OnCpu(s.th, t, NONE) {
        var d :| 0 <= d < |s.th.life| && d != NONE && s.th.life[d] == Some(t);
        assert d != c;
      }
    }
  }

  lemma KillKeeps(s: State, c: Cpu, t: Thread)
    requires Inv(s) && s.th.life[c].Some? && t !in s.th.dead && t !in s.th.idle
    ensures Inv(DoKill(s, c, t))
  {
    if t in s.th.ready {
      QueuedDies(s, t);
    } else if t in s.th.waitingIn {
      WaiterDies(s, t);
    } else {
      FlagKeeps(s, t);
      if s.th.life[c] == Some(t) { ExitKeeps(Flag(s, t), c); }
    }
  }

  lemma RunnerFree(s: State, c: Cpu)
    requires Inv(s) && Runs(s.th, c)
    ensures var t := s.th.life[c].value;
            t in s.th.live && t !in s.th.waitingIn && t !in s.th.ready && t !in s.lk.inLock
  {
    var t := s.th.life[c].value;
    assert RunsSoundly(s.th, c, t) && s.th.idle[c] in s.th.idle;
    assert t in s.lk.inLock && t in s.th.live ==> StoppedInLock(s, t);
  }

  /** Blocking on a bell or on a semaphore that has nothing left. */
  lemma BlockKeeps(s: State, c: Cpu, r: Room)
    requires Inv(s) && Runs(s.th, c) && r in s.th.rooms && r !in s.lk.mutex
    requires r in s.lk.sem ==> s.lk.sem[r].count <= 0
    ensures Inv(Block(s, c, r))
  {
    WaitReady(s, c, r);
    DispatchKeeps(State(Wait(s.th, s.th.life[c].value, r), s.lk), c);
  }

  lemma WaitReady(s: State, c: Cpu, r: Room)
    requires Inv(s) && Runs(s.th, c) && r in s.th.rooms && r !in s.lk.mutex
    requires r in s.lk.sem ==> s.lk.sem[r].count <= 0
    ensures var w := State(Wait(s.th, s.th.life[c].value, r), s.lk); Placed(w.th, c) && Locked(w, NONE, NONE)
  {
    var t := s.th.life[c].value;
    var w := State(Wait(s.th, t, r), s.lk);
    RunnerFree(s, c);
    WaitPlaces(s.th, c, r);
    forall q | q in w.lk.sem
      ensures SemaphoreSound(w, q)
    {
      assert SemaphoreSound(s, q);
    }
    MirroredSame(s, w, NONE);
    HandingSame(s, w);
  }

  function Stop(s: State, t: Thread, m: Room): State
    requires m in s.th.rooms
  {
    State(Wait(s.th, t, m), s.lk.(inLock := s.lk.inLock[t := m]))
  }

  lemma StopReady(s: State, c: Cpu, m: Room)
    requires Inv(s) && Runs(s.th, c) && m in s.th.rooms && m in s.lk.mutex && m in s.lk.sem && s.lk.sem[m].count == 0
    ensures var w := Stop(s, s.th.life[c].value, m); Placed(w.th, c) && Locked(w, NONE, NONE)
  {
    var t := s.th.life[c].value;
    var w := Stop(s, t, m);
    RunnerFree(s, c);
    WaitPlaces(s.th, c, m);
    forall q | q in w.lk.sem
      ensures SemaphoreSound(w, q)
    {
      assert SemaphoreSound(s, q);
    }
    forall k | k in w.lk.mutex
      ensures UnitSound(w.lk, k, NONE)
    {
      assert UnitSound(s.lk, k, NONE);
    }
    MirroredSame(s, w, NONE);
    forall u | u in w.th.live && u in w.lk.inLock
      ensures StoppedInLock(w, u)
    {
      assert u != t ==> StoppedInLock(s, u);
    }
    forall k | k in w.lk.mutex
      ensures PromiseSound(w, k)
    {
      assert PromiseSound(s, k);
    }
  }

  lemma PKeeps(s: State, c: Cpu, r: Room)
    requires Inv(s) && Runs(s.th, c) && r in s.lk.sem && r !in s.lk.mutex
    ensures Inv(DoP(s, c, r))
  {
    assert SemaphoreSound(s, r);
    if s.lk.sem[r].count > 0 {
      var g := DoP(s, c, r);
      GrantCounted(s, r, g);
      MirroredSame(s, g, NONE);
      HandingSame(s, g);
      forall m | m in g.lk.mutex
        ensures UnitSound(g.lk, m, NONE)
      {
        assert UnitSound(s.lk, m, NONE);
      }
    } else {
      BlockKeeps(s, c, r);
    }
  }

  lemma GrantCounted(s: State, r: Room, g: State)
    requires Counted(s) && g.th == s.th && r in s.lk.sem && s.lk.sem[r].count > 0
    requires g.lk.sem == s.lk.sem[r := Grant(s.lk.sem[r])]
    ensures Counted(g)
  {
    forall q | q in g.lk.sem
      ensures SemaphoreSound(g, q)
    {
      assert SemaphoreSound(s, q) && SemaphoreSound(s, r);
    }
  }

  lemma LockKeeps(s: State, c: Cpu, m: Room)
    requires Inv(s) && Runs(s.th, c) && m in s.lk.mutex
    ensures Inv(DoLock(s, c, m))
  {
    assert UnitSound(s.lk, m, NONE);
    assert SemaphoreSound(s, m);
    if s.lk.sem[m].count > 0 {
      RunnerFree(s, c);
      LockMirrored(s, s.th.life[c].value, m, DoLock(s, c, m));
      LockLocks(s, c, m);
    } else {
      StopReady(s, c, m);
      DispatchKeeps(Stop(s, s.th.life[c].value, m), c);
    }
  }

  lemma LockMirrored(s: State, t: Thread, m: Room, g: State)
    requires Mirrored(s, NONE) && m in s.lk.mutex && s.lk.mutex[m].Free? && t in s.th.live
    requires g.th == s.th && g.lk.mutex == s.lk.mutex[m := Owned(t)]
    requires g.lk.held == s.lk.held[t := Held(s.lk, t) + [m]]
    ensures Mirrored(g, NONE)
  {
    var p := State(s.th, s.lk.(inLock := s.lk.inLock[t := m]));
    var a := State(s.th, Arrive(p.lk, t));
    MirroredSame(s, p, NONE);
    ArriveMirrored(p, t, a);
    assert g.lk.mutex == a.lk.mutex && g.lk.held == a.lk.held;
    MirroredSame(a, g, NONE);
  }

  lemma LockLocks(s: State, c: Cpu, m: Room)
    requires Inv(s) && Runs(s.th, c) && m in s.lk.mutex && m in s.lk.sem && s.lk.sem[m].count > 0
    requires Mirrored(DoLock(s, c, m), NONE)
    ensures Inv(DoLock(s, c, m))
  {
    var g := DoLock(s, c, m);
    assert UnitSound(s.lk, m, NONE);
    GrantCounted(s, m, g);
    HandingSame(s, g);
    forall k | k in g.lk.mutex
      ensures UnitSound(g.lk, k, NONE)
    {
      assert UnitSound(s.lk, k, NONE);
    }
  }

  lemma ReadyPlaces(th: Threads, t: Thread, a: Threads)
    requires Placed(th, NONE) && t !in th.live && t !in th.dead && t !in th.idle
    requires a == th.(ready := th.ready + [t], live := th.live + {t})
    ensures Placed(a, NONE)
  {
    forall u | u in a.live
      ensures u in a.ready || u in a.waitingIn || OnCpu(a, u, NONE)
    {
      if u != t && OnCpu(th, u, NONE) {
        var d :| 0 <= d < |th.life| && d != NONE && th.life[d] == Some(u);
        assert a.life[d] == Some(u);
      }
    }
    forall c | 0 <= c < CPU_MAX && a.life[c].Some?
      ensures RunsSoundly(a, c, a.life[c].value)
    {
      assert RunsSoundly(th, c, th.life[c].value) && th.idle[c] in th.idle;
    }
  }

  lemma ReadyKeeps(s: State, t: Thread)
    requires Inv(s) && t !in s.th.live && t !in s.th.dead && t !in s.th.idle
    ensures Inv(DoReady(s, t))
  {
    var a := DoReady(s, t);
    ReadyPlaces(s.th, t, a.th);
    assert forall r :: r in s.lk.sem ==> SemaphoreSound(s, r);
    HandingSame(s, a);
    forall u, m | m in Held(a.lk, u)
      ensures HolderSound(a, u, m, NONE)
    {
      assert m in Held(s.lk, u) && HolderSound(s, u, m, NONE);
    }
  }

  lemma {:induction false} WakeAllKeeps(s: State, r: Room)
    requires Inv(s) && r in s.th.rooms && r !in s.lk.sem
    ensures Inv(State(WakeAll(s.th, r), s.lk))
    decreases |s.th.rooms[r]|
  {
    if s.th.rooms[r] != [] {
      var w := State(Wake(s.th, r), s.lk);
      WakePlaces(s.th, r, NONE);
      assert s.th.rooms[r][0] in s.th.rooms[r];
      WakeBellLocks(s, r);
      WakeAllKeeps(w, r);
    }
  }

  lemma WakeBellLocks(s: State, r: Room)
    requires Inv(s) && r in s.th.rooms && r !in s.lk.sem && s.th.rooms[r] != []
    ensures Locked(State(Wake(s.th, r), s.lk), NONE, NONE)
  {
    var w := State(Wake(s.th, r), s.lk);
    var t := s.th.rooms[r][0];
    assert t in s.th.rooms[r];
    assert forall q :: q in s.lk.sem ==> SemaphoreSound(s, q);
    assert r in s.lk.mutex ==> UnitSound(s.lk, r, NONE);
    assert t in s.lk.inLock && t in s.th.live ==> StoppedInLock(s, t);
    MirroredSame(s, w, NONE);
    HandingSame(s, w);
  }

  lemma CallKeeps(s: State, call: Call)
    requires Inv(s) && Enabled(s, call)
    ensures Inv(Apply(s, call))
  {
    match call
    case Ready(t) => ReadyKeeps(s, t);
    case Schedule(c) => IdleSwitches(s, c); DispatchKeeps(s, c);
    case Resume(c) => ResumeKeeps(s, c);
    case Exit(c) => ExitKeeps(s, c);
    case Kill(c, t) => KillKeeps(s, c, t);
    case Assassin(c) => if s.th.life[c].value in s.th.killed { ExitKeeps(s, c); }
    case P(c, r) => PKeeps(s, c, r);
    case V(r) => PostKeeps(s, r);
    case Lock(c, m) => LockKeeps(s, c, m);
    case Unlock(m) => ReleaseKeeps(s, m, NONE, NONE);
    case Sleep(c, r) => BlockKeeps(s, c, r);
    case Ring(r) => WakeAllKeeps(s, r);
  }

  lemma PostKeeps(s: State, r: Room)
    requires Inv(s) && r in s.lk.sem && r !in s.lk.mutex
    ensures r in s.th.rooms && Inv(Post(s, r))
  {
    PostLocks(s, r, NONE, NONE);
    if s.th.rooms[r] != [] { WakePlaces(s.th, r, NONE); }
  }
}
