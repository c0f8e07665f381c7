/** What the scheduler, the semaphores and the mutexes do to the state they share, one critical section
    at a time (thread/scheduler.cc, thread/dispatcher.cc, thread/thread.cc, meeting/semaphore.cc,
    meeting/bell.cc, user/mutex/mutex.cc, thread/assassin.cc).  Every function here runs inside the guard,
    so it is one atomic step of the whole machine. */
module SchedulerSpec {
  import opened Common

  const CPU_MAX := 8

  type Cpu = c: int | 0 <= c < CPU_MAX
  /** Threads and waiting rooms stand for their addresses. */
  type Thread = nat
  type Room = nat


  /** Who is where.  `rooms` are the waiting rooms (semaphores, mutexes and bells) with their queues;
      `waitingIn` holds the threads whose `waiting_in` pointer is not null.  `live` and `dead` record
      which threads were announced with `ready` and which were destroyed. */
  datatype Threads = Threads(
    ready: seq<Thread>,
    life: seq<Option<Thread>>,
    idle: seq<Thread>,
    rooms: map<Room, seq<Thread>>,
    waitingIn: map<Thread, Room>,
    killed: set<Thread>,
    live: set<Thread>,
    dead: set<Thread>)

  /** A semaphore's counter, with its history: the initial value, the number of `v` calls and the number
      of granted `p` calls. */
  datatype Semaphore = Semaphore(count: int, initial: int, posts: nat, grants: nat)

  /** Where the one unit of a mutex is: in its counter, with the owner, handed to a woken thread that has
      not run yet, lost because that thread was killed first, or in the middle of `unlock`. */
  datatype Unit = Free | Owned(owner: Thread) | Promised(heir: Thread) | Lost | Loose

  /** Semaphores (every mutex is one), mutexes and the lists of held mutexes.  `inLock` is saved control
      state: the threads stopped inside `Mutex::lock`, which record themselves as owner when they run
      again. */
  datatype Locks = Locks(
    sem: map<Room, Semaphore>,
    mutex: map<Room, Unit>,
    held: map<Thread, seq<Room>>,
    inLock: map<Thread, Room>)

  datatype State = State(th: Threads, lk: Locks)

  // ---- threads ----

  ghost predicate OnCpu(th: Threads, t: Thread, x: int) {
    exists c :: 0 <= c < |th.life| && c != x && th.life[c] == Some(t)
  }

  ghost predicate RunsSoundly(th: Threads, c: int, t: Thread)
    requires 0 <= c < |th.idle|
  {
    t == th.idle[c] || (t in th.live && t !in th.waitingIn && t !in th.ready)
  }

  ghost predicate QueuesSound(th: Threads) {
    && Distinct(th.ready)
    && (forall t :: t in th.ready ==> t in th.live && t !in th.waitingIn)
    && (forall r :: r in th.rooms ==> Distinct(th.rooms[r]))
    && (forall r, t :: r in th.rooms && t in th.rooms[r] ==> t in th.live && t in th.waitingIn && th.waitingIn[t] == r)
  }

  ghost predicate RoomsNamed(th: Threads) {
    forall t :: t in th.waitingIn ==>
      && (t in th.live || t in th.dead)
      && (t in th.live ==> th.waitingIn[t] in th.rooms && t in th.rooms[th.waitingIn[t]])
  }

  ghost predicate CpusSound(th: Threads, x: int) {
    && |th.life| == |th.idle| == CPU_MAX
    && (forall c :: 0 <= c < CPU_MAX && c != x && th.life[c].Some? ==> RunsSoundly(th, c, th.life[c].value))
    && (forall c, d :: 0 <= c < d < CPU_MAX && c != x && d != x && th.life[c].Some? ==> th.life[c] != th.life[d])
  }

  ghost predicate IdleApart(th: Threads) {
    && Distinct(th.idle)
    && (forall t :: t in th.idle ==> t !in th.live && t !in th.dead && t !in th.killed)
    && th.live !! th.dead
  }

  /** The placement invariant.  While CPU `x` is switching threads, its `life` entry is not looked at. */
  ghost predicate Placed(th: Threads, x: int) {
    && QueuesSound(th)
    && RoomsNamed(th)
    && CpusSound(th, x)
    && IdleApart(th)
    && (forall t :: t in th.live ==> t in th.ready || t in th.waitingIn || OnCpu(th, t, x))
  }

  const NONE := -1

  // ---- the steps on threads ----

  function Enter(th: Threads, c: Cpu, t: Thread): Threads
    requires |th.life| == CPU_MAX
  {
    th.(life := th.life[c := Some(t)])
  }

  function NextThread(th: Threads, c: Cpu): Thread
    requires |th.idle| == CPU_MAX
  {
    if th.ready == [] then th.idle[c] else th.ready[0]
  }

  function Switch(th: Threads, c: Cpu): Threads
    requires |th.life| == |th.idle| == CPU_MAX
  {
    Enter(th.(ready := if th.ready == [] then [] else th.ready[1..]), c, NextThread(th, c))
  }

  /** The head of the queue of room `r` moves to the end of the ready list. */
  function Wake(th: Threads, r: Room): Threads
    requires r in th.rooms && th.rooms[r] != []
  {
    var t := th.rooms[r][0];
    th.(rooms := th.rooms[r := th.rooms[r][1..]], waitingIn := th.waitingIn - {t}, ready := th.ready + [t])
  }

  function Wait(th: Threads, t: Thread, r: Room): Threads
    requires r in th.rooms
  {
    th.(rooms := th.rooms[r := th.rooms[r] + [t]], waitingIn := th.waitingIn[t := r])
  }

  function Bury(th: Threads, t: Thread): Threads {
    th.(live := th.live - {t}, dead := th.dead + {t})
  }

  lemma SwitchCpus(th: Threads, c: Cpu)
    requires Placed(th, c)
    ensures CpusSound(Switch(th, c), NONE)
  {
    var s := Switch(th, c);
    var n := NextThread(th, c);
    assert th.ready != [] ==> th.ready == [n] + s.ready && n in th.ready;
    assert th.idle[c] in th.idle;
    forall d | 0 <= d < CPU_MAX && s.life[d].Some?
      ensures RunsSoundly(s, d, s.life[d].value)
      ensures d != c ==> s.life[d].value != n
    {
      if d != c {
        assert RunsSoundly(th, d, th.life[d].value) && th.idle[d] in th.idle;
      }
    }
  }

  lemma SwitchPlaces(th: Threads, c: Cpu)
    requires Placed(th, c)
    ensures Placed(Switch(th, c), NONE)
  {
    var s := Switch(th, c);
    var n := NextThread(th, c);
    SwitchCpus(th, c);
    assert th.ready != [] ==> th.ready == [n] + s.ready;
    assert th.idle[c] in th.idle;
    forall t | t in s.live
      ensures t in s.ready || t in s.waitingIn || OnCpu(s, t, NONE)
    {
      if t == n {
        assert s.life[c] == Some(t);
      } else if OnCpu(th, t, c) {
        var d :| 0 <= d < |th.life| && d != c && th.life[d] == Some(t);
        assert s.life[d] == Some(t);
      }
    }
  }

  lemma DistinctMoves<T>(q: seq<T>, p: seq<T>, x: T)
    requires Distinct(q) && Distinct(p) && q != [] && x == q[0] && x !in p
    ensures Distinct(q[1..]) && Distinct(p + [x]) && x !in q[1..]
  {
  }

  lemma WakeQueues(th: Threads, r: Room, t: Thread)
    requires QueuesSound(th) && RoomsNamed(th) && r in th.rooms && th.rooms[r] != [] && t == th.rooms[r][0]
    ensures QueuesSound(Wake(th, r)) && RoomsNamed(Wake(th, r))
    ensures t in th.live && t in th.waitingIn && t !in th.ready
  {
    assert th.rooms[r] == [t] + Wake(th, r).rooms[r];
    assert t in th.rooms[r];
    DistinctMoves(th.rooms[r], th.ready, t);
  }

  lemma WakePlaces(th: Threads, r: Room, x: int)
    requires Placed(th, x) && r in th.rooms && th.rooms[r] != []
    ensures Placed(Wake(th, r), x)
  {
    var s := Wake(th, r);
    WakeQueues(th, r, th.rooms[r][0]);
    assert CpusSound(s, x) by {
      assert forall c :: 0 <= c < CPU_MAX && c != x && th.life[c].Some? ==> RunsSoundly(th, c, th.life[c].value);
      assert forall c :: 0 <= c < CPU_MAX ==> th.idle[c] in th.idle;
    }
    forall u | u in s.live
      ensures u in s.ready || u in s.waitingIn || OnCpu(s, u, x)
    {
      if OnCpu(th, u, x) {
        var d :| 0 <= d < |th.life| && d != x && th.life[d] == Some(u);
        assert s.life[d] == Some(u);
      }
    }
  }

  lemma WaitPlaces(th: Threads, c: Cpu, r: Room)
    requires Placed(th, NONE) && r in th.rooms && th.life[c].Some? && th.life[c].value !in th.idle
    ensures Placed(Wait(th, th.life[c].value, r), c)
  {
    var t := th.life[c].value;
    var s := Wait(th, t, r);
    assert RunsSoundly(th, c, t);
    assert th.idle[c] in th.idle;
    forall u | u in s.live
      ensures u in s.ready || u in s.waitingIn || OnCpu(s, u, c)
    {
      if u != t && OnCpu(th, u, NONE) {
        var d :| 0 <= d < |th.life| && d != NONE && th.life[d] == Some(u);
        assert s.life[d] == Some(u);
      }
    }
  }

  function Requeue(th: Threads, t: Thread): Threads {
    th.(ready := th.ready + [t])
  }

  function DropReady(th: Threads, t: Thread): Threads {
    Bury(th.(ready := Delete(th.ready, t)), t)
  }

  function DropWaiting(th: Threads, t: Thread): Threads
    requires t in th.waitingIn && th.waitingIn[t] in th.rooms
  {
    var r := th.waitingIn[t];
    Bury(th.(rooms := th.rooms[r := Delete(th.rooms[r], t)]), t)
  }

  lemma RequeuePlaces(th: Threads, c: Cpu)
    requires Placed(th, NONE) && th.life[c].Some? && th.life[c].value !in th.idle
    ensures Placed(Requeue(th, th.life[c].value), c)
  {
    var t := th.life[c].value;
    var s := Requeue(th, t);
    assert RunsSoundly(th, c, t) && th.idle[c] in th.idle;
    forall u | u in s.live
      ensures u in s.ready || u in s.waitingIn || OnCpu(s, u, c)
    {
      if OnCpu(th, u, NONE) {
        var d :| 0 <= d < |th.life| && d != NONE && th.life[d] == Some(u);
        assert s.life[d] == Some(u);
      }
    }
  }

  lemma DropReadyPlaces(th: Threads, t: Thread)
    requires Placed(th, NONE) && t in th.ready
    ensures Placed(DropReady(th, t), NONE)
  {
    var s := DropReady(th, t);
    DeleteFacts(th.ready, t);
    StillOnCpu(th, s, t, NONE);
  }

  lemma DropWaitingPlaces(th: Threads, t: Thread)
    requires Placed(th, NONE) && t in th.live && t in th.waitingIn
    ensures Placed(DropWaiting(th, t), NONE)
  {
    var s := DropWaiting(th, t);
    DeleteFacts(th.rooms[th.waitingIn[t]], t);
    StillOnCpu(th, s, t, NONE);
  }

  lemma DropActivePlaces(th: Threads, c: Cpu)
    requires Placed(th, NONE) && th.life[c].Some? && th.life[c].value !in th.idle
    ensures Placed(Bury(th, th.life[c].value), c)
  {
    var t := th.life[c].value;
    assert RunsSoundly(th, c, t) && th.idle[c] in th.idle;
    StillOnCpu(th, Bury(th, t), t, c);
  }

  lemma StillOnCpu(th: Threads, s: Threads, t: Thread, x: int)
    requires s.life == th.life && (x != NONE ==> 0 <= x < |th.life| && th.life[x] == Some(t))
    ensures forall u :: u in th.live && u != t && OnCpu(th, u, NONE) ==> OnCpu(s, u, x)
  {
    forall u | u in th.live && u != t && OnCpu(th, u, NONE)
      ensures OnCpu(s, u, x)
    {
      var d :| 0 <= d < |th.life| && d != NONE && th.life[d] == Some(u);
      assert s.life[d] == Some(u);
    }
  }

  // ---- counters and owners ----

  function Held(lk: Locks, t: Thread): seq<Room> {
    if t in lk.held then lk.held[t] else []
  }

  /** Semaphores: never below zero unless they started there, positive only while nobody waits, and what was
      there at the start plus what was posted is what is left plus what was granted. */
  ghost predicate SemaphoreSound(s: State, r: Room)
    requires r in s.lk.sem
  {
    var e := s.lk.sem[r];
    && r in s.th.rooms
    && e.count >= Min(e.initial, 0)
    && (e.count > 0 ==> s.th.rooms[r] == [])
    && e.initial + e.posts == e.count + e.grants
  }

  ghost predicate Counted(s: State) {
    forall r :: r in s.lk.sem ==> SemaphoreSound(s, r)
  }

  /** The counter of a mutex is 1 exactly while its unit is free; `loose` is the mutex being unlocked. */
  ghost predicate UnitSound(lk: Locks, m: Room, loose: int)
    requires m in lk.mutex
  {
    && m in lk.sem
    && lk.sem[m].count == (if lk.mutex[m].Free? then 1 else 0)
    && (lk.mutex[m].Loose? <==> m == loose)
  }

  ghost predicate Units(lk: Locks, loose: int) {
    forall m :: m in lk.mutex ==> UnitSound(lk, m, loose)
  }

  ghost predicate HolderSound(s: State, t: Thread, m: Room, dying: int) {
    && (t in s.th.live || t == dying)
    && m in s.lk.mutex
    && s.lk.mutex[m] == Owned(t)
  }

  ghost predicate OwnerSound(lk: Locks, m: Room)
    requires m in lk.mutex
  {
    lk.mutex[m].Owned? ==> m in Held(lk, lk.mutex[m].owner)
  }

  /** The owners and the lists of held mutexes mirror each other; only live threads hold mutexes (or
      `dying`, in the middle of its destructor). */
  ghost predicate Mirrored(s: State, dying: int) {
    && (forall t {:trigger Held(s.lk, t)} :: Distinct(Held(s.lk, t)))
    && (forall t, m {:trigger HolderSound(s, t, m, dying)} {:trigger m in Held(s.lk, t)} ::
          m in Held(s.lk, t) ==> HolderSound(s, t, m, dying))
    && (forall m :: m in s.lk.mutex ==> OwnerSound(s.lk, m))
  }

  ghost predicate StoppedInLock(s: State, t: Thread)
    requires t in s.lk.inLock
  {
    var m := s.lk.inLock[t];
    && m in s.lk.mutex
    && if t in s.th.waitingIn then s.th.waitingIn[t] == m else t in s.th.ready && s.lk.mutex[m] == Promised(t)
  }

  ghost predicate PromiseSound(s: State, m: Room)
    requires m in s.lk.mutex
  {
    s.lk.mutex[m].Promised? ==>
      s.lk.mutex[m].heir in s.th.ready && s.lk.mutex[m].heir in s.lk.inLock && s.lk.inLock[s.lk.mutex[m].heir] == m
  }

  ghost predicate Handing(s: State) {
    && (forall t :: t in s.lk.inLock ==> t in s.th.live || t in s.th.dead)
    && (forall t :: t in s.th.live && t in s.lk.inLock ==> StoppedInLock(s, t))
    && (forall m, t :: m in s.lk.mutex && m in s.th.rooms && t in s.th.rooms[m] ==> t in s.lk.inLock)
    && (forall m :: m in s.lk.mutex ==> PromiseSound(s, m))
  }

  ghost predicate Locked(s: State, dying: int, loose: int) {
    && Counted(s)
    && Units(s.lk, loose)
    && Mirrored(s, dying)
    && Handing(s)
  }

  ghost predicate Inv(s: State) {
    Placed(s.th, NONE) && Locked(s, NONE, NONE)
  }

  // ---- the steps on counters and owners ----

  /** What a thread does first when it runs again: inside `Mutex::lock` it becomes the owner. */
  function Arrive(lk: Locks, t: Thread): Locks {
    if t !in lk.inLock then lk else
    var m := lk.inLock[t];
    lk.(mutex := lk.mutex[m := Owned(t)], held := lk.held[t := Held(lk, t) + [m]], inLock := lk.inLock - {t})
  }

  function Dispatch(s: State, c: Cpu): State
    requires |s.th.life| == |s.th.idle| == CPU_MAX
  {
    State(Switch(s.th, c), Arrive(s.lk, NextThread(s.th, c)))
  }

  /** A posted unit goes to the woken thread `t`, or else into the counter. */
  function PassOn(lk: Locks, r: Room, t: Thread): Locks
    requires r in lk.sem
  {
    var e := lk.sem[r];
    lk.(sem := lk.sem[r := e.(posts := e.posts + 1, grants := e.grants + 1)],
        mutex := if r in lk.mutex then lk.mutex[r := Promised(t)] else lk.mutex)
  }

  function PutBack(lk: Locks, r: Room): Locks
    requires r in lk.sem
  {
    var e := lk.sem[r];
    lk.(sem := lk.sem[r := e.(posts := e.posts + 1, count := e.count + 1)],
        mutex := if r in lk.mutex then lk.mutex[r := Free] else lk.mutex)
  }

  /** `Semaphore::v`. */
  function Post(s: State, r: Room): State
    requires r in s.lk.sem && r in s.th.rooms
  {
    if s.th.rooms[r] != [] then State(Wake(s.th, r), PassOn(s.lk, r, s.th.rooms[r][0]))
    else State(s.th, PutBack(s.lk, r))
  }

  /** `Mutex::unlock` takes the mutex from its owner and posts. */
  function TakeBack(lk: Locks, m: Room): Locks
    requires m in lk.mutex && lk.mutex[m].Owned?
  {
    var t := lk.mutex[m].owner;
    lk.(mutex := lk.mutex[m := Loose], held := lk.held[t := Delete(Held(lk, t), m)])
  }

  function Release(s: State, m: Room): State
    requires m in s.lk.mutex && s.lk.mutex[m].Owned? && m in s.lk.sem && m in s.th.rooms
  {
    Post(State(s.th, TakeBack(s.lk, m)), m)
  }

  lemma ArrivalIsPromised(s: State, c: Cpu)
    requires Placed(s.th, c) && Handing(s)
    ensures var n := NextThread(s.th, c);
            n in s.lk.inLock ==>
              n in s.th.live && s.lk.inLock[n] in s.lk.mutex && s.lk.mutex[s.lk.inLock[n]] == Promised(n)
  {
    var n := NextThread(s.th, c);
    assert s.th.idle[c] in s.th.idle;
    if n in s.lk.inLock { assert n in s.th.ready && StoppedInLock(s, n); }
  }

  lemma ArriveUnits(lk: Locks, n: Thread)
    requires Units(lk, NONE)
    requires n in lk.inLock ==> lk.inLock[n] in lk.mutex && lk.mutex[lk.inLock[n]].Promised?
    ensures Units(Arrive(lk, n), NONE)
  {
    var a := Arrive(lk, n);
    forall m | m in a.mutex
      ensures UnitSound(a, m, NONE)
    {
      assert UnitSound(lk, m, NONE);
    }
  }

  lemma ArriveMirrored(s: State, n: Thread, s': State)
    requires Mirrored(s, NONE) && s'.th.live == s.th.live && s'.lk == Arrive(s.lk, n)
    requires n in s.lk.inLock ==> n in s.th.live && s.lk.inLock[n] in s.lk.mutex && !s.lk.mutex[s.lk.inLock[n]].Owned?
    ensures Mirrored(s', NONE)
  {
    if n !in s.lk.inLock {
      MirroredSame(s, s', NONE);
      return;
    }
    var m := s.lk.inLock[n];
    var h := Held(s.lk, n);
    assert m in h ==> HolderSound(s, n, m, NONE);
    assert Held(s'.lk, n) == h + [m];
    assert forall k :: k in h + [m] <==> k in h || k == m;
    assert Distinct(h + [m]);
    forall t, k | k in Held(s'.lk, t)
      ensures HolderSound(s', t, k, NONE)
    {
      if !(t == n && k == m) {
        assert k in Held(s.lk, t) && HolderSound(s, t, k, NONE);
      }
    }
    forall k | k in s'.lk.mutex
      ensures OwnerSound(s'.lk, k)
    {
      assert k != m ==> OwnerSound(s.lk, k);
    }
    forall t
      ensures Distinct(Held(s'.lk, t))
    {
      assert Distinct(Held(s.lk, t));
    }
  }

  lemma MirroredSame(s: State, s': State, dying: int)
    requires Mirrored(s, dying) && s'.th.live == s.th.live && s'.lk.held == s.lk.held
    requires forall m :: m in s'.lk.mutex <==> m in s.lk.mutex
    requires forall m :: m in s.lk.mutex && (s'.lk.mutex[m].Owned? || s.lk.mutex[m].Owned?) ==> s'.lk.mutex[m] == s.lk.mutex[m]
    ensures Mirrored(s', dying)
  {
    forall t, m | m in Held(s'.lk, t)
      ensures HolderSound(s', t, m, dying)
    {
      assert m in Held(s.lk, t) && HolderSound(s, t, m, dying);
    }
    forall m | m in s'.lk.mutex
      ensures OwnerSound(s'.lk, m)
    {
      assert OwnerSound(s.lk, m);
    }
    forall t
      ensures Distinct(Held(s'.lk, t))
    {
      assert Distinct(Held(s.lk, t));
    }
  }

  lemma ArriveHanding(s: State, c: Cpu)
    requires Placed(s.th, c) && Handing(s)
    ensures Handing(Dispatch(s, c))
  {
    var n := NextThread(s.th, c);
    var d := Dispatch(s, c);
    ArrivalIsPromised(s, c);
    assert s.th.ready != [] ==> s.th.ready == [n] + d.th.ready;
    assert s.th.idle[c] in s.th.idle;
    assert n !in d.th.ready;
    forall t | t in d.th.live && t in d.lk.inLock
      ensures StoppedInLock(d, t)
    {
      assert StoppedInLock(s, t);
    }
    forall m | m in d.lk.mutex
      ensures PromiseSound(d, m)
    {
      assert m in s.lk.mutex && PromiseSound(s, m);
    }
  }

  lemma DispatchLocks(s: State, c: Cpu)
    requires Placed(s.th, c) && Locked(s, NONE, NONE)
    ensures Locked(Dispatch(s, c), NONE, NONE)
  {
    var n := NextThread(s.th, c);
    var d := Dispatch(s, c);
    ArrivalIsPromised(s, c);
    ArriveUnits(s.lk, n);
    ArriveMirrored(s, n, d);
    ArriveHanding(s, c);
    assert forall r :: r in d.lk.sem ==> SemaphoreSound(s, r);
  }

  lemma PostCounted(s: State, r: Room)
    requires r in s.lk.sem && Counted(s)
    ensures Counted(Post(s, r))
  {
    var p := Post(s, r);
    forall q | q in p.lk.sem
      ensures SemaphoreSound(p, q)
    {
      assert SemaphoreSound(s, q) && SemaphoreSound(s, r);
    }
  }

  lemma PostUnits(s: State, r: Room)
    requires r in s.lk.sem && r in s.th.rooms && Units(s.lk, if r in s.lk.mutex then r else NONE)
    ensures Units(Post(s, r).lk, NONE)
  {
    var p := Post(s, r);
    forall m | m in p.lk.mutex
      ensures UnitSound(p.lk, m, NONE)
    {
      assert UnitSound(s.lk, m, if r in s.lk.mutex then r else NONE);
    }
  }

  lemma PostHanding(s: State, r: Room, x: int)
    requires Placed(s.th, x) && r in s.lk.sem && r in s.th.rooms && Handing(s)
    requires r in s.lk.mutex ==> s.lk.mutex[r] == Loose
    ensures Handing(Post(s, r))
  {
    var p := Post(s, r);
    if s.th.rooms[r] != [] {
      var t := s.th.rooms[r][0];
      assert s.th.rooms[r] == [t] + p.th.rooms[r];
      assert t in s.th.rooms[r];
    }
    forall u | u in p.th.live && u in p.lk.inLock
      ensures StoppedInLock(p, u)
    {
      assert StoppedInLock(s, u);
    }
    forall m | m in p.lk.mutex
      ensures PromiseSound(p, m)
    {
      assert m in s.lk.mutex && PromiseSound(s, m);
    }
  }

  lemma PostLocks(s: State, r: Room, x: int, dying: int)
    requires Placed(s.th, x) && r in s.lk.sem
    requires Locked(s, dying, if r in s.lk.mutex then r else NONE)
    ensures r in s.th.rooms && Locked(Post(s, r), dying, NONE)
  {
    assert SemaphoreSound(s, r);
    assert r in s.lk.mutex ==> UnitSound(s.lk, r, r);
    PostCounted(s, r);
    PostUnits(s, r);
    PostHanding(s, r, x);
    MirroredSame(s, Post(s, r), dying);
  }

  lemma TakeBackUnits(lk: Locks, m: Room)
    requires Units(lk, NONE) && m in lk.mutex && lk.mutex[m].Owned?
    ensures Units(TakeBack(lk, m), m)
  {
    var b := TakeBack(lk, m);
    forall k | k in b.mutex
      ensures UnitSound(b, k, m)
    {
      assert UnitSound(lk, k, NONE);
    }
  }

  lemma TakeBackMirrored(s: State, m: Room, dying: int)
    requires Mirrored(s, dying) && m in s.lk.mutex && s.lk.mutex[m].Owned?
    ensures Mirrored(State(s.th, TakeBack(s.lk, m)), dying)
  {
    var o := s.lk.mutex[m].owner;
    var b := State(s.th, TakeBack(s.lk, m));
    DeleteFacts(Held(s.lk, o), m);
    forall t, k | k in Held(b.lk, t)
      ensures HolderSound(b, t, k, dying)
    {
      assert k in Held(s.lk, t) && HolderSound(s, t, k, dying);
    }
    forall k | k in b.lk.mutex
      ensures OwnerSound(b.lk, k)
    {
      assert OwnerSound(s.lk, k);
    }
    forall t
      ensures Distinct(Held(b.lk, t))
    {
      assert Distinct(Held(s.lk, t));
    }
  }

  lemma TakeBackLocks(s: State, m: Room, dying: int)
    requires Locked(s, dying, NONE) && m in s.lk.mutex && s.lk.mutex[m].Owned?
    ensures Locked(State(s.th, TakeBack(s.lk, m)), dying, m)
  {
    TakeBackUnits(s.lk, m);
    TakeBackMirrored(s, m, dying);
    var b := State(s.th, TakeBack(s.lk, m));
    forall u | u in b.th.live && u in b.lk.inLock
      ensures StoppedInLock(b, u)
    {
      assert StoppedInLock(s, u);
    }
    forall k | k in b.lk.mutex
      ensures PromiseSound(b, k)
    {
      assert PromiseSound(s, k);
    }
    assert forall r :: r in b.lk.sem ==> SemaphoreSound(s, r);
  }

  // ---- destruction ----

  /** A thread killed after a mutex was handed to it and before it ran takes the mutex with it. */
  function Forsake(lk: Locks, t: Thread): Locks {
    if t in lk.inLock && lk.inLock[t] in lk.mutex && lk.mutex[lk.inLock[t]] == Promised(t) then
      lk.(mutex := lk.mutex[lk.inLock[t] := Lost])
    else lk
  }

  ghost predicate Releasable(s: State, t: Thread) {
    && Distinct(Held(s.lk, t))
    && forall m :: m in Held(s.lk, t) ==>
         m in s.lk.mutex && s.lk.mutex[m] == Owned(t) && m in s.lk.sem && m in s.th.rooms
  }

  lemma ReleaseKeepsRest(s: State, t: Thread)
    requires Releasable(s, t) && Held(s.lk, t) != []
    ensures var r := Release(s, Held(s.lk, t)[0]); Releasable(r, t) && Held(r.lk, t) == Held(s.lk, t)[1..]
  {
    var h := Held(s.lk, t);
    assert Drop(h, 0) == h[1..];
    assert Held(Release(s, h[0]).lk, t) == h[1..];
    assert h == [h[0]] + h[1..];
  }

  /** `Thread::mutex_release_all`: every held mutex is unlocked, oldest first. */
  function ReleaseAll(s: State, t: Thread): State
    requires Releasable(s, t)
    decreases |Held(s.lk, t)|
  {
    if Held(s.lk, t) == [] then s else
    ReleaseKeepsRest(s, t);
    ReleaseAll(Release(s, Held(s.lk, t)[0]), t)
  }

  /** The destructor of thread `t`, whose removal from the queues has led to `th`. */
  function Die(s: State, th: Threads, t: Thread): State
    requires Releasable(State(th, Forsake(s.lk, t)), t)
  {
    ReleaseAll(State(th, Forsake(s.lk, t)), t)
  }

  lemma LockedReleasable(s: State, t: Thread, dying: int)
    requires Locked(s, dying, NONE)
    ensures Releasable(s, t)
  {
    forall m | m in Held(s.lk, t)
      ensures m in s.lk.mutex && s.lk.mutex[m] == Owned(t) && m in s.lk.sem && m in s.th.rooms
    {
      assert HolderSound(s, t, m, dying) && UnitSound(s.lk, m, NONE) && SemaphoreSound(s, m);
    }
  }

  lemma ReleaseKeeps(s: State, m: Room, x: int, dying: int)
    requires Placed(s.th, x) && Locked(s, dying, NONE) && m in s.lk.mutex && s.lk.mutex[m].Owned?
    ensures m in s.lk.sem && m in s.th.rooms
    ensures Placed(Release(s, m).th, x) && Locked(Release(s, m), dying, NONE)
  {
    assert UnitSound(s.lk, m, NONE) && SemaphoreSound(s, m);
    TakeBackLocks(s, m, dying);
    PostLocks(State(s.th, TakeBack(s.lk, m)), m, x, dying);
    if s.th.rooms[m] != [] { WakePlaces(s.th, m, x); }
  }

  lemma {:induction false} ReleaseAllKeeps(s: State, t: Thread, x: int)
    requires Placed(s.th, x) && Locked(s, t, NONE)
    ensures Releasable(s, t)
    ensures var r := ReleaseAll(s, t);
            Placed(r.th, x) && Locked(r, t, NONE) && Held(r.lk, t) == [] &&
            r.th.live == s.th.live && r.th.dead == s.th.dead && r.th.life == s.th.life && r.th.idle == s.th.idle &&
            r.th.killed == s.th.killed
    decreases |Held(s.lk, t)|
  {
    LockedReleasable(s, t, t);
    if Held(s.lk, t) != [] {
      var m := Held(s.lk, t)[0];
      ReleaseKeeps(s, m, x, t);
      ReleaseKeepsRest(s, t);
      ReleaseAllKeeps(Release(s, m), t, x);
    }
  }

  lemma NobodyDying(s: State, t: Thread)
    requires Locked(s, t, NONE) && Held(s.lk, t) == []
    ensures Locked(s, NONE, NONE)
  {
    forall u, m | m in Held(s.lk, u)
      ensures HolderSound(s, u, m, NONE)
    {
      assert HolderSound(s, u, m, t);
    }
  }

  /** `th'` is `th` after thread `t` was taken from the queue it was in, if any, and destroyed. */
  ghost predicate Gone(th: Threads, th': Threads, t: Thread) {
    && th'.live == th.live - {t} && th'.dead == th.dead + {t} && th'.waitingIn == th.waitingIn
    && (forall u :: u in th'.ready <==> u in th.ready && u != t)
    && (forall r :: r in th'.rooms <==> r in th.rooms)
    && (forall r :: r in th.rooms ==> (th.rooms[r] == [] ==> th'.rooms[r] == []))
    && (forall r, u :: r in th.rooms && u in th'.rooms[r] ==> u in th.rooms[r])
  }

  lemma ForsakeLocks(s: State, th: Threads, t: Thread)
    requires Locked(s, NONE, NONE) && Gone(s.th, th, t) && t in s.th.live
    ensures Locked(State(th, Forsake(s.lk, t)), t, NONE)
  {
    var d := State(th, Forsake(s.lk, t));
    assert Counted(d) by {
      assert forall r :: r in d.lk.sem ==> SemaphoreSound(s, r);
    }
    ForsakeMirrored(s, d, t);
    ForsakeUnits(s, t);
    ForsakeHanding(s, d, t);
  }

  lemma ForsakeUnits(s: State, t: Thread)
    requires Units(s.lk, NONE)
    ensures Units(Forsake(s.lk, t), NONE)
  {
    forall m | m in s.lk.mutex
      ensures UnitSound(Forsake(s.lk, t), m, NONE)
    {
      assert UnitSound(s.lk, m, NONE);
    }
  }

  lemma ForsakeMirrored(s: State, d: State, t: Thread)
    requires Mirrored(s, NONE) && d.lk == Forsake(s.lk, t) && d.th.live == s.th.live - {t}
    ensures Mirrored(d, t)
  {
    forall u, m | m in Held(d.lk, u)
      ensures HolderSound(d, u, m, t)
    {
      assert m in Held(s.lk, u) && HolderSound(s, u, m, NONE);
    }
    forall m | m in d.lk.mutex
      ensures OwnerSound(d.lk, m)
    {
      assert OwnerSound(s.lk, m);
    }
    forall u
      ensures Distinct(Held(d.lk, u))
    {
      assert Distinct(Held(s.lk, u));
    }
  }

  lemma ForsakeHanding(s: State, d: State, t: Thread)
    requires Handing(s) && d.lk == Forsake(s.lk, t) && Gone(s.th, d.th, t)
    ensures Handing(d)
  {
    forall u | u in d.th.live && u in d.lk.inLock
      ensures StoppedInLock(d, u)
    {
      assert StoppedInLock(s, u);
    }
    forall m | m in d.lk.mutex
      ensures PromiseSound(d, m)
    {
      assert PromiseSound(s, m);
    }
  }

  /** Destroying a thread that is out of every queue keeps both invariants; CPU `x`, if any, was running
      it and goes on to switch. */
  lemma DieKeeps(s: State, th: Threads, t: Thread, x: int)
    requires Locked(s, NONE, NONE) && Gone(s.th, th, t) && t in s.th.live && Placed(th, x)
    ensures Releasable(State(th, Forsake(s.lk, t)), t)
    ensures var d := Die(s, th, t);
            Placed(d.th, x) && Locked(d, NONE, NONE) && Held(d.lk, t) == [] &&
            d.th.live == th.live && d.th.dead == th.dead && d.th.life == th.life && d.th.idle == th.idle &&
            d.th.killed == th.killed
  {
    ForsakeLocks(s, th, t);
    ReleaseAllKeeps(State(th, Forsake(s.lk, t)), t, x);
    NobodyDying(Die(s, th, t), t);
  }
}
