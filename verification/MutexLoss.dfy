/** What becomes of a mutex that is unlocked: whose it is next, and how it can be lost for good. */
module MutexLoss {
  import opened Common
  import opened SchedulerSpec
  import opened SchedulerRuns
  import opened SchedulerTheorems

  // ---- who is served ----

  /** In some state of the run `t` owns `m`. */
  ghost predicate EverOwned(s: State, calls: seq<Call>, m: Room, t: Thread)
    requires Inv(s)
    decreases |calls|
  {
    (m in s.lk.mutex && s.lk.mutex[m] == Owned(t)) || (calls != [] && Enabled(s, calls[0]) &&
      (CallKeeps(s, calls[0]); EverOwned(Apply(s, calls[0]), calls[1..], m, t)))
  }

  lemma {:induction false} PromiseServes(s: State, calls: seq<Call>, f: State, m: Room, t: Thread)
    requires Inv(s) && Run(s, calls, f) && m in s.lk.mutex && s.lk.mutex[m] == Promised(t)
    ensures t in f.th.dead || (m in f.lk.mutex && f.lk.mutex[m] == Promised(t)) || EverOwned(s, calls, m, t)
    decreases |calls|
  {
    if calls != [] {
      var n := Apply(s, calls[0]);
      CallKeeps(s, calls[0]);
      PromiseKept(s, calls[0], m, t);
      if n.lk.mutex[m] == Lost {
        HeirDies(s, calls[0].c, m, t);
        DeadForGood(n, calls[1..], f, t);
      } else if n.lk.mutex[m] == Promised(t) {
        PromiseServes(n, calls[1..], f, m, t);
      }
    }
  }

  lemma HeirDies(s: State, c: Cpu, m: Room, t: Thread)
    requires Inv(s) && Enabled(s, Kill(c, t)) && m in s.lk.mutex && s.lk.mutex[m] == Promised(t)
    ensures t in DoKill(s, c, t).th.dead
  {
    assert PromiseSound(s, m);
    QueuedDies(s, t);
  }

  /** `unlock` hands the mutex to the thread that waits longest: in every run that follows it is reserved
      for that thread until it owns it, unless that thread is killed. */
  lemma UnlockServes(s: State, m: Room, calls: seq<Call>, f: State)
    requires Inv(s) && Enabled(s, Unlock(m)) && m in s.th.rooms && s.th.rooms[m] != []
    requires (CallKeeps(s, Unlock(m)); Run(Apply(s, Unlock(m)), calls, f))
    ensures var t := s.th.rooms[m][0];
            t in f.th.dead || (m in f.lk.mutex && f.lk.mutex[m] == Promised(t)) ||
            (CallKeeps(s, Unlock(m)); EverOwned(Apply(s, Unlock(m)), calls, m, t))
  {
    CallKeeps(s, Unlock(m));
    PromiseServes(Apply(s, Unlock(m)), calls, f, m, s.th.rooms[m][0]);
  }

  // ---- what a lost mutex is ----

  /** Nobody can ever take the mutex: its counter is 0, it is in no list of held mutexes, and every live
      thread inside `lock` for it waits in its queue. */
  ghost predicate Unobtainable(s: State, m: Room) {
    && m in s.lk.sem && m in s.th.rooms && s.lk.sem[m].count == 0
    && (forall t :: m !in Held(s.lk, t))
    && (forall t :: t in s.th.live && t in s.lk.inLock && s.lk.inLock[t] == m ==> t in s.th.rooms[m])
  }

  lemma LostIsUnobtainable(s: State, m: Room)
    requires Inv(s) && m in s.lk.mutex && s.lk.mutex[m] == Lost
    ensures Unobtainable(s, m)
  {
    assert UnitSound(s.lk, m, NONE) && SemaphoreSound(s, m);
    forall t ensures m !in Held(s.lk, t) {
      assert m in Held(s.lk, t) ==> HolderSound(s, t, m, NONE);
    }
    forall t | t in s.th.live && t in s.lk.inLock && s.lk.inLock[t] == m ensures t in s.th.rooms[m] {
      assert StoppedInLock(s, t);
    }
  }

  /** A lost mutex is out of everybody's reach for the rest of every run. */
  lemma LostForGood(s: State, calls: seq<Call>, f: State, m: Room)
    requires Inv(s) && Run(s, calls, f) && m in s.lk.mutex && s.lk.mutex[m] == Lost
    ensures m in f.lk.mutex && f.lk.mutex[m] == Lost && Unobtainable(f, m)
  {
    LostIsUnobtainable(s, m);
    RunInv(s, calls, f);
    MutexLostIff(s, calls, f, m);
    LostIsUnobtainable(f, m);
  }

  lemma {:induction false} ReleaseAllRoom(s: State, t: Thread, r: Room)
    requires Releasable(s, t) && r in s.th.rooms && r !in Held(s.lk, t)
    ensures r in ReleaseAll(s, t).th.rooms && ReleaseAll(s, t).th.rooms[r] == s.th.rooms[r]
    decreases |Held(s.lk, t)|
  {
    if Held(s.lk, t) != [] {
      var h := Held(s.lk, t);
      ReleaseKeepsRest(s, t);
      assert forall k :: k in h[1..] ==> k in h;
      ReleaseAllRoom(Release(s, h[0]), t, r);
    }
  }

  lemma DieRoom(s: State, th: Threads, t: Thread, m: Room)
    requires Inv(s) && m in s.lk.mutex && s.lk.mutex[m] == Lost && m in th.rooms
    requires Releasable(State(th, Forsake(s.lk, t)), t)
    ensures m in Die(s, th, t).th.rooms && Die(s, th, t).th.rooms[m] == th.rooms[m]
  {
    LostIsUnobtainable(s, m);
    assert m !in Held(s.lk, t);
    ReleaseAllRoom(State(th, Forsake(s.lk, t)), t, m);
  }

  lemma ExitStays(s: State, c: Cpu, m: Room, t: Thread)
    requires Inv(s) && Runs(s.th, c) && m in s.lk.mutex && s.lk.mutex[m] == Lost && Queued(s, m, t)
    ensures Queued(DoExit(s, c), m, t)
  {
    ActiveDies(s, c);
    DieRoom(s, Bury(s.th, s.th.life[c].value), s.th.life[c].value, m);
  }

  lemma ResumeStays(s: State, c: Cpu, m: Room, t: Thread)
    requires Inv(s) && s.th.life[c].Some? && m in s.lk.mutex && s.lk.mutex[m] == Lost && Queued(s, m, t)
    ensures Queued(DoResume(s, c), m, t)
  {
    if s.th.life[c].value in s.th.killed { ExitStays(s, c, m, t); }
  }

  lemma RingStays(s: State, b: Room, m: Room, t: Thread)
    requires Inv(s) && Enabled(s, Ring(b)) && m in s.lk.mutex && Queued(s, m, t)
    ensures m in WakeAll(s.th, b).rooms && t in WakeAll(s.th, b).rooms[m]
  {
    assert UnitSound(s.lk, m, NONE);
    WakeAllRest(s.th, b);
  }

  lemma KillStays(s: State, c: Cpu, k: Thread, m: Room, t: Thread)
    requires Inv(s) && Enabled(s, Kill(c, k)) && m in s.lk.mutex && s.lk.mutex[m] == Lost && Queued(s, m, t)
    ensures var f := DoKill(s, c, k); t in f.th.dead || Queued(f, m, t)
  {
    if k in s.th.ready {
      QueuedDies(s, k);
      DieRoom(s, DropReady(s.th, k), k, m);
    } else if k in s.th.waitingIn {
      WaiterDies(s, k);
      DieRoom(s, DropWaiting(s.th, k), k, m);
      DeleteFacts(s.th.rooms[s.th.waitingIn[k]], k);
    } else {
      FlagKeeps(s, k);
      if s.th.life[c] == Some(k) { ExitStays(Flag(s, k), c, m, t); }
    }
  }

  lemma RequestStays(s: State, call: Call, m: Room, t: Thread)
    requires Inv(s) && Enabled(s, call) && m in s.lk.mutex && Queued(s, m, t) && (call.P? || call.Lock? || call.Sleep?)
    ensures Queued(Apply(s, call), m, t)
  {
    if call.Lock? { assert UnitSound(s.lk, call.r, NONE); }
    assert call.r in s.lk.sem ==> SemaphoreSound(s, call.r);
    WaitStays(s.th, s.th.life[call.c].value, call.r, m, t);
  }

  lemma WaitStays(th: Threads, u: Thread, r: Room, m: Room, t: Thread)
    requires r in th.rooms && m in th.rooms && t in th.rooms[m]
    ensures m in Wait(th, u, r).rooms && t in Wait(th, u, r).rooms[m]
  {
  }

  lemma PostStays(s: State, call: Call, m: Room, t: Thread)
    requires Inv(s) && Enabled(s, call) && m in s.lk.mutex && s.lk.mutex[m] == Lost && Queued(s, m, t)
    requires call.Unlock? || call.V?
    ensures Queued(Apply(s, call), m, t)
  {
    if call.Unlock? { assert UnitSound(s.lk, call.r, NONE); }
    assert SemaphoreSound(s, call.r);
    assert call.r != m;
  }

  /** No call but its death takes a thread out of the queue of a lost mutex. */
  lemma CallStays(s: State, call: Call, m: Room, t: Thread)
    requires Inv(s) && Enabled(s, call) && m in s.lk.mutex && s.lk.mutex[m] == Lost && Queued(s, m, t)
    ensures t in Apply(s, call).th.dead || Queued(Apply(s, call), m, t)
  {
    match call
    case Resume(c) => ResumeStays(s, c, m, t);
    case Exit(c) => ExitStays(s, c, m, t);
    case Assassin(c) => if s.th.life[c].value in s.th.killed { ExitStays(s, c, m, t); }
    case Kill(c, k) => KillStays(s, c, k, m, t);
    case Ring(b) => RingStays(s, b, m, t);
    case Unlock(q) => PostStays(s, call, m, t);
    case V(q) => PostStays(s, call, m, t);
    case Lock(c, q) => RequestStays(s, call, m, t);
    case P(c, q) => RequestStays(s, call, m, t);
    case Sleep(c, q) => RequestStays(s, call, m, t);
    case Ready(k) =>
    case Schedule(c) =>
  }

  /** A thread that waits for a lost mutex waits for ever, or is killed. */
  lemma {:induction false} WaitsForEver(s: State, calls: seq<Call>, f: State, m: Room, t: Thread)
    requires Inv(s) && Run(s, calls, f) && m in s.lk.mutex && s.lk.mutex[m] == Lost && Queued(s, m, t)
    ensures t in f.th.dead || Queued(f, m, t)
    decreases |calls|
  {
    if calls != [] {
      var n := Apply(s, calls[0]);
      CallKeeps(s, calls[0]);
      CallStays(s, calls[0], m, t);
      CallMutex(s, calls[0], m);
      if t in n.th.dead {
        DeadForGood(n, calls[1..], f, t);
      } else {
        WaitsForEver(n, calls[1..], f, m, t);
      }
    }
  }

  /** ... and that is what becomes of every thread that calls `lock` from then on. */
  lemma LockNeverReturns(s: State, c: Cpu, m: Room, calls: seq<Call>, f: State)
    requires Inv(s) && Enabled(s, Lock(c, m)) && s.lk.mutex[m] == Lost
    requires (CallKeeps(s, Lock(c, m)); Run(Apply(s, Lock(c, m)), calls, f))
    ensures var t := s.th.life[c].value; t in f.th.dead || Queued(f, m, t)
  {
    CallKeeps(s, Lock(c, m));
    LostIsUnobtainable(s, m);
    LockMutex(s, c, m, m);
    var t := s.th.life[c].value;
    var q := Apply(s, Lock(c, m)).th.rooms[m];
    assert q[|q| - 1] == t;
    WaitsForEver(Apply(s, Lock(c, m)), calls, f, m, t);
  }

  // ---- how to lose one ----

  /** One call leads from `s` to `n`. */
  ghost predicate Leads(s: State, call: Call, n: State) {
    Inv(s) && Inv(n) && Enabled(s, call) && Apply(s, call) == n
  }

  lemma RunOne(s: State, call: Call, n: State, calls: seq<Call>, f: State, all: seq<Call>)
    requires Leads(s, call, n) && Run(n, calls, f) && all != [] && all[0] == call && all[1..] == calls
    ensures Run(s, all, f)
  {
  }

  lemma TwoAndTwo(a: Call, b: Call, c: Call, d: Call)
    ensures [a, b] + [c, d] == [a, b, c, d]
  {
  }

  /** Whatever run starts at `n` can be reached from `s` through `calls`. */
  ghost predicate Reaches(s: State, calls: seq<Call>, n: State) {
    Inv(s) && Inv(n) && forall more, f :: Run(n, more, f) ==> Run(s, calls + more, f)
  }

  lemma ReachesTwo(s: State, a: Call, n: State, b: Call, k: State)
    requires Leads(s, a, n) && Leads(n, b, k)
    ensures Reaches(s, [a, b], k)
  {
    forall more, f | Run(k, more, f) ensures Run(s, [a, b] + more, f) {
      var rest := ([a, b] + more)[1..];
      assert rest[0] == b && rest[1..] == more;
      RunOne(n, b, k, more, f, rest);
      RunOne(s, a, n, rest, f, [a, b] + more);
    }
  }

  lemma ReachesJoin(s: State, x: seq<Call>, n: State, y: seq<Call>, k: State, all: seq<Call>)
    requires Reaches(s, x, n) && Reaches(n, y, k) && all == x + y
    ensures Reaches(s, all, k)
  {
    forall more, f | Run(k, more, f) ensures Run(s, all + more, f) {
      assert x + (y + more) == all + more;
    }
  }

  lemma ReachesRun(s: State, calls: seq<Call>, n: State)
    requires Reaches(s, calls, n)
    ensures Run(s, calls, n)
  {
    assert Run(n, [], n) && calls + [] == calls;
  }

  lemma LockTaken(s: State, c: Cpu, m: Room)
    requires Inv(s) && Runs(s.th, c) && m in s.lk.mutex && s.lk.mutex[m] == Free
    ensures var n := Apply(s, Lock(c, m));
            Inv(n) && n.th == s.th && n.lk.mutex[m] == Owned(s.th.life[c].value) && n.th.rooms[m] == []
  {
    assert UnitSound(s.lk, m, NONE) && SemaphoreSound(s, m);
    CallKeeps(s, Lock(c, m));
  }

  lemma DispatchSpares(s: State, d: Cpu, m: Room)
    requires Placed(s.th, d) && Handing(s) && m in s.lk.mutex && s.lk.mutex[m].Owned?
    ensures var n := Dispatch(s, d);
            && m in n.lk.mutex && n.lk.mutex[m] == s.lk.mutex[m] && n.th.rooms == s.th.rooms
            && n.th.idle == s.th.idle && n.th.dead == s.th.dead && |n.th.life| == CPU_MAX
            && forall c :: 0 <= c < CPU_MAX && c != d ==> n.th.life[c] == s.th.life[c]
  {
    ArrivalIsPromised(s, d);
  }

  lemma LockStops(s: State, d: Cpu, m: Room)
    requires Inv(s) && Runs(s.th, d) && m in s.lk.mutex && s.lk.mutex[m].Owned?
    ensures m in s.th.rooms && Placed(Stop(s, s.th.life[d].value, m).th, d)
    ensures Handing(Stop(s, s.th.life[d].value, m))
    ensures Apply(s, Lock(d, m)) == Dispatch(Stop(s, s.th.life[d].value, m), d)
  {
    assert UnitSound(s.lk, m, NONE) && SemaphoreSound(s, m);
    StopReady(s, d, m);
  }

  lemma LockBlocked(s: State, d: Cpu, m: Room)
    requires Inv(s) && Runs(s.th, d) && m in s.lk.mutex && s.lk.mutex[m].Owned? && m in s.th.rooms && s.th.rooms[m] == []
    ensures var n := Apply(s, Lock(d, m));
            Inv(n) && m in n.lk.mutex && n.lk.mutex[m] == s.lk.mutex[m] && n.th.rooms[m] == [s.th.life[d].value]
    ensures forall c :: 0 <= c < CPU_MAX && c != d ==> Apply(s, Lock(d, m)).th.life[c] == s.th.life[c]
    ensures Apply(s, Lock(d, m)).th.idle == s.th.idle && Apply(s, Lock(d, m)).th.dead == s.th.dead
  {
    LockStops(s, d, m);
    DispatchSpares(Stop(s, s.th.life[d].value, m), d, m);
    LockKeeps(s, d, m);
  }

  lemma UnlockHandsOver(s: State, m: Room, u: Thread)
    requires Inv(s) && m in s.lk.mutex && s.lk.mutex[m].Owned? && m in s.th.rooms && s.th.rooms[m] == [u]
    ensures var n := Apply(s, Unlock(m));
            Inv(n) && m in n.lk.mutex && n.lk.mutex[m] == Promised(u) && n.th.life == s.th.life
    ensures Apply(s, Unlock(m)).th.idle == s.th.idle && Apply(s, Unlock(m)).th.dead == s.th.dead
  {
    CallKeeps(s, Unlock(m));
  }

  lemma KillLoses(s: State, c: Cpu, m: Room, u: Thread)
    requires Inv(s) && Enabled(s, Kill(c, u)) && m in s.lk.mutex && s.lk.mutex[m] == Promised(u)
    ensures Inv(Apply(s, Kill(c, u))) && m in Apply(s, Kill(c, u)).lk.mutex && Apply(s, Kill(c, u)).lk.mutex[m] == Lost
  {
    assert PromiseSound(s, m) && UnitSound(s.lk, m, NONE) && SemaphoreSound(s, m);
    CallKeeps(s, Kill(c, u));
    CallMutex(s, Kill(c, u), m);
  }

  lemma BothLock(s: State, c: Cpu, d: Cpu, m: Room) returns (n: State)
    requires Inv(s) && c != d && Runs(s.th, c) && Runs(s.th, d) && m in s.lk.mutex && s.lk.mutex[m] == Free
    ensures Reaches(s, [Lock(c, m), Lock(d, m)], n)
    ensures m in n.lk.mutex && n.lk.mutex[m].Owned? && m in n.th.rooms && n.th.rooms[m] == [s.th.life[d].value]
    ensures n.th.life[c] == s.th.life[c] && n.th.idle == s.th.idle && n.th.dead == s.th.dead
  {
    LockTaken(s, c, m);
    var k := Apply(s, Lock(c, m));
    LockBlocked(k, d, m);
    n := Apply(k, Lock(d, m));
    ReachesTwo(s, Lock(c, m), k, Lock(d, m), n);
  }

  lemma UnlockAndKill(s: State, c: Cpu, m: Room, u: Thread) returns (f: State)
    requires Inv(s) && m in s.lk.mutex && s.lk.mutex[m].Owned? && m in s.th.rooms && s.th.rooms[m] == [u]
    requires s.th.life[c].Some? && u !in s.th.dead && u !in s.th.idle
    ensures Reaches(s, [Unlock(m), Kill(c, u)], f) && m in f.lk.mutex && f.lk.mutex[m] == Lost
  {
    UnlockHandsOver(s, m, u);
    var n := Apply(s, Unlock(m));
    KillLoses(n, c, m, u);
    f := Apply(n, Kill(c, u));
    ReachesTwo(s, Unlock(m), n, Kill(c, u), f);
  }

  /** Two running threads are enough to lose any free mutex: both lock it, the owner unlocks it, and the one
      that waited is killed before it runs again. */
  lemma TwoThreadsLoseIt(s: State, c: Cpu, d: Cpu, m: Room) returns (f: State)
    requires Inv(s) && c != d && Runs(s.th, c) && Runs(s.th, d) && m in s.lk.mutex && s.lk.mutex[m] == Free
    ensures Reaches(s, [Lock(c, m), Lock(d, m), Unlock(m), Kill(c, s.th.life[d].value)], f)
    ensures m in f.lk.mutex && f.lk.mutex[m] == Lost
  {
    var u := s.th.life[d].value;
    assert u !in s.th.dead by { RunnerFree(s, d); }
    var n := BothLock(s, c, d, m);
    f := UnlockAndKill(n, c, m, u);
    TwoAndTwo(Lock(c, m), Lock(d, m), Unlock(m), Kill(c, u));
    ReachesJoin(s, [Lock(c, m), Lock(d, m)], n, [Unlock(m), Kill(c, u)], f, [Lock(c, m), Lock(d, m), Unlock(m), Kill(c, u)]);
  }

  // ---- from the start ----

  lemma Announced(s: State, t: Thread, n: State)
    requires Inv(s) && Enabled(s, Ready(t)) && n == Apply(s, Ready(t))
    ensures Leads(s, Ready(t), n) && n.lk == s.lk && n.th == s.th.(ready := s.th.ready + [t], live := s.th.live + {t})
  {
    CallKeeps(s, Ready(t));
  }

  lemma Started(s: State, c: Cpu, n: State)
    requires Inv(s) && s.th.life[c] == None && s.th.ready != [] && s.lk.inLock == map[] && n == Apply(s, Schedule(c))
    ensures Leads(s, Schedule(c), n) && n.lk == s.lk
    ensures n.th == s.th.(ready := s.th.ready[1..], life := s.th.life[c := Some(s.th.ready[0])])
  {
    CallKeeps(s, Schedule(c));
  }

  lemma BothAnnounced(s: State, t: Thread, u: Thread) returns (n: State)
    requires Inv(s) && s.th.ready == [] && s.th.live == {} == s.th.dead
    requires t != u && t !in s.th.idle && u !in s.th.idle
    ensures Reaches(s, [Ready(t), Ready(u)], n)
    ensures n.lk == s.lk && n.th == s.th.(ready := [t, u], live := {t, u})
  {
    var k := Apply(s, Ready(t));
    Announced(s, t, k);
    n := Apply(k, Ready(u));
    Announced(k, u, n);
    ReachesTwo(s, Ready(t), k, Ready(u), n);
  }

  lemma BothStarted(s: State, t: Thread, u: Thread) returns (n: State)
    requires Inv(s) && s.th.ready == [t, u] && s.lk.inLock == map[] && s.th.life[0] == None == s.th.life[1]
    ensures Reaches(s, [Schedule(0), Schedule(1)], n)
    ensures n.lk == s.lk && n.th.idle == s.th.idle && n.th.life == s.th.life[0 := Some(t)][1 := Some(u)]
  {
    var k := Apply(s, Schedule(0));
    Started(s, 0, k);
    n := Apply(k, Schedule(1));
    Started(k, 1, n);
    ReachesTwo(s, Schedule(0), k, Schedule(1), n);
  }

  /** The eight calls by which a mutex of a freshly started kernel is lost. */
  function Losing(t: Thread, u: Thread, m: Room): seq<Call> {
    [Ready(t), Ready(u), Schedule(0), Schedule(1)] + [Lock(0, m), Lock(1, m), Unlock(m), Kill(0, u)]
  }

  lemma BothRun(s: State, t: Thread, u: Thread) returns (n: State)
    requires Inv(s) && s.th.ready == [] && s.th.live == {} == s.th.dead && s.lk.inLock == map[]
    requires s.th.life[0] == None == s.th.life[1] && t != u && t !in s.th.idle && u !in s.th.idle
    ensures Reaches(s, [Ready(t), Ready(u), Schedule(0), Schedule(1)], n)
    ensures n.lk == s.lk && n.th.idle == s.th.idle && n.th.life == s.th.life[0 := Some(t)][1 := Some(u)]
  {
    var k := BothAnnounced(s, t, u);
    n := BothStarted(k, t, u);
    TwoAndTwo(Ready(t), Ready(u), Schedule(0), Schedule(1));
    ReachesJoin(s, [Ready(t), Ready(u)], k, [Schedule(0), Schedule(1)], n, [Ready(t), Ready(u), Schedule(0), Schedule(1)]);
  }

  /** A mutex can be lost: any two threads and any mutex will do. */
  lemma LossHappens(idle: seq<Thread>, semaphores: map<Room, int>, mutexes: set<Room>, bells: set<Room>,
                    t: Thread, u: Thread, m: Room) returns (f: State)
    requires |idle| == CPU_MAX && Distinct(idle) && t != u && t !in idle && u !in idle && m in mutexes
    ensures (BootInv(idle, semaphores, mutexes, bells); Run(Boot(idle, semaphores, mutexes, bells), Losing(t, u, m), f))
    ensures Inv(f) && m in f.lk.mutex && f.lk.mutex[m] == Lost && Unobtainable(f, m)
  {
    var b := Boot(idle, semaphores, mutexes, bells);
    BootInv(idle, semaphores, mutexes, bells);
    var s := BothRun(b, t, u);
    f := TwoThreadsLoseIt(s, 0, 1, m);
    ReachesJoin(b, [Ready(t), Ready(u), Schedule(0), Schedule(1)], s,
                [Lock(0, m), Lock(1, m), Unlock(m), Kill(0, u)], f, Losing(t, u, m));
    ReachesRun(b, Losing(t, u, m), f);
    LostIsUnobtainable(f, m);
  }
}
