/** What the invariants of SchedulerRuns give over whole runs. */
module SchedulerTheorems {
  import opened Common
  import opened SchedulerSpec
  import opened SchedulerRuns

  /** `calls`, made one after the other from `s`, lead to `f`. */
  ghost predicate Run(s: State, calls: seq<Call>, f: State)
    requires Inv(s)
    decreases |calls|
  {
    if calls == [] then f == s else
    && Enabled(s, calls[0])
    && (CallKeeps(s, calls[0]); Run(Apply(s, calls[0]), calls[1..], f))
  }

  lemma {:induction false} RunInv(s: State, calls: seq<Call>, f: State)
    requires Inv(s) && Run(s, calls, f)
    ensures Inv(f)
    decreases |calls|
  {
    if calls != [] {
      CallKeeps(s, calls[0]);
      RunInv(Apply(s, calls[0]), calls[1..], f);
    }
  }

  // ---- exclusive placement ----

  datatype Place = InReadyList(index: nat) | OnCpu(cpu: Cpu) | InRoom(room: Room, index: nat)

  ghost predicate At(th: Threads, t: Thread, p: Place)
    requires |th.life| == CPU_MAX
  {
    match p
    case InReadyList(i) => i < |th.ready| && th.ready[i] == t
    case OnCpu(c) => th.life[c] == Some(t)
    case InRoom(r, i) => r in th.rooms && i < |th.rooms[r]| && th.rooms[r][i] == t
  }

  lemma InSomePlace(s: State, t: Thread) returns (p: Place)
    requires Inv(s) && t in s.th.live
    ensures At(s.th, t, p)
    ensures p.InRoom? <==> t in s.th.waitingIn
    ensures p.InRoom? ==> s.th.waitingIn[t] == p.room
  {
    if t in s.th.ready {
      var i :| 0 <= i < |s.th.ready| && s.th.ready[i] == t;
      p := InReadyList(i);
    } else if t in s.th.waitingIn {
      var r := s.th.waitingIn[t];
      var i :| 0 <= i < |s.th.rooms[r]| && s.th.rooms[r][i] == t;
      p := InRoom(r, i);
    } else {
      var c :| 0 <= c < |s.th.life| && c != NONE && s.th.life[c] == Some(t);
      p := OnCpu(c);
    }
  }

  lemma InOnePlace(s: State, t: Thread, p: Place, q: Place)
    requires Inv(s) && At(s.th, t, p) && At(s.th, t, q) && t !in s.th.idle
    ensures p == q && t in s.th.live
  {
    PlaceFacts(s, t, p);
    PlaceFacts(s, t, q);
  }

  lemma PlaceFacts(s: State, t: Thread, p: Place)
    requires Inv(s) && At(s.th, t, p)
    ensures t in s.th.live || (p.OnCpu? && t == s.th.idle[p.cpu])
    ensures p.InReadyList? ==> t in s.th.ready
    ensures p.InRoom? ==> t in s.th.waitingIn && s.th.waitingIn[t] == p.room
    ensures p.OnCpu? && t in s.th.live ==> t !in s.th.ready && t !in s.th.waitingIn
    ensures t in s.th.idle ==> t !in s.th.live
  {
    match p
    case InReadyList(i) => assert t in s.th.ready;
    case InRoom(r, i) => assert t in s.th.rooms[r];
    case OnCpu(c) => assert RunsSoundly(s.th, c, t) && s.th.idle[c] in s.th.idle;
  }

  /** A live thread is in exactly one place; a thread that is not live (not announced yet, or destroyed)
      is in none, an idle thread in none but its own CPU. */
  ghost predicate Exclusive(th: Threads, t: Thread)
    requires |th.life| == |th.idle| == CPU_MAX
  {
    && (t in th.live ==> exists p :: At(th, t, p) && forall q :: At(th, t, q) ==> q == p)
    && (t !in th.live && t !in th.idle ==> forall p :: !At(th, t, p))
    && (t in th.idle ==> forall p :: At(th, t, p) ==> p.OnCpu? && th.idle[p.cpu] == t)
  }

  lemma InvExclusive(s: State, t: Thread)
    requires Inv(s)
    ensures Exclusive(s.th, t)
  {
    if t in s.th.live {
      var p := InSomePlace(s, t);
      forall q | At(s.th, t, q)
        ensures q == p
      {
        InOnePlace(s, t, p, q);
      }
    } else {
      forall p | At(s.th, t, p)
        ensures p.OnCpu? && s.th.idle[p.cpu] == t && t in s.th.idle
      {
        PlaceFacts(s, t, p);
      }
    }
  }

  lemma ExclusivePlacement(s: State, calls: seq<Call>, f: State, t: Thread)
    requires Inv(s) && Run(s, calls, f)
    ensures |f.th.life| == |f.th.idle| == CPU_MAX && Exclusive(f.th, t)
  {
    RunInv(s, calls, f);
    InvExclusive(f, t);
  }

  // ---- killing ----

  /** `kill` finds every live thread: it destroys it at once unless the thread runs on another CPU, and
      then leaves it there with its flag set, and nothing else changed.  The branch that finds no CPU is
      taken for unannounced threads only. */
  lemma KillFinds(s: State, c: Cpu, t: Thread)
    requires Inv(s) && Enabled(s, Kill(c, t)) && t in s.th.live
    ensures var k := DoKill(s, c, t);
      if exists d :: 0 <= d < CPU_MAX && d != c && s.th.life[d] == Some(t) then
        t in k.th.killed && k == State(s.th.(killed := s.th.killed + {t}), s.lk)
      else
        t in k.th.dead && t !in k.th.live && Held(k.lk, t) == []
  {
    var p := InSomePlace(s, t);
    forall d | 0 <= d < CPU_MAX && s.th.life[d] == Some(t)
      ensures p == OnCpu(d)
    {
      InOnePlace(s, t, p, OnCpu(d));
    }
    var k := DoKill(s, c, t);
    KillKeeps(s, c, t);
    if t in s.th.ready {
      QueuedDies(s, t);
      NothingHeld(k, t);
    } else if t in s.th.waitingIn {
      WaiterDies(s, t);
      NothingHeld(k, t);
    } else if s.th.life[c] == Some(t) {
      FlagKeeps(s, t);
      ActiveDies(Flag(s, t), c);
      NothingHeld(k, t);
    }
  }

  lemma NothingHeld(s: State, t: Thread)
    requires Inv(s) && t !in s.th.live
    ensures Held(s.lk, t) == []
  {
    var h := Held(s.lk, t);
    assert h != [] ==> h[0] in h && HolderSound(s, t, h[0], NONE);
  }

  /** `resume` never queues a thread flagged as killed: it destroys it.  Any other thread but an idle one
      goes to the end of the ready list, and runs on only if it is alone. */
  lemma ResumeQueuesOrBuries(s: State, c: Cpu)
    requires Inv(s) && s.th.life[c].Some?
    ensures var t := s.th.life[c].value;
            var f := DoResume(s, c);
            && (t in s.th.killed ==> t in f.th.dead && t !in f.th.ready && Held(f.lk, t) == [])
            && (t in s.th.idle ==> t !in f.th.ready)
            && (t !in s.th.killed && t !in s.th.idle ==>
                  if s.th.ready == [] then f.th.life[c] == Some(t) && f.th.ready == []
                  else f.th.life[c] == Some(s.th.ready[0]) && f.th.ready == s.th.ready[1..] + [t])
  {
    var t := s.th.life[c].value;
    ResumeKeeps(s, c);
    if t in s.th.killed {
      ActiveDies(s, c);
      NothingHeld(DoResume(s, c), t);
    }
  }

  lemma CallKeepsDead(s: State, call: Call)
    requires Inv(s) && Enabled(s, call)
    ensures s.th.dead <= Apply(s, call).th.dead
  {
    match call
    case Resume(c) => if s.th.life[c].value in s.th.killed { ActiveDies(s, c); }
    case Exit(c) => ActiveDies(s, c);
    case Kill(c, t) =>
      if t in s.th.ready {
        QueuedDies(s, t);
      } else if t in s.th.waitingIn {
        WaiterDies(s, t);
      } else {
        FlagKeeps(s, t);
        if s.th.life[c] == Some(t) { ActiveDies(Flag(s, t), c); }
      }
    case Assassin(c) => if s.th.life[c].value in s.th.killed { ActiveDies(s, c); }
    case Ring(r) => WakeAllRest(s.th, r);
    case Ready(t) =>
    case Schedule(c) =>
    case P(c, r) =>
    case V(r) =>
    case Lock(c, m) =>
    case Unlock(m) =>
    case Sleep(c, r) =>
  }

  lemma {:induction false} WakeAllRest(th: Threads, r: Room)
    requires r in th.rooms
    ensures var w := WakeAll(th, r);
      w.dead == th.dead && w.live == th.live && w.life == th.life && w.idle == th.idle && w.killed == th.killed &&
      w.rooms == th.rooms[r := []] && w.ready == th.ready + th.rooms[r]
    decreases |th.rooms[r]|
  {
    if th.rooms[r] != [] {
      WakeAllRest(Wake(th, r), r);
      assert th.rooms[r] == [th.rooms[r][0]] + th.rooms[r][1..];
    }
  }

  /** Destroyed threads are nowhere, hold nothing, and stay so for the rest of the run. */
  lemma {:induction false} DeadForGood(s: State, calls: seq<Call>, f: State, t: Thread)
    requires Inv(s) && Run(s, calls, f) && t in s.th.dead
    ensures |f.th.life| == CPU_MAX && t in f.th.dead && Held(f.lk, t) == [] && forall p :: !At(f.th, t, p)
    decreases |calls|
  {
    if calls == [] {
      ExclusivePlacement(s, calls, f, t);
      NothingHeld(f, t);
    } else {
      CallKeeps(s, calls[0]);
      CallKeepsDead(s, calls[0]);
      DeadForGood(Apply(s, calls[0]), calls[1..], f, t);
    }
  }

  // ---- what a flag does ----

  /** `exit` destroys the running thread, and nobody else is flagged by it. */
  lemma ExitDestroys(s: State, c: Cpu)
    requires Inv(s) && Runs(s.th, c)
    ensures var t := s.th.life[c].value;
            var f := DoExit(s, c);
            Inv(f) && f.th.killed == s.th.killed && t in f.th.dead && Held(f.lk, t) == []
  {
    var t := s.th.life[c].value;
    ExitKeeps(s, c);
    ActiveDies(s, c);
    NothingHeld(DoExit(s, c), t);
  }

  lemma CallKeepsFlags(s: State, call: Call)
    requires Inv(s) && Enabled(s, call)
    ensures s.th.killed <= Apply(s, call).th.killed
  {
    match call
    case Resume(c) => if s.th.life[c].value in s.th.killed { ExitDestroys(s, c); }
    case Exit(c) => ExitDestroys(s, c);
    case Kill(c, t) =>
      if t in s.th.ready {
        QueuedDies(s, t);
      } else if t in s.th.waitingIn {
        WaiterDies(s, t);
      } else {
        FlagKeeps(s, t);
        if s.th.life[c] == Some(t) { ExitDestroys(Flag(s, t), c); }
      }
    case Assassin(c) => if s.th.life[c].value in s.th.killed { ExitDestroys(s, c); }
    case Ring(r) => WakeAllRest(s.th, r);
    case Ready(t) =>
    case Schedule(c) =>
    case P(c, r) =>
    case V(r) =>
    case Lock(c, m) =>
    case Unlock(m) =>
    case Sleep(c, r) =>
  }

  /** A set flag stays set. */
  lemma {:induction false} FlaggedForGood(s: State, calls: seq<Call>, f: State, t: Thread)
    requires Inv(s) && Run(s, calls, f) && t in s.th.killed
    ensures t in f.th.killed
    decreases |calls|
  {
    if calls != [] {
      CallKeeps(s, calls[0]);
      CallKeepsFlags(s, calls[0]);
      FlaggedForGood(Apply(s, calls[0]), calls[1..], f, t);
    }
  }

  /** No kill is lost.  After `kill` of a live thread it is destroyed or flagged in every later state, and
      the first `resume`, or the first interrupt of the assassin, on a CPU it runs on destroys it. */
  lemma KillTakesEffect(s: State, c: Cpu, t: Thread, calls: seq<Call>, f: State, d: Cpu, call: Call)
    requires Inv(s) && Enabled(s, Kill(c, t)) && t in s.th.live
    requires (KillKeeps(s, c, t); Run(DoKill(s, c, t), calls, f))
    requires call == Resume(d) || call == Assassin(d)
    ensures Inv(f) && (t in f.th.dead || t in f.th.killed)
    ensures f.th.life[d] == Some(t) ==>
              Enabled(f, call) && t in Apply(f, call).th.dead && Held(Apply(f, call).lk, t) == []
  {
    var k := DoKill(s, c, t);
    KillKeeps(s, c, t);
    KillFinds(s, c, t);
    RunInv(k, calls, f);
    if t in k.th.dead { DeadForGood(k, calls, f, t); } else { FlaggedForGood(k, calls, f, t); }
    if f.th.life[d] == Some(t) {
      assert t !in f.th.dead by { if t in f.th.dead { DeadForGood(f, [], f, t); assert At(f.th, t, OnCpu(d)); } }
      ExitDestroys(f, d);
    }
  }

  // ---- what a caller finds afterwards ----

  /** The head of the ready list, if any, or else the idle thread, runs on CPU `c` in place of thread `t`,
      which waits as the last in room `r`. */
  ghost predicate GoneToWait(s: State, f: State, c: Cpu, t: Thread, r: Room)
    requires |s.th.idle| == |s.th.life| == |f.th.life| == CPU_MAX
  {
    && r in s.th.rooms && r in f.th.rooms && f.th.rooms[r] == s.th.rooms[r] + [t]
    && f.th.ready == (if s.th.ready == [] then [] else s.th.ready[1..])
    && f.th.life[c] == Some(if s.th.ready == [] then s.th.idle[c] else s.th.ready[0])
    && t !in f.th.ready && f.th.life[c] != Some(t)
  }

  lemma BlockWaits(s: State, c: Cpu, r: Room)
    requires Inv(s) && Runs(s.th, c) && r in s.th.rooms
    ensures GoneToWait(s, Block(s, c, r), c, s.th.life[c].value, r)
  {
    RunnerFree(s, c);
    if s.th.ready != [] { assert s.th.ready[0] in s.th.ready; }
    assert s.th.idle[c] in s.th.idle;
  }

  /** `p` takes a unit if there is one, and otherwise waits, as `sleep` always does. */
  lemma TakesOrWaits(s: State, c: Cpu, r: Room)
    requires Inv(s) && Runs(s.th, c) && r in s.th.rooms && r !in s.lk.mutex
    ensures r in s.lk.sem && s.lk.sem[r].count > 0 ==>
              (var f := Apply(s, P(c, r)); f.th == s.th && r in f.lk.sem && f.lk.sem[r].count == s.lk.sem[r].count - 1)
    ensures r in s.lk.sem && s.lk.sem[r].count <= 0 ==>
              GoneToWait(s, Apply(s, P(c, r)), c, s.th.life[c].value, r)
    ensures r !in s.lk.sem ==> GoneToWait(s, Apply(s, Sleep(c, r)), c, s.th.life[c].value, r)
  {
    BlockWaits(s, c, r);
  }

  /** `lock` returns at once, with the mutex, exactly if that is free; otherwise the caller waits for it. */
  lemma LocksOrWaits(s: State, c: Cpu, m: Room)
    requires Inv(s) && Enabled(s, Lock(c, m))
    ensures var t := s.th.life[c].value;
            var f := Apply(s, Lock(c, m));
            if s.lk.mutex[m] == Free then
              f.th == s.th && m in f.lk.mutex && f.lk.mutex[m] == Owned(t) && Held(f.lk, t) == Held(s.lk, t) + [m]
            else
              GoneToWait(s, f, c, t, m) && Held(f.lk, t) == Held(s.lk, t)
  {
    assert UnitSound(s.lk, m, NONE) && SemaphoreSound(s, m);
    if s.lk.mutex[m] != Free {
      var t := s.th.life[c].value;
      var w := State(s.th, s.lk.(inLock := s.lk.inLock[t := m]));
      RunnerFree(s, c);
      if s.th.ready != [] { assert s.th.ready[0] in s.th.ready; }
      assert s.th.idle[c] in s.th.idle;
      assert DoLock(s, c, m) == Block(w, c, m);
    }
  }

  // ---- what a call leaves alone ----

  ghost predicate Suffix<T>(q: seq<T>, p: seq<T>) {
    |p| <= |q| && p == q[|q| - |p|..]
  }

  /** Room `r` may have lost threads at its front; as a semaphore that is not a mutex it is untouched. */
  ghost predicate Aside(s: State, f: State, r: Room) {
    && r in s.th.rooms && r in f.th.rooms && Suffix(s.th.rooms[r], f.th.rooms[r])
    && (r in f.lk.sem <==> r in s.lk.sem)
    && (r in f.lk.mutex <==> r in s.lk.mutex)
    && (r !in s.lk.mutex ==> f.th.rooms[r] == s.th.rooms[r])
    && (r in s.lk.sem && r !in s.lk.mutex ==> f.lk.sem[r] == s.lk.sem[r])
  }

  lemma ReleaseAside(s: State, t: Thread, m: Room, r: Room)
    requires m in s.lk.mutex && s.lk.mutex[m] == Owned(t) && m in s.lk.sem && m in s.th.rooms && r in s.th.rooms
    ensures var n := Release(s, m);
            && Aside(s, n, r)
            && (r in s.lk.mutex ==>
                  if r == m then n.lk.mutex[r].Free? || n.lk.mutex[r].Promised? else n.lk.mutex[r] == s.lk.mutex[r])
  {
  }

  lemma AsideTrans(s: State, n: State, f: State, r: Room)
    requires Aside(s, n, r) && Aside(n, f, r)
    ensures Aside(s, f, r)
  {
  }

  lemma {:induction false} ReleaseAllAside(s: State, t: Thread, r: Room)
    requires Releasable(s, t) && r in s.th.rooms
    ensures var f := ReleaseAll(s, t);
            && Aside(s, f, r)
            && (r in s.lk.mutex && s.lk.mutex[r] != Owned(t) ==> f.lk.mutex[r] == s.lk.mutex[r])
            && (r in s.lk.mutex && s.lk.mutex[r] == Owned(t) ==> f.lk.mutex[r] != Lost)
    decreases |Held(s.lk, t)|
  {
    if Held(s.lk, t) != [] {
      var m := Held(s.lk, t)[0];
      ReleaseKeepsRest(s, t);
      ReleaseAside(s, t, m, r);
      ReleaseAllAside(Release(s, m), t, r);
      AsideTrans(s, Release(s, m), ReleaseAll(s, t), r);
    }
  }

  /** Mutex `m` gets lost exactly if `lost`; handed to a thread, it stays so or becomes that thread's. */
  ghost predicate MutexStep(s: State, f: State, m: Room, lost: bool) {
    m in s.lk.mutex ==>
      && m in f.lk.mutex
      && (f.lk.mutex[m] == Lost <==> s.lk.mutex[m] == Lost || lost)
      && (s.lk.mutex[m].Promised? && !lost ==>
            f.lk.mutex[m] == s.lk.mutex[m] || f.lk.mutex[m] == Owned(s.lk.mutex[m].heir))
  }

  lemma DieAside(s: State, th: Threads, t: Thread, r: Room)
    requires Releasable(State(th, Forsake(s.lk, t)), t) && r in th.rooms
    ensures Aside(State(th, s.lk), Die(s, th, t), r)
    ensures MutexStep(s, Die(s, th, t), r,
                      r in s.lk.mutex && s.lk.mutex[r] == Promised(t) && t in s.lk.inLock && s.lk.inLock[t] == r)
  {
    ReleaseAllAside(State(th, Forsake(s.lk, t)), t, r);
  }

  lemma DispatchAside(s: State, c: Cpu, r: Room)
    requires Placed(s.th, c) && Locked(s, NONE, NONE) && r in s.th.rooms
    ensures Aside(s, Dispatch(s, c), r) && MutexStep(s, Dispatch(s, c), r, false)
  {
    ArrivalIsPromised(s, c);
  }

  lemma ExitAside(s: State, c: Cpu, r: Room)
    requires Inv(s) && Runs(s.th, c) && r in s.th.rooms
    ensures Aside(s, DoExit(s, c), r) && MutexStep(s, DoExit(s, c), r, false)
  {
    var t := s.th.life[c].value;
    var b := Bury(s.th, t);
    RunnerFree(s, c);
    ActiveDies(s, c);
    DieAside(s, b, t, r);
    DispatchAside(Die(s, b, t), c, r);
  }

  lemma KillAside(s: State, c: Cpu, t: Thread, r: Room)
    requires Inv(s) && Enabled(s, Kill(c, t)) && r in s.th.rooms
    ensures var rest := if KillsWaiter(s, Kill(c, t), r) then DropWaiting(s.th, t) else s.th;
            Aside(State(rest, s.lk), DoKill(s, c, t), r)
    ensures MutexStep(s, DoKill(s, c, t), r, KillsHeir(s, Kill(c, t), r))
  {
    if t in s.th.ready {
      QueuedDies(s, t);
      DieAside(s, DropReady(s.th, t), t, r);
      assert r in s.lk.mutex ==> PromiseSound(s, r);
    } else if t in s.th.waitingIn {
      WaiterDies(s, t);
      DieAside(s, DropWaiting(s.th, t), t, r);
      assert t in s.lk.inLock ==> StoppedInLock(s, t);
      assert r in s.lk.mutex ==> PromiseSound(s, r);
    } else {
      FlagKeeps(s, t);
      if s.th.life[c] == Some(t) { ExitAside(Flag(s, t), c, r); }
    }
  }

  /** The call kills a thread waiting in room `r`. */
  ghost predicate KillsWaiter(s: State, call: Call, r: Room) {
    call.Kill? && call.t !in s.th.ready && call.t in s.th.waitingIn && s.th.waitingIn[call.t] == r && r in s.th.rooms
  }

  /** The call kills the thread that mutex `m` was handed to, before that thread ran. */
  ghost predicate KillsHeir(s: State, call: Call, m: Room) {
    call.Kill? && m in s.lk.mutex && s.lk.mutex[m] == Promised(call.t) && call.t in s.th.ready
  }

  // ---- semaphores ----

  function Posts(calls: seq<Call>, r: Room): nat {
    if calls == [] then 0 else (if calls[0] == V(r) then 1 else 0) + Posts(calls[1..], r)
  }

  predicate Requests(call: Call, r: Room) {
    call.P? && call.r == r
  }

  function Requested(calls: seq<Call>, r: Room): nat {
    if calls == [] then 0 else (if Requests(calls[0], r) then 1 else 0) + Requested(calls[1..], r)
  }

  /** The number of threads killed in the run while they waited in room `r`. */
  ghost function Withdrawn(s: State, calls: seq<Call>, r: Room): nat
    requires Inv(s)
    decreases |calls|
  {
    if calls == [] || !Enabled(s, calls[0]) then 0 else
    CallKeeps(s, calls[0]);
    (if KillsWaiter(s, calls[0], r) then 1 else 0) + Withdrawn(Apply(s, calls[0]), calls[1..], r)
  }

  ghost predicate PlainSemaphore(s: State, r: Room) {
    r in s.lk.sem && r !in s.lk.mutex && r in s.th.rooms
  }

  /** `f` counts `posts` more posts and `asked` more requests than `s`, `gone` of which were withdrawn. */
  ghost predicate Account(s: State, f: State, r: Room, posts: nat, asked: nat, gone: nat)
    requires PlainSemaphore(s, r)
  {
    && PlainSemaphore(f, r)
    && f.lk.sem[r].initial == s.lk.sem[r].initial
    && f.lk.sem[r].posts == s.lk.sem[r].posts + posts
    && f.lk.sem[r].grants + |f.th.rooms[r]| + gone == s.lk.sem[r].grants + |s.th.rooms[r]| + asked
  }

  lemma PAccount(s: State, c: Cpu, q: Room, r: Room)
    requires Inv(s) && Enabled(s, P(c, q)) && PlainSemaphore(s, r)
    ensures Account(s, DoP(s, c, q), r, 0, if q == r then 1 else 0, 0)
  {
    assert SemaphoreSound(s, q);
  }

  lemma VAccount(s: State, q: Room, r: Room)
    requires Inv(s) && q in s.lk.sem && q !in s.lk.mutex && PlainSemaphore(s, r)
    ensures q in s.th.rooms && Account(s, Post(s, q), r, if q == r then 1 else 0, 0, 0)
  {
    assert SemaphoreSound(s, q);
  }

  lemma MutexAccount(s: State, call: Call, r: Room)
    requires Inv(s) && Enabled(s, call) && PlainSemaphore(s, r) && (call.Lock? || call.Unlock?)
    ensures Account(s, Apply(s, call), r, 0, 0, 0)
  {
    var m := call.r;
    assert UnitSound(s.lk, m, NONE) && SemaphoreSound(s, m);
  }

  lemma CallAccount(s: State, call: Call, r: Room)
    requires Inv(s) && Enabled(s, call) && PlainSemaphore(s, r)
    ensures Account(s, Apply(s, call), r, if call == V(r) then 1 else 0, if Requests(call, r) then 1 else 0,
                    if KillsWaiter(s, call, r) then 1 else 0)
  {
    match call
    case Resume(c) => if s.th.life[c].value in s.th.killed { ExitAside(s, c, r); }
    case Exit(c) => ExitAside(s, c, r);
    case Kill(c, t) =>
      KillAside(s, c, t, r);
      if KillsWaiter(s, call, r) { DeleteFacts(s.th.rooms[r], t); }
    case Assassin(c) => if s.th.life[c].value in s.th.killed { ExitAside(s, c, r); }
    case Ring(q) => WakeAllRest(s.th, q);
    case Unlock(m) => MutexAccount(s, call, r);
    case V(q) => VAccount(s, q, r);
    case Lock(c, m) => MutexAccount(s, call, r);
    case P(c, q) => PAccount(s, c, q, r);
    case Ready(t) =>
    case Schedule(c) =>
    case Sleep(c, q) =>
  }

  /** Over every run: the counter is never below zero unless it started there, and positive only while nobody waits; what was there
      at the start plus every `v` is what is left plus every granted `p`; and every `p` was granted, still
      waits, or was withdrawn by a kill. */
  lemma {:induction false} SemaphoreAccount(s: State, calls: seq<Call>, f: State, r: Room)
    requires Inv(s) && Run(s, calls, f) && PlainSemaphore(s, r)
    ensures Account(s, f, r, Posts(calls, r), Requested(calls, r), Withdrawn(s, calls, r))
    ensures var e := f.lk.sem[r];
            e.count >= Min(e.initial, 0) && (e.count > 0 ==> f.th.rooms[r] == []) && e.initial + e.posts == e.count + e.grants
    decreases |calls|
  {
    if calls != [] {
      CallKeeps(s, calls[0]);
      CallAccount(s, calls[0], r);
      SemaphoreAccount(Apply(s, calls[0]), calls[1..], f, r);
    } else {
      assert SemaphoreSound(f, r);
    }
  }

  /** The same from the start, in numbers: tokens out plus tokens left are tokens put in. */
  lemma SemaphoreFromBoot(idle: seq<Thread>, semaphores: map<Room, int>, mutexes: set<Room>, bells: set<Room>,
                          calls: seq<Call>, f: State, r: Room)
    requires |idle| == CPU_MAX && Distinct(idle) && r in semaphores && r !in mutexes
    requires (BootInv(idle, semaphores, mutexes, bells); Run(Boot(idle, semaphores, mutexes, bells), calls, f))
    ensures r in f.lk.sem && r in f.th.rooms
    ensures semaphores[r] + Posts(calls, r) == f.lk.sem[r].count + f.lk.sem[r].grants
    ensures f.lk.sem[r].count >= Min(semaphores[r], 0) && (f.lk.sem[r].count <= 0 || f.th.rooms[r] == [])
  {
    BootInv(idle, semaphores, mutexes, bells);
    SemaphoreAccount(Boot(idle, semaphores, mutexes, bells), calls, f, r);
  }

  // ---- first come, first served ----

  lemma SuffixAt<T>(q: seq<T>, p: seq<T>, n: nat)
    requires Suffix(q, p) && n < |p|
    ensures p[n] == q[n + |q| - |p|]
  {
  }

  lemma SamePlace<T>(q: seq<T>, i: nat, j: nat)
    requires Distinct(q) && i < |q| && j < |q| && q[i] == q[j]
    ensures i == j
  {
  }

  lemma SuffixOrder<T>(q: seq<T>, p: seq<T>, x: T, y: T)
    requires Distinct(q) && Suffix(q, p) && Before(q, x, y) && x in p
    ensures Before(p, x, y)
  {
    var i, j :| 0 <= i < j < |q| && q[i] == x && q[j] == y;
    var k :| 0 <= k < |p| && p[k] == x;
    var d := |q| - |p|;
    SuffixAt(q, p, k);
    SamePlace(q, k + d, i);
    SuffixAt(q, p, j - d);
    PairBefore(p, k, j - d);
  }

  lemma PairBefore<T>(p: seq<T>, i: nat, j: nat)
    requires i < j < |p|
    ensures Before(p, p[i], p[j])
  {
  }

  lemma AppendOrder<T>(q: seq<T>, z: T, x: T, y: T)
    requires Before(q, x, y)
    ensures Before(q + [z], x, y)
  {
    var i, j :| 0 <= i < j < |q| && q[i] == x && q[j] == y;
    assert (q + [z])[i] == x && (q + [z])[j] == y;
  }

  ghost predicate Queued(s: State, r: Room, t: Thread) {
    r in s.th.rooms && t in s.th.rooms[r]
  }

  ghost predicate Ahead(s: State, r: Room, t: Thread, u: Thread) {
    r in s.th.rooms && Before(s.th.rooms[r], t, u)
  }

  lemma ShrunkKeepsOrder(s: State, f: State, r: Room, t: Thread, u: Thread)
    requires Inv(s) && Ahead(s, r, t, u) && Queued(f, r, t) && Suffix(s.th.rooms[r], f.th.rooms[r])
    ensures Ahead(f, r, t, u)
  {
    SuffixOrder(s.th.rooms[r], f.th.rooms[r], t, u);
  }

  lemma BlockKeepsOrder(s: State, c: Cpu, b: Room, r: Room, t: Thread, u: Thread)
    requires |s.th.life| == |s.th.idle| == CPU_MAX && s.th.life[c].Some? && b in s.th.rooms && Ahead(s, r, t, u)
    ensures Ahead(Block(s, c, b), r, t, u)
  {
    AppendOrder(s.th.rooms[r], s.th.life[c].value, t, u);
  }

  lemma RequestKeepsOrder(s: State, call: Call, r: Room, t: Thread, u: Thread)
    requires Inv(s) && Enabled(s, call) && Ahead(s, r, t, u) && (call.P? || call.Lock? || call.Sleep?)
    ensures Ahead(Apply(s, call), r, t, u)
  {
    if call.Lock? { assert UnitSound(s.lk, call.r, NONE); }
    assert call.r in s.lk.sem ==> SemaphoreSound(s, call.r);
    BlockKeepsOrder(if call.Lock? then State(s.th, s.lk.(inLock := s.lk.inLock[s.th.life[call.c].value := call.r])) else s,
                    call.c, call.r, r, t, u);
  }

  lemma PostKeepsOrder(s: State, b: Room, r: Room, t: Thread, u: Thread)
    requires b in s.lk.sem && b in s.th.rooms && Ahead(s, r, t, u) && Distinct(s.th.rooms[r])
    requires Queued(Post(s, b), r, t)
    ensures Ahead(Post(s, b), r, t, u)
  {
    SuffixOrder(s.th.rooms[r], Post(s, b).th.rooms[r], t, u);
  }

  lemma CallKeepsOrder(s: State, call: Call, r: Room, t: Thread, u: Thread)
    requires Inv(s) && Enabled(s, call) && Ahead(s, r, t, u) && Queued(Apply(s, call), r, t)
    ensures u in Apply(s, call).th.dead || Ahead(Apply(s, call), r, t, u)
  {
    match call
    case Resume(c) => if s.th.life[c].value in s.th.killed { ExitKeepsOrder(s, c, r, t, u); }
    case Exit(c) => ExitKeepsOrder(s, c, r, t, u);
    case Assassin(c) => if s.th.life[c].value in s.th.killed { ExitKeepsOrder(s, c, r, t, u); }
    case Kill(c, k) => KillKeepsOrder(s, c, k, r, t, u);
    case Ring(b) => WakeAllRest(s.th, b);
    case Unlock(m) =>
      assert UnitSound(s.lk, m, NONE) && SemaphoreSound(s, m);
      PostKeepsOrder(State(s.th, TakeBack(s.lk, m)), m, r, t, u);
    case V(b) => assert SemaphoreSound(s, b); PostKeepsOrder(s, b, r, t, u);
    case Lock(c, m) => RequestKeepsOrder(s, call, r, t, u);
    case P(c, b) => RequestKeepsOrder(s, call, r, t, u);
    case Sleep(c, b) => RequestKeepsOrder(s, call, r, t, u);
    case Ready(k) =>
    case Schedule(c) =>
  }

  lemma ExitKeepsOrder(s: State, c: Cpu, r: Room, t: Thread, u: Thread)
    requires Inv(s) && Runs(s.th, c) && Ahead(s, r, t, u) && Queued(DoExit(s, c), r, t)
    ensures Ahead(DoExit(s, c), r, t, u)
  {
    ExitAside(s, c, r);
    ShrunkKeepsOrder(s, DoExit(s, c), r, t, u);
  }

  lemma KillKeepsOrder(s: State, c: Cpu, k: Thread, r: Room, t: Thread, u: Thread)
    requires Inv(s) && Enabled(s, Kill(c, k)) && Ahead(s, r, t, u) && Queued(DoKill(s, c, k), r, t)
    ensures u in DoKill(s, c, k).th.dead || Ahead(DoKill(s, c, k), r, t, u)
  {
    var q := s.th.rooms[r];
    var f := DoKill(s, c, k);
    KillAside(s, c, k, r);
    if KillsWaiter(s, Kill(c, k), r) {
      WaiterDies(s, k);
      DeleteFacts(q, k);
      assert t in f.th.rooms[r] && t in Delete(q, k);
      if u != k {
        DropKeepsOrder(q, Position(q, k), t, u);
        SuffixOrder(Delete(q, k), f.th.rooms[r], t, u);
      }
    } else {
      SuffixOrder(q, f.th.rooms[r], t, u);
    }
  }

  /** Thread `t` waits in room `r` in every state of the run. */
  ghost predicate WaitsThroughout(s: State, calls: seq<Call>, r: Room, t: Thread)
    requires Inv(s)
    decreases |calls|
  {
    Queued(s, r, t) && (calls == [] || !Enabled(s, calls[0]) ||
      (CallKeeps(s, calls[0]); WaitsThroughout(Apply(s, calls[0]), calls[1..], r, t)))
  }

  /** Nobody is served before a thread that came earlier: while `t` waits, a thread behind it in the same
      room goes on waiting behind it, or is killed. */
  lemma {:induction false} FirstComeFirstServed(s: State, calls: seq<Call>, f: State, r: Room, t: Thread, u: Thread)
    requires Inv(s) && Run(s, calls, f) && Ahead(s, r, t, u) && WaitsThroughout(s, calls, r, t)
    ensures u in f.th.dead || Ahead(f, r, t, u)
    decreases |calls|
  {
    if calls != [] {
      var n := Apply(s, calls[0]);
      CallKeeps(s, calls[0]);
      assert Queued(n, r, t);
      CallKeepsOrder(s, calls[0], r, t, u);
      if u in n.th.dead {
        DeadForGood(n, calls[1..], f, u);
      } else {
        FirstComeFirstServed(n, calls[1..], f, r, t, u);
      }
    }
  }

  // ---- mutexes ----

  /** Two threads never hold the same mutex; its holder is live, and nothing is left in its counter. */
  lemma MutexExclusion(s: State, calls: seq<Call>, f: State, m: Room, t: Thread, u: Thread)
    requires Inv(s) && Run(s, calls, f) && m in Held(f.lk, t) && m in Held(f.lk, u)
    ensures t == u && t in f.th.live && m in f.lk.sem && f.lk.sem[m].count == 0
  {
    RunInv(s, calls, f);
    assert HolderSound(f, t, m, NONE) && HolderSound(f, u, m, NONE) && UnitSound(f.lk, m, NONE);
  }

  lemma ResumeMutex(s: State, c: Cpu, m: Room)
    requires Inv(s) && s.th.life[c].Some? && m in s.th.rooms
    ensures m in DoResume(s, c).th.rooms && MutexStep(s, DoResume(s, c), m, false)
  {
    var t := s.th.life[c].value;
    if t in s.th.killed {
      ExitAside(s, c, m);
    } else if t in s.th.idle {
      IdleSwitches(s, c);
      DispatchAside(s, c, m);
    } else {
      RequeueReady(s, c);
      DispatchAside(State(Requeue(s.th, t), s.lk), c, m);
    }
  }

  lemma BlockMutex(s: State, c: Cpu, r: Room, m: Room)
    requires Inv(s) && Runs(s.th, c) && r in s.th.rooms && r !in s.lk.mutex && m in s.th.rooms
    requires r in s.lk.sem ==> s.lk.sem[r].count <= 0
    ensures m in Block(s, c, r).th.rooms && MutexStep(s, Block(s, c, r), m, false)
  {
    WaitReady(s, c, r);
    DispatchAside(State(Wait(s.th, s.th.life[c].value, r), s.lk), c, m);
  }

  lemma LockMutex(s: State, c: Cpu, q: Room, m: Room)
    requires Inv(s) && Runs(s.th, c) && q in s.lk.mutex && m in s.th.rooms
    ensures m in DoLock(s, c, q).th.rooms && MutexStep(s, DoLock(s, c, q), m, false)
  {
    assert UnitSound(s.lk, q, NONE) && SemaphoreSound(s, q);
    if s.lk.sem[q].count == 0 {
      StopReady(s, c, q);
      DispatchAside(Stop(s, s.th.life[c].value, q), c, m);
    }
  }

  lemma CallMutex(s: State, call: Call, m: Room)
    requires Inv(s) && Enabled(s, call) && m in s.th.rooms
    ensures m in Apply(s, call).th.rooms && MutexStep(s, Apply(s, call), m, KillsHeir(s, call, m))
  {
    match call
    case Resume(c) => ResumeMutex(s, c, m);
    case Schedule(c) => IdleSwitches(s, c); DispatchAside(s, c, m);
    case Exit(c) => ExitAside(s, c, m);
    case Kill(c, t) => KillAside(s, c, t, m);
    case Assassin(c) => if s.th.life[c].value in s.th.killed { ExitAside(s, c, m); }
    case Ring(q) => WakeAllRest(s.th, q);
    case Unlock(q) => assert UnitSound(s.lk, q, NONE) && SemaphoreSound(s, q);
    case V(q) => assert SemaphoreSound(s, q);
    case Lock(c, q) => LockMutex(s, c, q, m);
    case P(c, q) => assert SemaphoreSound(s, q); if s.lk.sem[q].count <= 0 { BlockMutex(s, c, q, m); }
    case Ready(t) =>
    case Sleep(c, q) => BlockMutex(s, c, q, m);
  }

  /** Some call of the run kills the thread that `m` had just been handed to. */
  ghost predicate HeirKilled(s: State, calls: seq<Call>, m: Room)
    requires Inv(s)
    decreases |calls|
  {
    calls != [] && Enabled(s, calls[0]) &&
    (KillsHeir(s, calls[0], m) || (CallKeeps(s, calls[0]); HeirKilled(Apply(s, calls[0]), calls[1..], m)))
  }

  /** Every mutex is free, owned, on its way to the thread it was handed to, or lost for good; and it is
      lost exactly if a thread was killed between being handed the mutex and running again. */
  lemma {:induction false} MutexLostIff(s: State, calls: seq<Call>, f: State, m: Room)
    requires Inv(s) && Run(s, calls, f) && m in s.lk.mutex && m in s.th.rooms
    ensures m in f.lk.mutex && !f.lk.mutex[m].Loose?
    ensures f.lk.mutex[m] == Lost <==> s.lk.mutex[m] == Lost || HeirKilled(s, calls, m)
    decreases |calls|
  {
    if calls == [] {
      assert UnitSound(f.lk, m, NONE);
    } else {
      CallKeeps(s, calls[0]);
      CallMutex(s, calls[0], m);
      MutexLostIff(Apply(s, calls[0]), calls[1..], f, m);
    }
  }

  /** A dying thread unlocks every mutex it held exactly once, and no other; afterwards it holds none. */
  lemma {:induction false} ReleasedOnce(s: State, t: Thread, m: Room)
    requires Releasable(s, t) && m in s.lk.sem
    ensures var f := ReleaseAll(s, t);
      && Held(f.lk, t) == []
      && m in f.lk.sem && f.lk.sem[m].posts == s.lk.sem[m].posts + (if m in Held(s.lk, t) then 1 else 0)
    decreases |Held(s.lk, t)|
  {
    var h := Held(s.lk, t);
    if h != [] {
      ReleaseKeepsRest(s, t);
      ReleasedOnce(Release(s, h[0]), t, m);
      assert h == [h[0]] + h[1..];
      assert h[0] !in h[1..];
    }
  }

  /** A mutex handed to a thread is for nobody else: it stays so until that thread runs, and so owns it,
      or is killed. */
  lemma PromiseKept(s: State, call: Call, m: Room, t: Thread)
    requires Inv(s) && Enabled(s, call) && m in s.lk.mutex && s.lk.mutex[m] == Promised(t)
    ensures var f := Apply(s, call);
            && m in f.lk.mutex
            && (f.lk.mutex[m] == Lost <==> call.Kill? && call.t == t)
            && (f.lk.mutex[m] == Lost || f.lk.mutex[m] == Promised(t) || f.lk.mutex[m] == Owned(t))
  {
    assert UnitSound(s.lk, m, NONE) && SemaphoreSound(s, m) && PromiseSound(s, m);
    CallMutex(s, call, m);
  }
}
