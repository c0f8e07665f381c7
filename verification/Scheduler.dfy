/** The scheduler, dispatcher, semaphores and mutexes as the code updates them: `Scheduler`, `Dispatcher`,
    and the fields of the threads and waiting rooms.  Pointers that may be null are maps with the non-null
    ones.  The ready list and the queues of the waiting rooms are linked through one link in each thread;
    the ghost sequences say what they hold. */
module SchedulerCode {
  import opened Common
  import opened QueueLists
  import opened SchedulerSpec
  import opened SchedulerRuns

  const NO_CPU := 255

  /** The key of the ready list among the queues of threads; a room has its address. */
  const READY := -1

  function AllQueues(ready: seq<Thread>, rooms: map<Room, seq<Thread>>): map<int, seq<nat>> {
    var all: map<int, seq<nat>> := rooms;
    all[READY := ready]
  }

  lemma SetReady(ready: seq<Thread>, rooms: map<Room, seq<Thread>>, q: seq<Thread>)
    ensures AllQueues(q, rooms) == AllQueues(ready, rooms)[READY := q]
  {
  }

  lemma SetRoom(ready: seq<Thread>, rooms: map<Room, seq<Thread>>, r: Room, q: seq<Thread>)
    ensures AllQueues(ready, rooms[r := q]) == AllQueues(ready, rooms)[r := q]
  {
  }

  lemma InRoom(th: Threads, r: Room, t: Thread)
    requires QueuesSound(th) && r in th.rooms && t in th.rooms[r]
    ensures t in th.live && t in th.waitingIn && th.waitingIn[t] == r && t !in th.ready
  {
  }

  /** The lists of held mutexes, by thread. */
  function HeldLists(held: map<Thread, seq<Room>>, threads: set<int>): map<int, seq<nat>> {
    map t: int | t in threads :: if t in held then held[t] else []
  }

  lemma SetHeld(held: map<Thread, seq<Room>>, threads: set<int>, t: Thread, q: seq<Room>)
    ensures t in threads ==> HeldLists(held[t := q], threads) == HeldLists(held, threads)[t := q]
    ensures (t in held ==> held[t] == []) ==> HeldLists(held, threads + {t}) == HeldLists(held, threads)[t := []]
  {
  }

  /** No mutex is in two of the lists. */
  ghost predicate HeldApart(lk: Locks) {
    forall t, u, m :: t != u && m in Held(lk, t) ==> m !in Held(lk, u)
  }

  ghost predicate Unheld(lk: Locks, m: Room) {
    forall t :: m !in Held(lk, t)
  }

  lemma ListsApart(held: map<Thread, seq<Room>>, threads: set<int>, lk: Locks)
    requires HeldApart(lk) && lk.held == held
    ensures Apart(HeldLists(held, threads))
    ensures forall m: Room :: Unheld(lk, m) ==> Nowhere(HeldLists(held, threads), m)
  {
    var all := HeldLists(held, threads);
    forall k, m: nat | k in all && m in all[k] ensures k in held && m in Held(lk, k) { }
  }

  /** One owner for each mutex is what lets one link serve all lists. */
  lemma OwnersApart(s: State, dying: int)
    requires Mirrored(s, dying)
    ensures HeldApart(s.lk)
    ensures forall m :: m in s.lk.mutex && !s.lk.mutex[m].Owned? ==> Unheld(s.lk, m)
  {
    forall t, m | m in Held(s.lk, t) ensures m in s.lk.mutex && s.lk.mutex[m] == Owned(t) {
      assert HolderSound(s, t, m, dying);
    }
  }

  /** What a thread that takes a mutex may rely on. */
  ghost predicate MayTake(s: State, t: Thread, m: Room) {
    t in s.th.live && m in s.lk.mutex && HeldApart(s.lk) && Unheld(s.lk, m)
  }

  lemma MayStillTake(s: State, s': State, t: Thread, m: Room)
    requires MayTake(s, t, m) && s'.lk.held == s.lk.held && t in s'.th.live && m in s'.lk.mutex
    ensures MayTake(s', t, m)
  {
    assert forall u :: Held(s'.lk, u) == Held(s.lk, u);
  }

  lemma ArrivalTakes(s: State, c: Cpu)
    requires Placed(s.th, c) && Locked(s, NONE, NONE)
    ensures var n := NextThread(s.th, c); n in s.lk.inLock ==> MayTake(s, n, s.lk.inLock[n])
  {
    ArrivalIsPromised(s, c);
    OwnersApart(s, NONE);
  }

  lemma FreeTakes(s: State, c: Cpu, m: Room)
    requires Inv(s) && Runs(s.th, c) && m in s.lk.mutex && m in s.lk.sem
    ensures s.lk.sem[m].count > 0 ==> MayTake(s, s.th.life[c].value, m)
  {
    assert UnitSound(s.lk, m, NONE);
    RunnerFree(s, c);
    OwnersApart(s, NONE);
  }

  lemma HoldsNothing(s: State, t: Thread)
    requires Inv(s) && t !in s.th.live
    ensures Held(s.lk, t) == []
  {
    var h := Held(s.lk, t);
    assert h != [] ==> h[0] in h && HolderSound(s, t, h[0], NONE);
  }

  /** Exclusive placement is what lets one link serve all queues. */
  lemma QueuesApart(th: Threads)
    requires QueuesSound(th)
    ensures Apart(AllQueues(th.ready, th.rooms))
  {
    var all := AllQueues(th.ready, th.rooms);
    forall k, l, t | k in all && l in all && k != l && t in all[k] ensures t !in all[l] {
      if t in all[l] {
        if k != READY { InRoom(th, k, t); }
        if l != READY { InRoom(th, l, t); }
      }
    }
  }

  /** Thread `t` out of the room it waits in. */
  function Left(th: Threads, t: Thread): Threads
    requires t in th.waitingIn && th.waitingIn[t] in th.rooms
  {
    var w := th.waitingIn[t];
    th.(rooms := th.rooms[w := Delete(th.rooms[w], t)], waitingIn := th.waitingIn - {t})
  }

  lemma LeavesRoom(th: Threads, t: Thread)
    requires QueuesSound(th) && t in th.waitingIn && th.waitingIn[t] in th.rooms
    ensures QueuesSound(Left(th, t)) && Nowhere(AllQueues(th.ready, Left(th, t).rooms), t)
  {
    DeleteFacts(th.rooms[th.waitingIn[t]], t);
  }

  lemma LosesHead(th: Threads, r: Room)
    requires QueuesSound(th) && r in th.rooms && th.rooms[r] != []
    ensures var t := th.rooms[r][0];
            var out := th.(rooms := th.rooms[r := th.rooms[r][1..]]);
            QueuesSound(out) && t in th.live && t in th.waitingIn && th.waitingIn[t] == r && t !in out.rooms[r]
  {
    var t := th.rooms[r][0];
    assert th.rooms[r] == [t] + th.rooms[r][1..];
    assert t in th.rooms[r];
  }

  /** A thread that may wait in `r` is in no queue. */
  lemma JoinsRoom(th: Threads, t: Thread, r: Room)
    requires r in th.rooms && QueuesSound(Wait(th, t, r))
    ensures QueuesSound(th) && t in th.live && Nowhere(AllQueues(th.ready, th.rooms), t)
  {
    var w := Wait(th, t, r);
    assert w.rooms[r][|th.rooms[r]|] == t && t in w.rooms[r];
    assert forall i :: 0 <= i < |th.rooms[r]| ==> w.rooms[r][i] == th.rooms[r][i];
    forall q: Room, u | q in th.rooms && u in th.rooms[q]
      ensures u != t && u in th.live && u in th.waitingIn && th.waitingIn[u] == q
    {
      if q == r {
        var i :| 0 <= i < |th.rooms[r]| && th.rooms[r][i] == u;
        assert w.rooms[r][i] == u;
      }
      InRoom(w, q, u);
    }
    InRoom(w, r, t);
    assert Distinct(w.rooms[r]);
    forall q: Room | q in th.rooms ensures Distinct(th.rooms[q]) {
      assert Distinct(w.rooms[q]);
    }
    assert forall u :: u in th.ready ==> u in w.live && u !in w.waitingIn;
  }

  lemma RunnerNowhere(s: State, c: Cpu)
    requires Inv(s) && Runs(s.th, c)
    ensures s.th.life[c].value in s.th.live && Nowhere(AllQueues(s.th.ready, s.th.rooms), s.th.life[c].value)
  {
    RunnerFree(s, c);
  }

  lemma NotLiveNowhere(th: Threads, t: Thread)
    requires QueuesSound(th) && t !in th.live
    ensures Nowhere(AllQueues(th.ready, th.rooms), t)
  {
  }

  function Granted(lk: Locks, r: Room): Locks
    requires r in lk.sem
  {
    lk.(sem := lk.sem[r := Grant(lk.sem[r])])
  }

  /** The linked queues hold `ready` and `rooms`, and every live thread has its link. */
  ghost predicate Linked(queues: Lists, ready: seq<Thread>, rooms: map<Room, seq<Thread>>, live: set<Thread>)
    reads queues, queues.repr
  {
    queues.Holds(AllQueues(ready, rooms)) && forall t :: t in live ==> t in queues.element
  }

  /** The linked lists of held mutexes hold `held`, and every live thread has its list. */
  ghost predicate Chained(lists: Lists, held: map<Thread, seq<Room>>, live: set<Thread>)
    reads lists, lists.repr
  {
    && lists.Holds(HeldLists(held, lists.queue.Keys))
    && (forall t :: t in live ==> t in lists.queue)
    && (forall t :: t in held && held[t] != [] ==> t in lists.queue)
  }

  /** Counters and owners are what the abstract state says they are. */
  ghost predicate Tallied(counter: map<Room, int>, owner: map<Room, Thread>, lk: Locks) {
    && (forall r :: r in counter <==> r in lk.sem)
    && (forall r :: r in counter ==> counter[r] == lk.sem[r].count)
    && (forall m :: m in owner <==> m in lk.mutex && lk.mutex[m].Owned?)
    && (forall m :: m in owner ==> owner[m] == lk.mutex[m].owner)
  }

  method NewCpus(idle: seq<Thread>) returns (life: array<Option<Thread>>, idleThread: array<Thread>)
    requires |idle| == CPU_MAX
    ensures fresh(life) && fresh(idleThread) && life.Length == CPU_MAX && idleThread[..] == idle
    ensures forall c :: 0 <= c < CPU_MAX ==> life[c] == None
  {
    life := new Option<Thread>[CPU_MAX](_ => None);
    idleThread := new Thread[CPU_MAX](i requires 0 <= i < |idle| => idle[i]);
  }

  method NewLinks(keys: set<int>, mutexes: set<Room>) returns (queues: Lists, lists: Lists)
    ensures queues != lists && queues.repr !! lists.repr && lists !in queues.repr && queues !in lists.repr
    ensures fresh(queues) && fresh(queues.repr) && fresh(lists) && fresh(lists.repr)
    ensures queues !in queues.repr && lists !in lists.repr
    ensures queues.Holds(NoneIn(keys)) && lists.Holds(NoneIn({}))
    ensures lists.element.Keys == mutexes
  {
    queues := NewLists(keys, {});
    lists := NewLists({}, mutexes);
  }

  // ---- operations on the linked queues ----

  method EnqueueReady(queues: Lists, t: Thread, ghost th: Threads)
    requires Linked(queues, th.ready, th.rooms, th.live) && QueuesSound(th)
    requires t in th.live && Nowhere(AllQueues(th.ready, th.rooms), t)
    modifies queues.repr
    ensures Linked(queues, th.ready + [t], th.rooms, th.live)
  {
    QueuesApart(th);
    SetReady(th.ready, th.rooms, th.ready + [t]);
    queues.Enqueue(READY, t, AllQueues(th.ready, th.rooms));
  }

  method DequeueReady(queues: Lists, ghost th: Threads) returns (t: Thread)
    requires Linked(queues, th.ready, th.rooms, th.live) && QueuesSound(th) && th.ready != []
    modifies queues.repr
    ensures t == th.ready[0] && Linked(queues, th.ready[1..], th.rooms, th.live)
  {
    QueuesApart(th);
    SetReady(th.ready, th.rooms, th.ready[1..]);
    assert Drop(th.ready, 0) == th.ready[1..];
    var first := queues.Dequeue(READY, AllQueues(th.ready, th.rooms));
    t := first.value;
  }

  method RemoveFromReady(queues: Lists, t: Thread, ghost th: Threads) returns (removed: bool)
    requires Linked(queues, th.ready, th.rooms, th.live) && QueuesSound(th)
    modifies queues.repr
    ensures (removed <==> t in th.ready) && Linked(queues, Delete(th.ready, t), th.rooms, th.live)
  {
    QueuesApart(th);
    SetReady(th.ready, th.rooms, Delete(th.ready, t));
    removed := queues.Remove(READY, t, AllQueues(th.ready, th.rooms));
  }

  method EnqueueRoom(queues: Lists, r: Room, t: Thread, ghost th: Threads)
    requires Linked(queues, th.ready, th.rooms, th.live) && QueuesSound(th)
    requires r in th.rooms && t in th.live && Nowhere(AllQueues(th.ready, th.rooms), t)
    modifies queues.repr
    ensures Linked(queues, th.ready, th.rooms[r := th.rooms[r] + [t]], th.live)
  {
    QueuesApart(th);
    SetRoom(th.ready, th.rooms, r, th.rooms[r] + [t]);
    queues.Enqueue(r, t, AllQueues(th.ready, th.rooms));
  }

  method DequeueRoom(queues: Lists, r: Room, ghost th: Threads) returns (t: Option<Thread>)
    requires Linked(queues, th.ready, th.rooms, th.live) && QueuesSound(th) && r in th.rooms
    modifies queues.repr
    ensures t == if th.rooms[r] == [] then None else Some(th.rooms[r][0])
    ensures t.None? ==> Linked(queues, th.ready, th.rooms, th.live)
    ensures t.Some? ==> Linked(queues, th.ready, th.rooms[r := th.rooms[r][1..]], th.live)
  {
    QueuesApart(th);
    if th.rooms[r] != [] {
      SetRoom(th.ready, th.rooms, r, th.rooms[r][1..]);
      assert Drop(th.rooms[r], 0) == th.rooms[r][1..];
    }
    t := queues.Dequeue(r, AllQueues(th.ready, th.rooms));
  }

  method RemoveFromRoom(queues: Lists, r: Room, t: Thread, ghost th: Threads)
    requires Linked(queues, th.ready, th.rooms, th.live) && QueuesSound(th) && r in th.rooms
    modifies queues.repr
    ensures Linked(queues, th.ready, th.rooms[r := Delete(th.rooms[r], t)], th.live)
  {
    QueuesApart(th);
    SetRoom(th.ready, th.rooms, r, Delete(th.rooms[r], t));
    var removed := queues.Remove(r, t, AllQueues(th.ready, th.rooms));
  }

  // ---- operations on the linked lists of held mutexes ----

  method EnqueueMutex(lists: Lists, t: Thread, m: Room, ghost lk: Locks, ghost live: set<Thread>)
    requires Chained(lists, lk.held, live) && t in live && HeldApart(lk) && Unheld(lk, m) && m in lists.element
    modifies lists.repr
    ensures Chained(lists, lk.held[t := Held(lk, t) + [m]], live)
  {
    ListsApart(lk.held, lists.queue.Keys, lk);
    SetHeld(lk.held, lists.queue.Keys, t, Held(lk, t) + [m]);
    lists.Enqueue(t, m, HeldLists(lk.held, lists.queue.Keys));
  }

  /** The mutex leaves the list of its owner; if it was first, its link still leads on. */
  method RemoveMutex(lists: Lists, t: Thread, m: Room, ghost lk: Locks, ghost live: set<Thread>) returns (removed: bool)
    requires Chained(lists, lk.held, live) && HeldApart(lk) && t in lists.queue
    modifies lists.repr
    ensures Chained(lists, lk.held[t := Delete(Held(lk, t), m)], live) && (removed <==> m in Held(lk, t))
    ensures Held(lk, t) != [] && Held(lk, t)[0] == m ==> lists.Leads(m, Held(lk, t)[1..])
  {
    ListsApart(lk.held, lists.queue.Keys, lk);
    SetHeld(lk.held, lists.queue.Keys, t, Delete(Held(lk, t), m));
    removed := lists.Remove(t, m, HeldLists(lk.held, lists.queue.Keys));
  }

  method AddList(lists: Lists, t: Thread, ghost lk: Locks, ghost live: set<Thread>)
    requires Chained(lists, lk.held, live) && Held(lk, t) == []
    modifies lists
    ensures Chained(lists, lk.held, live + {t}) && t in lists.queue && old(lists.queue.Keys) <= lists.queue.Keys
    ensures lists.element == old(lists.element) && old(lists.repr) <= lists.repr && fresh(lists.repr - old(lists.repr))
  {
    SetHeld(lk.held, lists.queue.Keys, t, []);
    lists.AddQueue(t, HeldLists(lk.held, lists.queue.Keys));
  }

  method AddThread(queues: Lists, t: Thread, ghost th: Threads)
    requires Linked(queues, th.ready, th.rooms, th.live) && Nowhere(AllQueues(th.ready, th.rooms), t)
    modifies queues
    ensures Linked(queues, th.ready, th.rooms, th.live + {t})
    ensures old(queues.repr) <= queues.repr && fresh(queues.repr - old(queues.repr))
  {
    queues.AddElement(t, AllQueues(th.ready, th.rooms));
  }

  class Scheduler {
    /** The ready list and the waiting rooms, linked through the threads, and the lists of held mutexes,
        linked through the mutexes. */
    const queues: Lists
    const lists: Lists
    const life: array<Option<Thread>>
    const idleThread: array<Thread>

    /** The counters of the waiting rooms that are semaphores, the owners of those that are mutexes. */
    var counter: map<Room, int>
    var owner: map<Room, Thread>

    /** `Thread::waitingroom` and `Thread::killed`; and which threads are stopped inside `Mutex::lock`, as
        their saved registers say. */
    var waitingIn: map<Thread, Room>
    var killed: set<Thread>
    var inLock: map<Thread, Room>

    /** The abstract state. */
    ghost var th: Threads
    ghost var lk: Locks

    ghost function View(): State
      reads this
    {
      State(th, lk)
    }

    ghost predicate Shows()
      reads this, life, idleThread
    {
      && life.Length == CPU_MAX && life[..] == th.life
      && idleThread.Length == CPU_MAX && idleThread[..] == th.idle
      && waitingIn == th.waitingIn && killed == th.killed && inLock == lk.inLock
    }

    ghost predicate Separate()
      reads queues, lists
    {
      && {this, life, idleThread, queues, lists} !! queues.repr
      && {this, life, idleThread, queues, lists} !! lists.repr
      && queues.repr !! lists.repr && queues != lists
    }

    /** The fields, the linked queues and the linked lists are what the abstract state says. */
    ghost predicate Agrees()
      reads this, life, idleThread, queues, queues.repr, lists, lists.repr
    {
      && Shows()
      && Tallied(counter, owner, lk)
      && Separate()
      && Linked(queues, th.ready, th.rooms, th.live)
      && Chained(lists, lk.held, th.live)
      && (forall m :: m in lk.mutex ==> m in lists.element)
    }

    ghost predicate Valid()
      reads this, life, idleThread, queues, queues.repr, lists, lists.repr
    {
      Agrees() && Inv(View())
    }

    /** The static initialisation, given arrays and linked queues that are still empty. */
    constructor (life: array<Option<Thread>>, idleThread: array<Thread>, queues: Lists, lists: Lists,
                 semaphores: map<Room, int>, mutexes: set<Room>, bells: set<Room>)
      requires life.Length == CPU_MAX == idleThread.Length && Distinct(idleThread[..])
      requires forall c :: 0 <= c < CPU_MAX ==> life[c] == None
      requires queues.Holds(NoneIn({READY} + (semaphores.Keys + mutexes + bells)))
      requires lists.Holds(NoneIn({})) && lists.element.Keys == mutexes
      requires life !in queues.repr + lists.repr && idleThread !in queues.repr + lists.repr
      requires queues !in queues.repr + lists.repr && lists !in queues.repr + lists.repr
      requires queues.repr !! lists.repr && queues != lists
      ensures Valid() && View() == Boot(idleThread[..], semaphores, mutexes, bells)
      ensures this.queues == queues && this.lists == lists && this.life == life && this.idleThread == idleThread
    {
      this.life, this.idleThread, this.queues, this.lists := life, idleThread, queues, lists;
      waitingIn, killed, inLock, owner := map[], {}, map[], map[];
      counter := map r | r in semaphores.Keys + mutexes :: if r in mutexes then 1 else semaphores[r];
      th := Boot(idleThread[..], semaphores, mutexes, bells).th;
      lk := Boot(idleThread[..], semaphores, mutexes, bells).lk;
      new;
      hide Linked;
      hide Chained;
      hide Tallied;
      hide Inv;
      hide Boot;
      BootShows(idleThread[..], semaphores, mutexes, bells);
      assert life[..] == th.life;
      Starts(idleThread[..], semaphores, mutexes, bells);
      BootInv(idleThread[..], semaphores, mutexes, bells);
    }

    lemma Starts(idle: seq<Thread>, semaphores: map<Room, int>, mutexes: set<Room>, bells: set<Room>)
      requires View() == Boot(idle, semaphores, mutexes, bells) && Shows() && Separate() && owner == map[]
      requires counter == map r | r in semaphores.Keys + mutexes :: if r in mutexes then 1 else semaphores[r]
      requires queues.Holds(NoneIn({READY} + (semaphores.Keys + mutexes + bells)))
      requires lists.Holds(NoneIn({})) && lists.element.Keys == mutexes
      ensures Agrees()
    {
      hide Linked;
      hide Chained;
      hide Tallied;
      StartsCounted(idle, semaphores, mutexes, bells, counter);
      StartsLinked(queues, semaphores.Keys + mutexes + bells);
      StartsChained(lists);
    }

    // ---- the linked queues ----

    method PushReady(t: Thread)
      requires Agrees() && QueuesSound(th) && t in th.live && Nowhere(AllQueues(th.ready, th.rooms), t)
      modifies this`th, queues.repr
      ensures Agrees() && th == Requeue(old(th), t)
    {
      hide Linked;
      hide Chained;
      EnqueueReady(queues, t, th);
      th := Requeue(th, t);
    }

    method IsEmpty() returns (empty: bool)
      requires Agrees()
      ensures empty <==> th.ready == []
    {
      var first := queues.First(READY, AllQueues(th.ready, th.rooms));
      empty := first.None?;
    }

    method PopReady() returns (t: Thread)
      requires Agrees() && QueuesSound(th) && th.ready != []
      modifies this`th, queues.repr
      ensures Agrees() && t == old(th).ready[0] && th == old(th).(ready := old(th).ready[1..])
    {
      hide Linked;
      hide Chained;
      t := DequeueReady(queues, th);
      th := th.(ready := th.ready[1..]);
    }

    method RemoveReady(t: Thread) returns (removed: bool)
      requires Agrees() && QueuesSound(th)
      modifies this`th, queues.repr
      ensures Agrees() && (removed <==> t in old(th).ready) && th == old(th).(ready := Delete(old(th).ready, t))
    {
      hide Linked;
      hide Chained;
      removed := RemoveFromReady(queues, t, th);
      th := th.(ready := Delete(th.ready, t));
    }

    method PushRoom(r: Room, t: Thread)
      requires Agrees() && QueuesSound(th) && r in th.rooms && t in th.live && Nowhere(AllQueues(th.ready, th.rooms), t)
      modifies this`th, queues.repr
      ensures Agrees() && th == old(th).(rooms := old(th).rooms[r := old(th).rooms[r] + [t]])
    {
      hide Linked;
      hide Chained;
      EnqueueRoom(queues, r, t, th);
      th := th.(rooms := th.rooms[r := th.rooms[r] + [t]]);
    }

    method PopRoom(r: Room) returns (t: Option<Thread>)
      requires Agrees() && QueuesSound(th) && r in th.rooms
      modifies this`th, queues.repr
      ensures Agrees() && (t.None? <==> old(th).rooms[r] == []) && (t.None? ==> th == old(th))
      ensures t.Some? ==> t.value == old(th).rooms[r][0] && th == old(th).(rooms := old(th).rooms[r := old(th).rooms[r][1..]])
    {
      hide Linked;
      hide Chained;
      t := DequeueRoom(queues, r, th);
      if t.Some? { th := th.(rooms := th.rooms[r := th.rooms[r][1..]]); }
    }

    method RemoveRoom(r: Room, t: Thread)
      requires Agrees() && QueuesSound(th) && r in th.rooms
      modifies this`th, queues.repr
      ensures Agrees() && th == old(th).(rooms := old(th).rooms[r := Delete(old(th).rooms[r], t)])
    {
      hide Linked;
      hide Chained;
      RemoveFromRoom(queues, r, t, th);
      th := th.(rooms := th.rooms[r := Delete(th.rooms[r], t)]);
    }

    method FirstMutex(t: Thread) returns (first: Option<Room>)
      requires Agrees() && t in lists.queue
      ensures first == if Held(lk, t) == [] then None else Some(Held(lk, t)[0])
    {
      first := lists.First(t, HeldLists(lk.held, lists.queue.Keys));
    }

    // ---- dispatcher ----

    /** The next thread leaves the ready list, or is the idle thread, and becomes the active one. */
    method TakeNext(c: Cpu) returns (next: Thread)
      requires Agrees() && QueuesSound(th)
      modifies this`th, life, queues.repr
      ensures Agrees() && next == NextThread(old(th), c) && th == Switch(old(th), c)
    {
      hide Linked;
      hide Chained;
      var empty := IsEmpty();
      if empty {
        next := idleThread[c];
      } else {
        next := PopReady();
      }
      life[c] := Some(next);
      th := Enter(th, c, next);
    }

    /** `Scheduler::dispatch_next`, up to where the next thread's saved control state takes it: out of
        the scheduler, or on inside `Mutex::lock`. */
    method DispatchNext(c: Cpu)
      requires Agrees() && QueuesSound(th)
      requires var n := NextThread(th, c); n in inLock ==> MayTake(View(), n, inLock[n])
      modifies this, life, queues.repr, lists.repr
      ensures Agrees() && View() == Dispatch(old(View()), c)
    {
      hide Linked;
      hide Chained;
      var next := TakeNext(c);
      if next in inLock {
        var m := inLock[next];
        Awake(next);
        MayStillTake(old(View()), View(), next, m);
        TakeOwnership(next, m);
      }
    }

    method Awake(t: Thread)
      requires Agrees()
      modifies this`inLock, this`lk
      ensures Agrees() && lk == old(lk).(inLock := old(lk).inLock - {t})
    {
      inLock := inLock - {t};
      lk := lk.(inLock := lk.inLock - {t});
    }

    /** The second half of `Mutex::lock`. */
    method TakeOwnership(t: Thread, m: Room)
      requires Agrees() && MayTake(View(), t, m)
      modifies this`owner, this`lk, lists.repr
      ensures Agrees()
      ensures lk == old(lk).(mutex := old(lk).mutex[m := Owned(t)], held := old(lk).held[t := Held(old(lk), t) + [m]])
    {
      hide Linked;
      hide Chained;
      EnqueueMutex(lists, t, m, lk, th.live);
      owner := owner[m := t];
      lk := lk.(mutex := lk.mutex[m := Owned(t)], held := lk.held[t := Held(lk, t) + [m]]);
    }

    method Schedule(c: Cpu)
      requires Valid() && life[c] == None
      modifies this, life, queues.repr, lists.repr
      ensures Valid() && View() == Dispatch(old(View()), c)
    {
      hide Linked;
      hide Chained;
      IdleSwitches(View(), c);
      DispatchKeeps(View(), c);
      ArrivalTakes(View(), c);
      DispatchNext(c);
    }

    // ---- waiting and waking ----

    /** `Scheduler::wakeup`.  The customer may have been taken out of its room already. */
    method Wakeup(t: Thread)
      requires Agrees() && QueuesSound(th) && t in th.live && t in waitingIn && waitingIn[t] in th.rooms
      modifies this`th, this`waitingIn, queues.repr
      ensures Agrees()
      ensures th == Requeue(Left(old(th), t), t)
    {
      hide Linked;
      hide Chained;
      LeavesRoom(th, t);
      RemoveRoom(waitingIn[t], t);
      waitingIn := waitingIn - {t};
      th := th.(waitingIn := waitingIn);
      PushReady(t);
    }

    /** Taking the head of a room's queue and waking it, as `v` and `ring` do. */
    method WakeFirst(r: Room) returns (woken: Option<Thread>)
      requires Agrees() && QueuesSound(th) && r in th.rooms
      modifies this`th, this`waitingIn, queues.repr
      ensures Agrees() && (woken.None? <==> old(th).rooms[r] == [])
      ensures woken.None? ==> th == old(th)
      ensures woken.Some? ==> woken.value == old(th).rooms[r][0] && th == Wake(old(th), r)
    {
      if th.rooms[r] != [] { LosesHead(th, r); }
      woken := PopRoom(r);
      if woken.Some? { Wakeup(woken.value); }
    }

    method EnterRoom(t: Thread, r: Room)
      requires Agrees() && r in th.rooms && QueuesSound(Wait(th, t, r))
      modifies this`th, this`waitingIn, queues.repr
      ensures Agrees() && th == Wait(old(th), t, r)
    {
      hide Linked;
      hide Chained;
      JoinsRoom(th, t, r);
      PushRoom(r, t);
      waitingIn := waitingIn[t := r];
      th := th.(waitingIn := waitingIn);
    }

    method Block(c: Cpu, r: Room)
      requires Agrees() && life[c].Some? && r in th.rooms
      requires Placed(Wait(th, life[c].value, r), c) && Locked(State(Wait(th, life[c].value, r), lk), NONE, NONE)
      modifies this, life, queues.repr, lists.repr
      ensures Agrees() && View() == SchedulerRuns.Block(old(View()), c, r)
    {
      EnterRoom(life[c].value, r);
      ArrivalTakes(View(), c);
      DispatchNext(c);
    }

    /** `Bell::ring`: the queue is emptied from the front. */
    method Ring(b: Room)
      requires Valid() && b in th.rooms && b !in lk.sem
      modifies this`th, this`waitingIn, queues.repr
      ensures Valid() && th == WakeAll(old(th), b)
    {
      WakeAllKeeps(View(), b);
      var more := true;
      while more
        invariant Agrees() && b in th.rooms && Placed(th, NONE) && WakeAll(th, b) == WakeAll(old(th), b)
        invariant !more ==> th.rooms[b] == []
        decreases |th.rooms[b]|, more
      {
        ghost var before := th;
        if th.rooms[b] != [] { WakePlaces(before, b, NONE); }
        var woken := WakeFirst(b);
        more := woken.Some?;
        assert WakeAll(before, b) == WakeAll(th, b);
      }
    }

    /** `Bell::sleep`, whose timer is the business of the bell list; a bell of its own for every call. */
    method Sleep(c: Cpu, ms: nat, bell: Room)
      requires Valid() && Runs(th, c) && bell in th.rooms && bell !in lk.sem && bell !in lk.mutex
      modifies this, life, queues.repr, lists.repr
      ensures Valid()
      ensures View() == if ms == 0 then old(View()) else SchedulerRuns.Block(old(View()), c, bell)
    {
      if ms == 0 { return; }
      BlockKeeps(View(), c, bell);
      WaitIn(c, bell);
    }

    // ---- semaphores and mutexes ----

    method V(r: Room)
      requires Agrees() && QueuesSound(th) && r in th.rooms && r in counter && r !in owner
      modifies this`th, this`lk, this`waitingIn, this`counter, queues.repr
      ensures Agrees() && View() == Post(old(View()), r)
    {
      var woken := WakeFirst(r);
      if woken.Some? {
        NotePassOn(r, woken.value);
      } else {
        CountUp(r);
      }
    }

    ghost method NotePassOn(r: Room, t: Thread)
      requires Agrees() && r in lk.sem && r !in owner
      modifies this`lk
      ensures Agrees() && lk == PassOn(old(lk), r, t)
    {
      lk := PassOn(lk, r, t);
    }

    method CountUp(r: Room)
      requires Agrees() && r in counter && r !in owner
      modifies this`counter, this`lk
      ensures Agrees() && lk == PutBack(old(lk), r)
    {
      counter := counter[r := counter[r] + 1];
      lk := PutBack(lk, r);
    }

    /** The part of `p` that does not block. */
    method TryP(r: Room) returns (granted: bool)
      requires Agrees() && r in counter
      modifies this`counter, this`lk
      ensures Agrees() && granted == (old(lk).sem[r].count > 0)
      ensures lk == if granted then Granted(old(lk), r) else old(lk)
    {
      granted := counter[r] > 0;
      if granted {
        counter := counter[r := counter[r] - 1];
        lk := Granted(lk, r);
      }
    }

    method P(c: Cpu, r: Room)
      requires Valid() && Runs(th, c) && r in lk.sem && r !in lk.mutex
      modifies this, life, queues.repr, lists.repr
      ensures Valid() && View() == DoP(old(View()), c, r)
    {
      PKeeps(View(), c, r);
      assert SemaphoreSound(View(), r);
      var granted := TryP(r);
      if !granted { WaitIn(c, r); }
    }

    /** Blocking on a bell, or on a semaphore that has nothing left. */
    method WaitIn(c: Cpu, r: Room)
      requires Agrees() && Inv(View()) && Runs(th, c) && r in th.rooms && r !in lk.mutex
      requires r in lk.sem ==> lk.sem[r].count <= 0
      modifies this, life, queues.repr, lists.repr
      ensures Agrees() && View() == SchedulerRuns.Block(old(View()), c, r)
    {
      WaitReady(View(), c, r);
      Block(c, r);
    }

    /** `Mutex::lock`; when it blocks, the rest of it happens in the `DispatchNext` that resumes it. */
    method Lock(c: Cpu, m: Room)
      requires Valid() && Runs(th, c) && m in lk.mutex
      modifies this, life, queues.repr, lists.repr
      ensures Valid() && View() == DoLock(old(View()), c, m)
    {
      hide Linked;
      hide Chained;
      hide Inv;
      LockKeeps(View(), c, m);
      MutexFacts(View(), m);
      FreeTakes(View(), c, m);
      var granted := TryLock(life[c].value, m);
      if !granted { StopInLock(c, m); }
    }

    method TryLock(t: Thread, m: Room) returns (granted: bool)
      requires Agrees() && m in lk.sem && (lk.sem[m].count > 0 ==> MayTake(View(), t, m))
      modifies this`counter, this`owner, this`lk, lists.repr
      ensures Agrees() && granted == (old(lk).sem[m].count > 0)
      ensures lk == if granted then Acquire(old(lk), t, m) else old(lk)
    {
      hide Linked;
      hide Chained;
      granted := TryP(m);
      if granted {
        MayStillTake(old(View()), View(), t, m);
        TakeOwnership(t, m);
      }
    }

    method StopInLock(c: Cpu, m: Room)
      requires Agrees() && Inv(View()) && Runs(th, c)
      requires m in th.rooms && m in lk.mutex && m in lk.sem && lk.sem[m].count == 0
      modifies this, life, queues.repr, lists.repr
      ensures Agrees() && View() == Dispatch(Stop(old(View()), old(life[c].value), m), c)
    {
      StopReady(View(), c, m);
      NoteStop(life[c].value, m);
      Block(c, m);
    }

    method NoteStop(t: Thread, m: Room)
      requires Agrees()
      modifies this`inLock, this`lk
      ensures Agrees() && lk == old(lk).(inLock := old(lk).inLock[t := m])
    {
      inLock := inLock[t := m];
      lk := lk.(inLock := lk.inLock[t := m]);
    }

    /** `Mutex::unlock`. */
    method Unlock(m: Room) returns (released: bool)
      requires Agrees() && QueuesSound(th) && HeldApart(lk)
      requires m in th.rooms && m in counter && m in owner && owner[m] in lists.queue
      modifies this, queues.repr, lists.repr
      ensures Agrees() && View() == Release(old(View()), m)
      ensures released == (m in Held(old(lk), old(owner)[m]))
      ensures var h := Held(old(lk), old(owner)[m]); h != [] && h[0] == m ==> lists.Leads(m, h[1..])
    {
      hide Linked;
      hide Chained;
      released := GiveBack(m);
      V(m);
    }

    method GiveBack(m: Room) returns (released: bool)
      requires Agrees() && HeldApart(lk) && m in owner && owner[m] in lists.queue
      modifies this`owner, this`lk, lists.repr
      ensures Agrees() && m !in owner && lk == TakeBack(old(lk), m)
      ensures released == (m in Held(old(lk), old(owner)[m]))
      ensures var h := Held(old(lk), old(owner)[m]); h != [] && h[0] == m ==> lists.Leads(m, h[1..])
    {
      hide Linked;
      hide Chained;
      released := RemoveMutex(lists, owner[m], m, lk, th.live);
      owner := owner - {m};
      lk := TakeBack(lk, m);
    }

    // ---- the end of a thread ----

    /** `Thread::mutex_release_all`.  Every `unlock` takes the mutex at hand out of the list that is being
        walked; the walk goes on through its link, and every mutex is unlocked once. */
    method MutexReleaseAll(t: Thread, ghost x: int) returns (all: bool)
      requires Agrees() && Placed(th, x) && Locked(View(), t, NONE) && t in lists.queue
      modifies this, queues.repr, lists.repr
      ensures Agrees() && Releasable(old(View()), t) && View() == ReleaseAll(old(View()), t)
      ensures all && Held(lk, t) == []
    {
      hide Linked;
      hide Chained;
      hide Releasing;
      hide Placed;
      hide Locked;
      ghost var s := View();
      ReleasingStart(s, t, x);
      all := true;
      ghost var rest := Held(lk, t);
      var current := FirstMutex(t);
      while current.Some?
        invariant all && Agrees() && Releasing(s, View(), t, x, rest) && t in lists.queue
        invariant current == if rest == [] then None else Some(rest[0])
        decreases |rest|
      {
        var released;
        released, current := UnlockNext(current.value, s, t, x, rest);
        all := all && released;
        rest := rest[1..];
      }
      ReleasingEnd(s, View(), t, x);
    }

    method UnlockNext(m: Room, ghost s: State, ghost t: Thread, ghost x: int, ghost rest: seq<Room>)
      returns (released: bool, next: Option<Room>)
      requires Agrees() && rest != [] && m == rest[0] && Releasing(s, View(), t, x, rest) && t in lists.queue
      modifies this, queues.repr, lists.repr
      ensures Agrees() && released && Releasing(s, View(), t, x, rest[1..])
      ensures next == if rest[1..] == [] then None else Some(rest[1..][0])
    {
      hide Linked;
      hide Chained;
      hide Releasing;
      ReleasingStep(s, View(), t, x, rest);
      released := Unlock(m);
      next := lists.Next(m, rest[1..]);
    }

    /** The destructor of thread `t`, already out of every queue. */
    method Destroy(t: Thread, ghost x: int)
      requires Agrees() && t in th.live
      requires Placed(Bury(th, t), x)
      requires Locked(State(Bury(th, t), Forsake(lk, t)), t, NONE)
      modifies this, queues.repr, lists.repr
      ensures Agrees()
      ensures Releasable(State(Bury(old(th), t), Forsake(old(lk), t)), t)
      ensures View() == Die(old(View()), Bury(old(th), t), t)
    {
      NoteDeath(t);
      var all := MutexReleaseAll(t, x);
    }

    ghost method NoteDeath(t: Thread)
      requires Agrees()
      modifies this`th, this`lk
      ensures Agrees() && th == Bury(old(th), t) && lk == Forsake(old(lk), t)
    {
      th := Bury(th, t);
      lk := Forsake(lk, t);
    }

    /** `Scheduler::exit`: the running thread ends itself. */
    method Exit(c: Cpu)
      requires Valid() && Runs(th, c)
      modifies this, life, queues.repr, lists.repr
      ensures Valid() && View() == DoExit(old(View()), c)
    {
      ActiveLeaves(View(), c);
      Destroy(life[c].value, c);
      ArrivalTakes(View(), c);
      DispatchNext(c);
    }

    /** `Scheduler::kill`, called on CPU `c`; the interrupt sent to another CPU is not modelled. */
    method Kill(c: Cpu, that: Thread)
      requires Valid() && life[c].Some? && that !in th.dead && that !in th.idle
      modifies this, life, queues.repr, lists.repr
      ensures Valid() && View() == DoKill(old(View()), c, that)
    {
      KillKeeps(View(), c, that);
      var queued := KillQueued(that);
      if !queued {
        if that in waitingIn {
          KillWaiting(that);
        } else {
          KillRunning(c, that);
        }
      }
    }

    method KillQueued(that: Thread) returns (queued: bool)
      requires Agrees() && Inv(View())
      modifies this, queues.repr, lists.repr
      ensures Agrees() && (queued <==> that in old(th).ready)
      ensures !queued ==> View() == old(View())
      ensures queued ==> && Releasable(State(DropReady(old(th), that), Forsake(old(lk), that)), that)
                         && View() == Die(old(View()), DropReady(old(th), that), that)
    {
      if that in th.ready { QueuedLeaves(View(), that); }
      queued := RemoveReady(that);
      if queued { Destroy(that, NONE); }
    }

    method KillWaiting(that: Thread)
      requires Agrees() && Inv(View()) && that in th.live && that in waitingIn
      modifies this, queues.repr, lists.repr
      ensures Agrees() && Releasable(State(DropWaiting(old(th), that), Forsake(old(lk), that)), that)
      ensures View() == Die(old(View()), DropWaiting(old(th), that), that)
    {
      WaiterLeaves(View(), that);
      RemoveRoom(waitingIn[that], that);
      Destroy(that, NONE);
    }

    method KillRunning(c: Cpu, that: Thread)
      requires Valid() && that !in th.idle
      modifies this, life, queues.repr, lists.repr
      ensures Agrees() && Inv(Flag(old(View()), that))
      ensures View() == if old(life[c]) == Some(that) then DoExit(Flag(old(View()), that), c) else Flag(old(View()), that)
    {
      FlagKeeps(View(), that);
      SetKillFlag(that);
      var dest := FindCpu(that);
      if dest == NO_CPU { return; }
      if dest == c { Exit(c); }
    }

    method SetKillFlag(that: Thread)
      requires Agrees()
      modifies this`killed, this`th
      ensures Agrees() && th == Flag(old(View()), that).th
    {
      killed := killed + {that};
      th := th.(killed := killed);
    }

    /** The CPU that runs `that`, found by going through `life`. */
    method FindCpu(that: Thread) returns (dest: int)
      requires Valid() && that !in th.idle
      ensures dest == NO_CPU || 0 <= dest < CPU_MAX
      ensures forall c :: 0 <= c < CPU_MAX ==> (life[c] == Some(that) <==> dest == c)
    {
      dest := NO_CPU;
      var i := 0;
      while i < life.Length && dest == NO_CPU
        invariant 0 <= i <= life.Length
        invariant dest == NO_CPU ==> forall c :: 0 <= c < i ==> life[c] != Some(that)
        invariant dest != NO_CPU ==> 0 <= dest < life.Length && life[dest] == Some(that)
      {
        if life[i] == Some(that) { dest := i; }
        i := i + 1;
      }
      RunsOnce(View(), that);
    }

    /** `Scheduler::resume`. */
    method Resume(c: Cpu)
      requires Valid() && life[c].Some?
      modifies this, life, queues.repr, lists.repr
      ensures Valid() && View() == DoResume(old(View()), c)
    {
      ResumeKeeps(View(), c);
      var prev := life[c].value;
      if prev in killed {
        Exit(c);
      } else {
        RequeueAndSwitch(c);
      }
    }

    method RequeueAndSwitch(c: Cpu)
      requires Valid() && life[c].Some?
      modifies this, life, queues.repr, lists.repr
      ensures Agrees()
      ensures var t := old(life[c]).value;
        View() == Dispatch(if t in old(th).idle then old(View()) else State(Requeue(old(th), t), old(lk)), c)
    {
      var prev := life[c].value;
      if prev != idleThread[c] {
        ActiveIsNotIdle(View(), c);
        RequeueReady(View(), c);
        RunnerNowhere(View(), c);
        PushReady(prev);
      } else {
        IdleSwitches(View(), c);
      }
      ArrivalTakes(View(), c);
      DispatchNext(c);
    }

    /** `Assassin::epilogue`. */
    method Assassinate(c: Cpu)
      requires Valid() && life[c].Some?
      modifies this, life, queues.repr, lists.repr
      ensures Valid() && View() == Apply(old(View()), Call.Assassin(c))
    {
      hide Linked;
      hide Chained;
      if life[c].value in killed { Exit(c); }
    }

    /** `Scheduler::ready`.  The thread's object, with its link and its list, is as old as the call. */
    method Announce(that: Thread)
      requires Valid() && that !in th.live && that !in th.dead && that !in th.idle
      modifies this`th, queues, queues.repr, lists
      ensures Valid() && View() == DoReady(old(View()), that)
      ensures fresh(queues.repr - old(queues.repr)) && fresh(lists.repr - old(lists.repr))
    {
      hide Linked;
      hide Chained;
      ReadyKeeps(View(), that);
      NotLiveNowhere(th, that);
      HoldsNothing(View(), that);
      Admit(that);
      PushReady(that);
    }

    method Admit(that: Thread)
      requires Agrees() && Nowhere(AllQueues(th.ready, th.rooms), that) && Held(lk, that) == []
      modifies this`th, queues, lists
      ensures Agrees() && th == old(th).(live := old(th).live + {that})
      ensures fresh(queues.repr - old(queues.repr)) && fresh(lists.repr - old(lists.repr))
    {
      hide Linked;
      hide Chained;
      AddThread(queues, that, th);
      AddList(lists, that, lk, th.live);
      th := th.(live := th.live + {that});
    }
  }

  lemma RunsOnce(s: State, t: Thread)
    requires Inv(s) && t !in s.th.idle
    ensures forall c, d :: 0 <= c < CPU_MAX && 0 <= d < CPU_MAX && s.th.life[c] == Some(t) == s.th.life[d] ==> c == d
  {
  }

  /** The kernel as it is when the first thread may be announced. */
  method Start(idle: seq<Thread>, semaphores: map<Room, int>, mutexes: set<Room>, bells: set<Room>) returns (s: Scheduler)
    requires |idle| == CPU_MAX && Distinct(idle)
    ensures fresh(s) && s.Valid() && s.View() == Boot(idle, semaphores, mutexes, bells)
  {
    var life, idleThread := NewCpus(idle);
    var queues, lists := NewLinks({READY} + (semaphores.Keys + mutexes + bells), mutexes);
    s := new Scheduler(life, idleThread, queues, lists, semaphores, mutexes, bells);
  }

  lemma BootShows(idle: seq<Thread>, semaphores: map<Room, int>, mutexes: set<Room>, bells: set<Room>)
    ensures var b := Boot(idle, semaphores, mutexes, bells);
      && |b.th.life| == CPU_MAX && (forall c :: 0 <= c < CPU_MAX ==> b.th.life[c] == None)
      && b.th.idle == idle && b.th.waitingIn == map[] && b.th.killed == {} && b.lk.inLock == map[]
  {
  }

  lemma StartsCounted(idle: seq<Thread>, semaphores: map<Room, int>, mutexes: set<Room>, bells: set<Room>, counter: map<Room, int>)
    requires counter == map r | r in semaphores.Keys + mutexes :: if r in mutexes then 1 else semaphores[r]
    ensures Tallied(counter, map[], Boot(idle, semaphores, mutexes, bells).lk)
  {
  }

  lemma StartsLinked(queues: Lists, keys: set<Room>)
    requires queues.Holds(NoneIn({READY} + keys))
    ensures Linked(queues, [], map r | r in keys :: [], {})
  {
    assert AllQueues([], map r | r in keys :: []) == NoneIn({READY} + keys);
  }

  lemma StartsChained(lists: Lists)
    requires lists.Holds(NoneIn({}))
    ensures Chained(lists, map[], {})
  {
    assert HeldLists(map[], lists.queue.Keys) == NoneIn({});
  }

  lemma ActiveLeaves(s: State, c: Cpu)
    requires Inv(s) && Runs(s.th, c)
    ensures var t := s.th.life[c].value;
      && Placed(Bury(s.th, t), c)
      && Locked(State(Bury(s.th, t), Forsake(s.lk, t)), t, NONE)
      && Inv(DoExit(s, c))
      && Releasable(State(Bury(s.th, t), Forsake(s.lk, t)), t)
      && t in s.th.live
      && var d := Die(s, Bury(s.th, t), t);
         Placed(d.th, c) && Locked(d, NONE, NONE)
  {
    var t := s.th.life[c].value;
    RunnerFree(s, c);
    assert s.th.idle[c] in s.th.idle;
    DropActivePlaces(s.th, c);
    ForsakeLocks(s, Bury(s.th, t), t);
    ActiveDies(s, c);
    ExitKeeps(s, c);
  }

  lemma QueuedLeaves(s: State, t: Thread)
    requires Inv(s) && t in s.th.ready
    ensures Placed(DropReady(s.th, t), NONE)
    ensures Locked(State(DropReady(s.th, t), Forsake(s.lk, t)), t, NONE)
  {
    DeleteFacts(s.th.ready, t);
    DropReadyPlaces(s.th, t);
    ForsakeLocks(s, DropReady(s.th, t), t);
  }

  lemma WaiterLeaves(s: State, t: Thread)
    requires Inv(s) && t in s.th.live && t in s.th.waitingIn
    ensures Placed(DropWaiting(s.th, t), NONE)
    ensures Locked(State(DropWaiting(s.th, t), Forsake(s.lk, t)), t, NONE)
  {
    DeleteFacts(s.th.rooms[s.th.waitingIn[t]], t);
    DropWaitingPlaces(s.th, t);
    ForsakeLocks(s, DropWaiting(s.th, t), t);
  }

  lemma ActiveIsNotIdle(s: State, c: Cpu)
    requires Inv(s) && s.th.life[c].Some? && s.th.life[c].value != s.th.idle[c]
    ensures Runs(s.th, c)
  {
    assert RunsSoundly(s.th, c, s.th.life[c].value);
  }

  /** Half-way through releasing what `t` held in `s0`: `rest` is still to go. */
  ghost predicate Releasing(s0: State, s: State, t: Thread, x: int, rest: seq<Room>) {
    && Placed(s.th, x)
    && Locked(s, t, NONE)
    && Held(s.lk, t) == rest
    && Releasable(s0, t)
    && Releasable(s, t)
    && ReleaseAll(s, t) == ReleaseAll(s0, t)
  }

  lemma ReleasingStart(s: State, t: Thread, x: int)
    requires Placed(s.th, x) && Locked(s, t, NONE)
    ensures Releasing(s, s, t, x, Held(s.lk, t))
  {
    LockedReleasable(s, t, t);
  }

  lemma ReleasingEnd(s0: State, s: State, t: Thread, x: int)
    requires Releasing(s0, s, t, x, [])
    ensures Held(s.lk, t) == [] && Releasable(s0, t) && s == ReleaseAll(s0, t)
  {
  }

  lemma ReleasingStep(s0: State, s: State, t: Thread, x: int, rest: seq<Room>)
    requires Releasing(s0, s, t, x, rest) && rest != []
    ensures QueuesSound(s.th) && HeldApart(s.lk) && Held(s.lk, t) == rest
    ensures var m := rest[0];
      && m in s.lk.mutex && s.lk.mutex[m] == Owned(t) && m in s.lk.sem && m in s.th.rooms && m in Held(s.lk, t)
      && Releasing(s0, Release(s, m), t, x, rest[1..])
  {
    var m := rest[0];
    OwnersApart(s, t);
    assert HolderSound(s, t, m, t);
    ReleaseKeeps(s, m, x, t);
    ReleaseKeepsRest(s, t);
  }

  lemma MutexFacts(s: State, m: Room)
    requires Inv(s) && m in s.lk.mutex
    ensures m in s.lk.sem && m in s.th.rooms && s.lk.sem[m].count >= 0
  {
    assert UnitSound(s.lk, m, NONE) && SemaphoreSound(s, m);
  }
}
