/** The prologue/epilogue guard of guard/guard.cc over the ticket lock of machine/ticketlock.h, for up
    to eight CPUs, with threads that are switched and migrate inside the critical section
    (thread/dispatcher.cc).  Each step is one access to shared state or one interrupt-flag change. */
module Guard {
  import opened Common

  const CPU_MAX: nat := 8
  const TICKETS: nat := 256

  type Gate = nat
  type Thread = nat

  /** What a control flow does once it owns the lock: the body after enter, or relay's own epilogue. */
  datatype Goal = Body | Epilogue(gate: Gate)

  /** Where the epilogue-level control flow of a CPU is. */
  datatype Pc =
    | User                               // not in enter, leave or an epilogue
    | EnterOff                           // enter: interrupts off
    | Flagged(goal: Goal)                // enter, relay: in_epilogue set, interrupts still off
    | Wanting(goal: Goal)                // interrupts on, about to draw a ticket
    | Spinning(goal: Goal, ticket: nat)  // waiting for the lock
    | Inside                             // in the critical section or an epilogue
    | Draining                           // leave: interrupts off, about to dequeue
    | Dequeued(gate: Gate)               // a gate was dequeued, its flag is still set
    | Cleared(gate: Gate)                // its flag is cleared
    | Starting(gate: Gate)               // interrupts on, about to run its epilogue
    | Unlocking                          // the queue was found empty
    | UnlockLoaded(value: nat)           // l was read, about to be written back plus one
    | Unlocked                           // lock released, in_epilogue still set
    | FlagDown                           // in_epilogue cleared, interrupts still off

  /** Where the interrupt handler of a CPU is, if one runs. */
  datatype Irq =
    | NoIrq
    | Arrived(gate: Gate)                // relay called, interrupts off
    | Direct(gate: Gate)                 // in_epilogue was clear
    | Testing(gate: Gate)                // in_epilogue was set, about to test-and-set the gate's flag
    | Enqueuing(gate: Gate)              // the flag was clear
    | Returning

  datatype Cpu = Cpu(ints: bool, pc: Pc, irq: Irq, inEpilogue: bool, queue: seq<Gate>, thread: Thread, slot: nat)

  /** Where a gate with its flag set is. */
  datatype Place = InQueue(cpu: nat) | AtEnqueue(cpu: nat) | AtDequeue(cpu: nat)

  /** The fields below `owes` are history: who drew tickets and entered in which order, how many
      unlocks happened, where flagged gates are, and which gates were relayed after their last start. */
  datatype State = State(
    cpus: seq<Cpu>, flagged: set<Gate>, l: nat, t: nat, parked: set<Thread>, owes: map<Thread, int>,
    drawn: seq<nat>, entered: seq<nat>, released: nat, place: map<Gate, Place>, owed: set<Gate>)

  datatype Event =
    | Enter(cpu: nat)                      // a thread calls Guard::enter
    | Interrupt(cpu: nat, gate: Gate)      // an interrupt whose prologue requests its epilogue
    | Tick(cpu: nat)                       // the CPU executes its next step
    | Leave(cpu: nat)                      // the control flow inside calls Guard::leave
    | Switch(cpu: nat, next: Thread)       // Dispatcher::dispatch: the running thread is parked
    | Retire(cpu: nat, next: Thread)       // Dispatcher::go, Scheduler::exit: it is gone
    | Spawn(thread: Thread)                // a thread object is created
    | Destroy(thread: Thread)              // Scheduler::kill of a thread on no CPU

  predicate Owns(pc: Pc) {
    pc.Inside? || pc.Draining? || pc.Dequeued? || pc.Cleared? || pc.Starting? || pc.Unlocking? || pc.UnlockLoaded?
  }

  predicate HasTicket(pc: Pc) { pc.Spinning? || Owns(pc) }

  predicate Interruptible(pc: Pc) {
    pc.User? || pc.Wanting? || pc.Spinning? || pc.Inside? || pc.Starting?
  }

  predicate Level(pc: Pc) { !pc.User? && !pc.EnterOff? && !pc.FlagDown? }

  /** After leave has found the queue empty, and outside the epilogue level. */
  predicate Drained(pc: Pc) {
    pc.User? || pc.EnterOff? || pc.FlagDown? || pc.Unlocking? || pc.UnlockLoaded? || pc.Unlocked?
  }

  function Set(s: State, c: nat, cpu: Cpu): State
    requires c < |s.cpus|
  {
    s.(cpus := s.cpus[c := cpu])
  }

  // ---------------------------------------------------------------- the steps

  predicate Enabled(s: State, e: Event) {
    match e
    case Enter(c) => c < |s.cpus| && s.cpus[c].irq.NoIrq? && s.cpus[c].pc.User?
    case Interrupt(c, g) => c < |s.cpus| && s.cpus[c].ints
    case Tick(c) => c < |s.cpus| && (s.cpus[c].irq.NoIrq? ==> !s.cpus[c].pc.User? && !s.cpus[c].pc.Inside?)
    case Leave(c) => c < |s.cpus| && s.cpus[c].irq.NoIrq? && s.cpus[c].pc.Inside?
    case Switch(c, next) => c < |s.cpus| && s.cpus[c].irq.NoIrq? && s.cpus[c].pc.Inside? && next in s.parked
    case Retire(c, next) => c < |s.cpus| && s.cpus[c].irq.NoIrq? && s.cpus[c].pc.Inside? && next in s.parked
    case Spawn(t) => t !in s.owes
    case Destroy(t) => t in s.parked
  }

  function Next(s: State, e: Event): State
    requires Enabled(s, e)
  {
    match e
    case Enter(c) => Set(s, c, s.cpus[c].(ints := false, pc := EnterOff))
    case Interrupt(c, g) => Set(s, c, s.cpus[c].(ints := false, irq := Arrived(g)))
    case Tick(c) => if s.cpus[c].irq.NoIrq? then Advance(s, c) else Handle(s, c)
    case Leave(c) => Set(s, c, s.cpus[c].(ints := false, pc := Draining))
    case Switch(c, next) =>
      Set(s, c, s.cpus[c].(thread := next)).(parked := s.parked - {next} + {s.cpus[c].thread})
    case Retire(c, next) =>
      Set(s, c, s.cpus[c].(thread := next)).(parked := s.parked - {next}, owes := s.owes - {s.cpus[c].thread})
    case Spawn(t) => s.(parked := s.parked + {t}, owes := s.owes[t := 1])
    case Destroy(t) => s.(parked := s.parked - {t}, owes := s.owes - {t})
  }

  /** The next step of an interrupt handler in Guard::relay: what changes on the CPU itself ... */
  function HandleCpu(s: State, c: nat): Cpu
    requires c < |s.cpus|
  {
    var cpu := s.cpus[c];
    match cpu.irq
    case NoIrq => cpu
    case Arrived(g) => cpu.(irq := if cpu.inEpilogue then Testing(g) else Direct(g))
    case Direct(g) => cpu.(irq := NoIrq, inEpilogue := true, pc := Flagged(Epilogue(g)))
    case Testing(g) => cpu.(irq := if g in s.flagged then Returning else Enqueuing(g))
    case Enqueuing(g) => cpu.(irq := Returning, queue := cpu.queue + [g])
    case Returning => cpu.(irq := NoIrq, ints := true)
  }

  /** ... and what changes in shared state; set_queued is a test-and-set returning the old flag. */
  function HandleShared(s: State, c: nat): State
    requires c < |s.cpus|
  {
    match s.cpus[c].irq
    case Direct(g) => s.(owed := s.owed + {g})
    case Testing(g) =>
      if g in s.flagged then s.(owed := s.owed + {g})
      else s.(owed := s.owed + {g}, flagged := s.flagged + {g}, place := s.place[g := AtEnqueue(c)])
    case Enqueuing(g) => s.(place := s.place[g := InQueue(c)])
    case _ => s
  }

  function Handle(s: State, c: nat): State
    requires c < |s.cpus|
  {
    Set(HandleShared(s, c), c, HandleCpu(s, c))
  }

  /** The next step of Guard::enter, Guard::leave, and of relay at epilogue level: on the CPU itself ... */
  function AdvanceCpu(s: State, c: nat): Cpu
    requires c < |s.cpus|
  {
    var cpu := s.cpus[c];
    match cpu.pc
    case User | Inside => cpu
    case EnterOff => cpu.(inEpilogue := true, pc := Flagged(Body))
    case Flagged(goal) => cpu.(ints := true, pc := Wanting(goal))
    case Wanting(goal) => cpu.(pc := Spinning(goal, s.t), slot := |s.drawn|)
    case Spinning(_, ticket) => if s.l == ticket then cpu.(pc := Inside) else cpu
    case Draining =>
      if cpu.queue == [] then cpu.(pc := Unlocking)
      else cpu.(pc := Dequeued(cpu.queue[0]), queue := cpu.queue[1..])
    case Dequeued(g) => cpu.(pc := Cleared(g))
    case Cleared(g) => cpu.(ints := true, pc := Starting(g))
    case Starting(_) => cpu.(pc := Inside)
    case Unlocking => cpu.(pc := UnlockLoaded(s.l))
    case UnlockLoaded(_) => cpu.(pc := Unlocked)
    case Unlocked => cpu.(inEpilogue := false, pc := FlagDown)
    case FlagDown => cpu.(ints := true, pc := User)
  }

  /** ... and in shared state.  Ticketlock::lock is a fetch-and-add on an 8-bit counter, unlock a load
      and a store. */
  function AdvanceShared(s: State, c: nat): State
    requires c < |s.cpus|
  {
    var cpu := s.cpus[c];
    match cpu.pc
    case Wanting(_) => s.(t := (s.t + 1) % TICKETS, drawn := s.drawn + [c])
    case Spinning(goal, ticket) =>
      if s.l != ticket then s
      else s.(entered := s.entered + [c],
              owes := s.owes[cpu.thread := Debt(s, cpu.thread) + 1],
              owed := if goal.Epilogue? then s.owed - {goal.gate} else s.owed)
    case Draining => if cpu.queue == [] then s else s.(place := s.place[cpu.queue[0] := AtDequeue(c)])
    case Dequeued(g) => s.(flagged := s.flagged - {g}, place := s.place - {g})
    case Starting(g) => s.(owed := s.owed - {g})
    case UnlockLoaded(v) =>
      s.(l := (v + 1) % TICKETS, released := s.released + 1,
         owes := s.owes[cpu.thread := Debt(s, cpu.thread) - 1])
    case _ => s
  }

  function Advance(s: State, c: nat): State
    requires c < |s.cpus|
  {
    Set(AdvanceShared(s, c), c, AdvanceCpu(s, c))
  }

  /** The number of unlocks a thread still has to do. */
  function Debt(s: State, t: Thread): int { if t in s.owes then s.owes[t] else 0 }

  /** All CPUs idle at user level, each with its boot control flow. */
  ghost predicate Init(s: State) {
    && 1 <= |s.cpus| <= CPU_MAX
    && (forall c :: 0 <= c < |s.cpus| ==>
          s.cpus[c] == Cpu(true, User, NoIrq, false, [], c, 0))
    && s.flagged == {} && s.l == 0 && s.t == 0 && s.parked == {}
    && (forall t :: t in s.owes <==> t < |s.cpus|) && (forall t :: t in s.owes ==> s.owes[t] == 0)
    && s.drawn == [] && s.entered == [] && s.released == 0 && s.place == map[] && s.owed == {}
  }

  // ---------------------------------------------------------------- the invariant

  /** Interrupt flag, in_epilogue and queue of one CPU agree with where it is. */
  ghost predicate ControlOk(cpu: Cpu) {
    && (cpu.ints <==> cpu.irq.NoIrq? && Interruptible(cpu.pc))
    && (!cpu.irq.NoIrq? ==> Interruptible(cpu.pc))
    && (cpu.inEpilogue <==> Level(cpu.pc))
    && (cpu.irq.Testing? || cpu.irq.Enqueuing? ==> cpu.inEpilogue)
    && (cpu.irq.Direct? ==> !cpu.inEpilogue)
    && (Drained(cpu.pc) ==> cpu.queue == [])
  }

  ghost predicate TicketAt(s: State, c: nat) {
    c < |s.cpus| ==>
      var cpu := s.cpus[c];
      && (HasTicket(cpu.pc) ==> s.released <= cpu.slot < |s.drawn| && s.drawn[cpu.slot] == c)
      && (cpu.pc.Spinning? ==> cpu.pc.ticket == cpu.slot % TICKETS && |s.entered| <= cpu.slot)
      && (Owns(cpu.pc) ==> cpu.slot == s.released && |s.entered| == s.released + 1)
      && (cpu.pc.UnlockLoaded? ==> cpu.pc.value == s.l)
  }

  ghost predicate DrawAt(s: State, i: nat) {
    s.released <= i < |s.drawn| ==>
      && s.drawn[i] < |s.cpus|
      && HasTicket(s.cpus[s.drawn[i]].pc) && s.cpus[s.drawn[i]].slot == i
      && (i < |s.entered| ==> Owns(s.cpus[s.drawn[i]].pc))
  }

  /** The lock: the draws not yet released are the tickets held, in order, and only the oldest may own
      the lock. */
  ghost predicate TicketsOk(s: State) {
    && s.l == s.released % TICKETS && s.t == |s.drawn| % TICKETS
    && s.released <= |s.entered| <= s.released + 1 && |s.entered| <= |s.drawn|
    && s.entered == s.drawn[..|s.entered|]
    && (forall c {:trigger TicketAt(s, c)} :: TicketAt(s, c))
    && (forall i {:trigger DrawAt(s, i)} :: DrawAt(s, i))
  }

  ghost predicate PlacedAt(s: State, c: nat, g: Gate) {
    c < |s.cpus| ==>
      && (g in s.cpus[c].queue <==> g in s.place && s.place[g] == InQueue(c))
      && (s.cpus[c].irq == Enqueuing(g) <==> g in s.place && s.place[g] == AtEnqueue(c))
      && (s.cpus[c].pc == Dequeued(g) <==> g in s.place && s.place[g] == AtDequeue(c))
  }

  /** A gate's flag is set exactly while the gate is in one queue, about to be enqueued by one CPU, or
      just dequeued by one CPU. */
  ghost predicate GatesOk(s: State) {
    && s.place.Keys == s.flagged
    && (forall g :: g in s.place ==> s.place[g].cpu < |s.cpus|)
    && (forall c, g {:trigger PlacedAt(s, c, g)} :: PlacedAt(s, c, g))
    && (forall c :: 0 <= c < |s.cpus| ==> Distinct(s.cpus[c].queue))
  }

  /** CPU `c` is on its way to run g's epilogue without the flag. */
  ghost predicate Committed(s: State, c: nat, g: Gate) {
    && c < |s.cpus|
    && (s.cpus[c].pc == Cleared(g) || s.cpus[c].pc == Starting(g)
        || s.cpus[c].pc == Flagged(Epilogue(g)) || s.cpus[c].pc == Wanting(Epilogue(g))
        || (s.cpus[c].pc.Spinning? && s.cpus[c].pc.goal == Epilogue(g)))
  }

  /** CPU `c` is at epilogue level and has the flagged gate in its queue or in its hands. */
  ghost predicate Carries(s: State, c: nat, g: Gate) {
    && c < |s.cpus| && s.cpus[c].inEpilogue
    && (g in s.cpus[c].queue || s.cpus[c].irq == Enqueuing(g) || s.cpus[c].pc == Dequeued(g))
  }

  ghost predicate Pending(s: State, g: Gate) {
    g in s.flagged || exists c :: Committed(s, c, g)
  }

  /** Every gate relayed since its epilogue last started is still on its way. */
  ghost predicate NothingLost(s: State) {
    forall g :: g in s.owed ==> Pending(s, g)
  }

  ghost predicate ThreadAt(s: State, c: nat) {
    c < |s.cpus| ==>
      && s.cpus[c].thread in s.owes && s.cpus[c].thread !in s.parked
      && s.owes[s.cpus[c].thread] == if Owns(s.cpus[c].pc) then 1 else 0
  }

  /** A thread on no CPU owes exactly one unlock; one on a CPU owes one exactly while its CPU owns the
      lock. */
  ghost predicate ThreadsOk(s: State) {
    && (forall t :: t in s.parked ==> t in s.owes && s.owes[t] == 1)
    && (forall c {:trigger ThreadAt(s, c)} :: ThreadAt(s, c))
    && (forall c, d :: 0 <= c < d < |s.cpus| ==> s.cpus[c].thread != s.cpus[d].thread)
    && (forall t :: t in s.owes ==> t in s.parked || exists c :: 0 <= c < |s.cpus| && s.cpus[c].thread == t)
  }

  ghost predicate Inv(s: State) {
    && 1 <= |s.cpus| <= CPU_MAX
    && (forall c :: 0 <= c < |s.cpus| ==> ControlOk(s.cpus[c]))
    && TicketsOk(s) && GatesOk(s) && NothingLost(s) && ThreadsOk(s)
  }

  // ---------------------------------------------------------------- preservation

  ghost predicate AllControl(s: State) {
    forall c :: 0 <= c < |s.cpus| ==> ControlOk(s.cpus[c])
  }

  lemma InitInv(s: State)
    requires Init(s)
    ensures Inv(s)
  {
    forall t | t in s.owes ensures exists c :: 0 <= c < |s.cpus| && s.cpus[c].thread == t {
      assert s.cpus[t].thread == t;
    }
    assert TicketsOk(s) && GatesOk(s) && ThreadsOk(s);
    forall c | 0 <= c < |s.cpus| ensures ControlOk(s.cpus[c]) { }
  }

  /** Only the CPU an event names changes. */
  function Mover(e: Event): nat {
    match e
    case Enter(c) => c
    case Interrupt(c, _) => c
    case Tick(c) => c
    case Leave(c) => c
    case Switch(c, _) => c
    case Retire(c, _) => c
    case Spawn(_) => 0
    case Destroy(_) => 0
  }

  lemma OneMoves(s: State, e: Event)
    requires Enabled(s, e)
    ensures |Next(s, e).cpus| == |s.cpus|
    ensures forall d :: 0 <= d < |s.cpus| && d != Mover(e) ==> Next(s, e).cpus[d] == s.cpus[d]
    ensures e.Spawn? || e.Destroy? ==> Next(s, e).cpus == s.cpus
    ensures !e.Spawn? && !e.Destroy? ==> Mover(e) < |s.cpus|
  {
  }

  lemma HandleControl(s: State, c: nat)
    requires c < |s.cpus| && !s.cpus[c].irq.NoIrq? && ControlOk(s.cpus[c])
    ensures |Handle(s, c).cpus| == |s.cpus| && ControlOk(Handle(s, c).cpus[c])
  {
  }

  lemma AdvanceControl(s: State, c: nat)
    requires c < |s.cpus| && s.cpus[c].irq.NoIrq? && ControlOk(s.cpus[c])
    ensures |Advance(s, c).cpus| == |s.cpus| && ControlOk(Advance(s, c).cpus[c])
  {
  }

  lemma ControlStep(s: State, e: Event)
    requires AllControl(s) && Enabled(s, e)
    ensures AllControl(Next(s, e))
  {
    OneMoves(s, e);
    match e
    case Tick(c) => if s.cpus[c].irq.NoIrq? { AdvanceControl(s, c); } else { HandleControl(s, c); }
    case Enter(c) => assert ControlOk(s.cpus[c]);
    case Interrupt(c, _) => assert ControlOk(s.cpus[c]);
    case Leave(c) => assert ControlOk(s.cpus[c]);
    case Switch(c, _) => assert ControlOk(s.cpus[c]);
    case Retire(c, _) => assert ControlOk(s.cpus[c]);
    case Spawn(_) =>
    case Destroy(_) =>
  }

  lemma {:induction false} CountDistinct(q: seq<nat>, n: nat)
    requires forall i :: 0 <= i < |q| ==> q[i] < n
    requires forall i, j :: 0 <= i < j < |q| ==> q[i] != q[j]
    ensures |q| <= n
    decreases n
  {
    if q != [] {
      var k := |q| - 1;
      var r := seq(k, i requires 0 <= i < k => if q[i] < q[k] then q[i] else q[i] - 1);
      CountDistinct(r, n - 1);
    }
  }

  /** No more tickets are out than there are CPUs, so the 8-bit counters never confuse two of them. */
  lemma TicketsOut(s: State)
    requires TicketsOk(s)
    ensures |s.drawn| - s.released <= |s.cpus|
  {
    var q := s.drawn[s.released..];
    forall i | 0 <= i < |q| ensures q[i] < |s.cpus| { assert DrawAt(s, s.released + i); }
    forall i, j | 0 <= i < j < |q| ensures q[i] != q[j] {
      assert DrawAt(s, s.released + i) && DrawAt(s, s.released + j);
    }
    CountDistinct(q, |s.cpus|);
  }

  // ---------------------------------------------------------------- the lock

  /** A step that neither draws nor acquires nor releases. */
  ghost predicate QuietStep(s: State, s': State, c: nat) {
    && c < |s.cpus| == |s'.cpus|
    && (forall d :: 0 <= d < |s.cpus| && d != c ==> s'.cpus[d] == s.cpus[d])
    && s'.l == s.l && s'.t == s.t && s'.drawn == s.drawn && s'.entered == s.entered && s'.released == s.released
    && var p, p' := s.cpus[c].pc, s'.cpus[c].pc;
       && s'.cpus[c].slot == s.cpus[c].slot
       && Owns(p') == Owns(p) && p'.Spinning? == p.Spinning?
       && (p'.Spinning? ==> p'.ticket == p.ticket)
       && (p'.UnlockLoaded? ==> p'.value == s.l)
  }

  lemma QuietTickets(s: State, s': State, c: nat)
    requires TicketsOk(s) && QuietStep(s, s', c)
    ensures TicketsOk(s')
  {
    forall d ensures TicketAt(s', d) { assert TicketAt(s, d); }
    forall i ensures DrawAt(s', i) { assert DrawAt(s, i); }
  }

  lemma WrapNext(a: nat)
    ensures (a % TICKETS + 1) % TICKETS == (a + 1) % TICKETS
  {
  }

  lemma DrawTickets(s: State, c: nat)
    requires TicketsOk(s) && c < |s.cpus| && s.cpus[c].pc.Wanting?
    ensures TicketsOk(Advance(s, c))
  {
    var s' := Advance(s, c);
    forall d ensures TicketAt(s', d) {
      assert TicketAt(s, d);
    }
    forall i ensures DrawAt(s', i) {
      assert DrawAt(s, i);
    }
    WrapNext(|s.drawn|);
  }

  /** Seeing one's ticket means being the oldest draw, and that nobody owns the lock. */
  lemma MyTurn(s: State, c: nat)
    requires TicketsOk(s) && |s.cpus| <= CPU_MAX
    requires c < |s.cpus| && s.cpus[c].pc.Spinning? && s.l == s.cpus[c].pc.ticket
    ensures s.cpus[c].slot == s.released == |s.entered| < |s.drawn| && s.drawn[s.released] == c
  {
    TicketsOut(s);
    assert TicketAt(s, c);
    var k := s.cpus[c].slot;
    assert k % TICKETS == s.released % TICKETS && s.released <= k < s.released + TICKETS;
    assert DrawAt(s, s.released);
  }

  lemma AcquireTickets(s: State, c: nat)
    requires TicketsOk(s) && |s.cpus| <= CPU_MAX
    requires c < |s.cpus| && s.cpus[c].pc.Spinning? && s.l == s.cpus[c].pc.ticket
    ensures TicketsOk(Advance(s, c))
  {
    var s' := Advance(s, c);
    MyTurn(s, c);
    forall d ensures TicketAt(s', d) {
      assert TicketAt(s, d);
    }
    forall i ensures DrawAt(s', i) {
      assert DrawAt(s, i);
    }
  }

  lemma ReleaseTickets(s: State, c: nat)
    requires TicketsOk(s) && c < |s.cpus| && s.cpus[c].pc.UnlockLoaded?
    ensures TicketsOk(Advance(s, c))
  {
    var s' := Advance(s, c);
    assert TicketAt(s, c);
    WrapNext(s.released);
    forall d ensures TicketAt(s', d) {
      assert TicketAt(s, d);
    }
    forall i ensures DrawAt(s', i) {
      assert DrawAt(s, i);
    }
  }

  lemma TicketsStep(s: State, e: Event)
    requires TicketsOk(s) && AllControl(s) && 1 <= |s.cpus| <= CPU_MAX && Enabled(s, e)
    ensures TicketsOk(Next(s, e))
  {
    if e.Tick? && s.cpus[e.cpu].irq.NoIrq? {
      var c := e.cpu;
      var pc := s.cpus[c].pc;
      if pc.Wanting? {
        DrawTickets(s, c);
      } else if pc.UnlockLoaded? {
        ReleaseTickets(s, c);
      } else if pc.Spinning? && s.l == pc.ticket {
        AcquireTickets(s, c);
      } else {
        QuietTickets(s, Advance(s, c), c);
      }
    } else {
      TicketsQuiet(s, e);
    }
  }

  lemma TicketsQuiet(s: State, e: Event)
    requires TicketsOk(s) && 1 <= |s.cpus| && Enabled(s, e) && !(e.Tick? && s.cpus[e.cpu].irq.NoIrq?)
    requires AllControl(s)
    ensures TicketsOk(Next(s, e))
  {
    OneMoves(s, e);
    assert TicketAt(s, Mover(e));
    if e.Tick? { assert ControlOk(s.cpus[e.cpu]); }
    QuietTickets(s, Next(s, e), Mover(e));
  }

  // ---------------------------------------------------------------- gates

  lemma QuietGates(s: State, s': State, c: nat)
    requires GatesOk(s) && c < |s.cpus| == |s'.cpus|
    requires forall d :: 0 <= d < |s.cpus| && d != c ==> s'.cpus[d] == s.cpus[d]
    requires s'.place == s.place && s'.flagged == s.flagged && s'.cpus[c].queue == s.cpus[c].queue
    requires s'.cpus[c].irq == s.cpus[c].irq || (!s'.cpus[c].irq.Enqueuing? && !s.cpus[c].irq.Enqueuing?)
    requires s'.cpus[c].pc == s.cpus[c].pc || (!s'.cpus[c].pc.Dequeued? && !s.cpus[c].pc.Dequeued?)
    ensures GatesOk(s')
  {
    forall d, g ensures PlacedAt(s', d, g) { assert PlacedAt(s, d, g); }
  }

  lemma FlagGate(s: State, c: nat, g: Gate)
    requires GatesOk(s) && c < |s.cpus| && s.cpus[c].irq == Testing(g) && g !in s.flagged
    ensures GatesOk(Handle(s, c))
  {
    var s' := Handle(s, c);
    forall d, h ensures PlacedAt(s', d, h) {
      assert PlacedAt(s, d, h);
      assert PlacedAt(s, d, g);
    }
  }

  lemma EnqueueGate(s: State, c: nat, g: Gate)
    requires GatesOk(s) && c < |s.cpus| && s.cpus[c].irq == Enqueuing(g)
    ensures GatesOk(Handle(s, c))
  {
    var s' := Handle(s, c);
    assert PlacedAt(s, c, g);
    forall d, h ensures PlacedAt(s', d, h) {
      assert PlacedAt(s, d, h);
    }
  }

  lemma DequeueGate(s: State, c: nat)
    requires GatesOk(s) && c < |s.cpus| && s.cpus[c].pc == Draining && s.cpus[c].queue != []
    ensures GatesOk(Advance(s, c))
  {
    var s' := Advance(s, c);
    var q := s.cpus[c].queue;
    var g := q[0];
    assert PlacedAt(s, c, g);
    assert q == [g] + q[1..] && g !in q[1..];
    forall d, h ensures PlacedAt(s', d, h) {
      assert PlacedAt(s, d, h);
    }
  }

  lemma UnflagGate(s: State, c: nat, g: Gate)
    requires GatesOk(s) && c < |s.cpus| && s.cpus[c].pc == Dequeued(g)
    ensures GatesOk(Advance(s, c))
  {
    var s' := Advance(s, c);
    assert PlacedAt(s, c, g);
    forall d, h ensures PlacedAt(s', d, h) {
      assert PlacedAt(s, d, h);
    }
  }

  lemma HandleGates(s: State, c: nat)
    requires GatesOk(s) && c < |s.cpus| && !s.cpus[c].irq.NoIrq? && ControlOk(s.cpus[c])
    ensures GatesOk(Handle(s, c))
  {
    var irq := s.cpus[c].irq;
    if irq.Testing? && irq.gate !in s.flagged {
      FlagGate(s, c, irq.gate);
    } else if irq.Enqueuing? {
      EnqueueGate(s, c, irq.gate);
    } else {
      QuietGates(s, Handle(s, c), c);
    }
  }

  lemma AdvanceGates(s: State, c: nat)
    requires GatesOk(s) && c < |s.cpus| && s.cpus[c].irq.NoIrq?
    ensures GatesOk(Advance(s, c))
  {
    var pc := s.cpus[c].pc;
    if pc.Draining? && s.cpus[c].queue != [] {
      DequeueGate(s, c);
    } else if pc.Dequeued? {
      UnflagGate(s, c, pc.gate);
    } else {
      QuietGates(s, Advance(s, c), c);
    }
  }

  lemma GatesStep(s: State, e: Event)
    requires GatesOk(s) && AllControl(s) && 1 <= |s.cpus| && Enabled(s, e)
    ensures GatesOk(Next(s, e))
  {
    OneMoves(s, e);
    if e.Tick? {
      if s.cpus[e.cpu].irq.NoIrq? { AdvanceGates(s, e.cpu); } else { HandleGates(s, e.cpu); }
    } else {
      QuietGates(s, Next(s, e), Mover(e));
    }
  }

  // ---------------------------------------------------------------- nothing is lost

  /** `g` is pending again if it was, provided no step of CPU `c` drops it. */
  lemma StillPending(s: State, s': State, c: nat, g: Gate)
    requires Pending(s, g) && c < |s.cpus| == |s'.cpus|
    requires forall d :: 0 <= d < |s.cpus| && d != c ==> s'.cpus[d] == s.cpus[d]
    requires g in s.flagged ==> g in s'.flagged || Committed(s', c, g)
    requires Committed(s, c, g) ==> Committed(s', c, g)
    ensures Pending(s', g)
  {
    if g !in s.flagged {
      var d :| Committed(s, d, g);
      assert Committed(s', d, g);
    }
  }

  lemma LostStep(s: State, e: Event)
    requires NothingLost(s) && GatesOk(s) && AllControl(s) && 1 <= |s.cpus| && Enabled(s, e)
    ensures NothingLost(Next(s, e))
  {
    var s' := Next(s, e);
    OneMoves(s, e);
    if e.Tick? {
      if s.cpus[e.cpu].irq.NoIrq? { AdvanceLost(s, e.cpu); } else { HandleLost(s, e.cpu); }
    } else {
      forall g | g in s'.owed ensures Pending(s', g) {
        StillPending(s, s', Mover(e), g);
      }
    }
  }

  lemma HandleLost(s: State, c: nat)
    requires NothingLost(s) && c < |s.cpus| && !s.cpus[c].irq.NoIrq? && ControlOk(s.cpus[c])
    ensures NothingLost(Handle(s, c))
  {
    var s' := Handle(s, c);
    forall g | g in s'.owed ensures Pending(s', g) {
      if s.cpus[c].irq == Direct(g) {
        assert Committed(s', c, g);
      } else if g in s.owed {
        StillPending(s, s', c, g);
      }
    }
  }

  lemma AdvanceLost(s: State, c: nat)
    requires NothingLost(s) && c < |s.cpus| && s.cpus[c].irq.NoIrq?
    ensures NothingLost(Advance(s, c))
  {
    var s' := Advance(s, c);
    forall g | g in s'.owed ensures Pending(s', g) {
      AdvancePending(s, c, g);
    }
  }

  /** A CPU committed to an epilogue stays committed until it starts it; a dequeued gate is handed
      over from its flag to the commitment. */
  lemma CommitmentKept(s: State, c: nat, g: Gate)
    requires c < |s.cpus| && g in Advance(s, c).owed
    ensures |Advance(s, c).cpus| == |s.cpus|
    ensures forall d :: 0 <= d < |s.cpus| && d != c ==> Advance(s, c).cpus[d] == s.cpus[d]
    ensures Committed(s, c, g) ==> Committed(Advance(s, c), c, g)
    ensures g in s.flagged ==> g in Advance(s, c).flagged || Committed(Advance(s, c), c, g)
    ensures g in s.owed
  {
  }

  lemma AdvancePending(s: State, c: nat, g: Gate)
    requires NothingLost(s) && c < |s.cpus| && s.cpus[c].irq.NoIrq? && g in Advance(s, c).owed
    ensures Pending(Advance(s, c), g)
  {
    CommitmentKept(s, c, g);
    StillPending(s, Advance(s, c), c, g);
  }

  // ---------------------------------------------------------------- threads

  lemma ThreadsStep(s: State, e: Event)
    requires ThreadsOk(s) && AllControl(s) && 1 <= |s.cpus| && Enabled(s, e)
    ensures ThreadsOk(Next(s, e))
  {
    OneMoves(s, e);
    if e.Tick? {
      if s.cpus[e.cpu].irq.NoIrq? { AdvanceThreads(s, e.cpu); } else { HandleThreads(s, e.cpu); }
    } else if e.Switch? || e.Retire? {
      SwitchThreads(s, e);
    } else {
      var s' := Next(s, e);
      forall d ensures ThreadAt(s', d) { assert ThreadAt(s, d); }
      forall t | t in s'.owes && t !in s'.parked ensures exists d :: 0 <= d < |s'.cpus| && s'.cpus[d].thread == t {
        var d :| 0 <= d < |s.cpus| && s.cpus[d].thread == t;
        assert s'.cpus[d].thread == t;
      }
    }
  }

  /** A step that moves no thread and keeps every debt in line with the lock. */
  lemma SameThreads(s: State, s': State, c: nat)
    requires ThreadsOk(s) && c < |s.cpus| == |s'.cpus| && s'.parked == s.parked
    requires forall d :: 0 <= d < |s.cpus| && d != c ==> s'.cpus[d] == s.cpus[d]
    requires s'.cpus[c].thread == s.cpus[c].thread
    requires s'.owes == s.owes || s'.owes == s.owes[s.cpus[c].thread := if Owns(s'.cpus[c].pc) then 1 else 0]
    requires s'.owes == s.owes ==> Owns(s'.cpus[c].pc) == Owns(s.cpus[c].pc)
    ensures ThreadsOk(s')
  {
    assert ThreadAt(s, c);
    forall d ensures ThreadAt(s', d) { assert ThreadAt(s, d); }
    forall t | t in s'.owes && t !in s'.parked ensures exists d :: 0 <= d < |s'.cpus| && s'.cpus[d].thread == t {
      var d :| 0 <= d < |s.cpus| && s.cpus[d].thread == t;
      assert s'.cpus[d].thread == t;
    }
  }

  lemma HandleThreads(s: State, c: nat)
    requires ThreadsOk(s) && c < |s.cpus| && !s.cpus[c].irq.NoIrq? && ControlOk(s.cpus[c])
    ensures ThreadsOk(Handle(s, c))
  {
    SameThreads(s, Handle(s, c), c);
  }

  lemma AdvanceThreads(s: State, c: nat)
    requires ThreadsOk(s) && c < |s.cpus| && s.cpus[c].irq.NoIrq?
    ensures ThreadsOk(Advance(s, c))
  {
    assert ThreadAt(s, c);
    if s.cpus[c].pc.Spinning? {
      SameThreads(s, Advance(s, c), c);
    } else if s.cpus[c].pc.UnlockLoaded? {
      SameThreads(s, Advance(s, c), c);
    } else {
      SameThreads(s, Advance(s, c), c);
    }
  }

  lemma SwitchThreads(s: State, e: Event)
    requires ThreadsOk(s) && Enabled(s, e) && (e.Switch? || e.Retire?)
    ensures ThreadsOk(Next(s, e))
  {
    var s' := Next(s, e);
    var c := e.cpu;
    assert ThreadAt(s, c);
    forall d ensures ThreadAt(s', d) { assert ThreadAt(s, d); }
    forall a, b | 0 <= a < b < |s'.cpus| ensures s'.cpus[a].thread != s'.cpus[b].thread {
      assert ThreadAt(s, a) && ThreadAt(s, b);
    }
    forall t | t in s'.owes && t !in s'.parked ensures exists d :: 0 <= d < |s'.cpus| && s'.cpus[d].thread == t {
      if t == e.next {
        assert s'.cpus[c].thread == t;
      } else {
        var d :| 0 <= d < |s.cpus| && s.cpus[d].thread == t;
        assert s'.cpus[d].thread == t;
      }
    }
  }

  // ---------------------------------------------------------------- over whole runs

  lemma InvStep(s: State, e: Event)
    requires Inv(s) && Enabled(s, e)
    ensures Inv(Next(s, e))
  {
    assert AllControl(s);
    OneMoves(s, e);
    ControlStep(s, e);
    TicketsStep(s, e);
    GatesStep(s, e);
    LostStep(s, e);
    ThreadsStep(s, e);
    assert AllControl(Next(s, e));
  }

  /** The state reached from `s` by a sequence of events, each one enabled. */
  ghost predicate Reaches(s: State, events: seq<Event>, s': State)
    decreases |events|
  {
    if events == [] then s' == s
    else Enabled(s, events[0]) && Reaches(Next(s, events[0]), events[1..], s')
  }

  lemma {:induction false} RunInv(s: State, events: seq<Event>, s': State)
    requires Inv(s) && Reaches(s, events, s')
    ensures Inv(s')
    decreases |events|
  {
    if events != [] {
      InvStep(s, events[0]);
      RunInv(Next(s, events[0]), events[1..], s');
    }
  }

  /** In every run, at most one CPU is between lock and unlock, and epilogues run only there. */
  lemma MutualExclusion(s: State, events: seq<Event>, s': State, c: nat, d: nat)
    requires Init(s) && Reaches(s, events, s')
    requires c < |s'.cpus| && d < |s'.cpus| && Owns(s'.cpus[c].pc) && Owns(s'.cpus[d].pc)
    ensures c == d
  {
    InitInv(s);
    RunInv(s, events, s');
    assert TicketAt(s', c) && TicketAt(s', d);
  }

  /** In every run CPUs enter in the order in which they drew their tickets, and the distance of the
      wrapping counters is the number of CPUs that wait or own the lock. */
  lemma TicketOrder(s: State, events: seq<Event>, s': State)
    requires Init(s) && Reaches(s, events, s')
    ensures s'.entered <= s'.drawn
    ensures (s'.t - s'.l) % TICKETS == |set c | 0 <= c < |s'.cpus| && HasTicket(s'.cpus[c].pc)|
  {
    InitInv(s);
    RunInv(s, events, s');
    TicketCount(s');
  }

  lemma WrapDistance(a: nat, b: nat)
    requires b <= a < b + TICKETS
    ensures (a % TICKETS - b % TICKETS) % TICKETS == a - b
  {
  }

  lemma TicketCount(s: State)
    requires TicketsOk(s) && |s.cpus| <= CPU_MAX
    ensures (s.t - s.l) % TICKETS == |set c | 0 <= c < |s.cpus| && HasTicket(s.cpus[c].pc)|
  {
    TicketsOut(s);
    var q := s.drawn[s.released..];
    var held := set c | 0 <= c < |s.cpus| && HasTicket(s.cpus[c].pc);
    forall c: nat ensures c in held <==> c in q {
      assert TicketAt(s, c);
      if c in held { assert q[s.cpus[c].slot - s.released] == c; }
      if c in q { var i :| 0 <= i < |q| && q[i] == c; assert DrawAt(s, s.released + i); }
    }
    forall i, j | 0 <= i < j < |q| ensures q[i] != q[j] {
      assert DrawAt(s, s.released + i) && DrawAt(s, s.released + j);
    }
    SetOfDistinct(q, held);
    WrapDistance(|s.drawn|, s.released);
  }

  lemma {:induction false} SetOfDistinct(q: seq<nat>, held: set<nat>)
    requires forall c :: c in held <==> c in q
    requires forall i, j :: 0 <= i < j < |q| ==> q[i] != q[j]
    ensures |held| == |q|
  {
    if q == [] {
      assert held == {};
    } else {
      assert q[0] in held;
      forall c ensures c in held - {q[0]} <==> c in q[1..] { assert q == [q[0]] + q[1..]; }
      SetOfDistinct(q[1..], held - {q[0]});
    }
  }

  /** In every run a gate relayed since its epilogue last started is still pending: flagged, and then
      in exactly one place, namely the queue of a CPU at epilogue level, a CPU about to enqueue it, or
      a CPU that just dequeued it; or some CPU is on its way to run it. */
  lemma NoRequestLost(s: State, events: seq<Event>, s': State, g: Gate)
    requires Init(s) && Reaches(s, events, s') && g in s'.owed
    ensures (exists c :: Committed(s', c, g)) || (exists c :: Carries(s', c, g))
  {
    InitInv(s);
    RunInv(s, events, s');
    if g in s'.flagged {
      var c := s'.place[g].cpu;
      assert PlacedAt(s', c, g) && ControlOk(s'.cpus[c]);
      assert Carries(s', c, g);
    }
  }

  /** In every run a gate is linked into at most one queue, once, and not while a CPU is about to
      enqueue it; a CPU has in_epilogue clear only with an empty queue. */
  lemma QueuesSound(s: State, events: seq<Event>, s': State, c: nat, d: nat, g: Gate)
    requires Init(s) && Reaches(s, events, s') && c < |s'.cpus| && d < |s'.cpus|
    ensures Distinct(s'.cpus[c].queue)
    ensures g in s'.cpus[c].queue && g in s'.cpus[d].queue ==> c == d
    ensures g in s'.cpus[c].queue ==> s'.cpus[d].irq != Enqueuing(g) && s'.cpus[d].pc != Dequeued(g)
    ensures !s'.cpus[c].inEpilogue ==> s'.cpus[c].queue == []
  {
    InitInv(s);
    RunInv(s, events, s');
    assert PlacedAt(s', c, g) && PlacedAt(s', d, g) && ControlOk(s'.cpus[c]);
  }

  /** In every run every thread on no CPU is at a point where exactly one unlock is pending, so
      whichever CPU it continues on, that CPU owns the lock it will release. */
  lemma OwnershipMigrates(s: State, events: seq<Event>, s': State, t: Thread)
    requires Init(s) && Reaches(s, events, s') && t in s'.owes
    ensures s'.owes[t] == 0 || s'.owes[t] == 1
    ensures t in s'.parked ==> s'.owes[t] == 1
    ensures t !in s'.parked ==>
              exists c :: 0 <= c < |s'.cpus| && s'.cpus[c].thread == t && (s'.owes[t] == 1 <==> Owns(s'.cpus[c].pc))
  {
    InitInv(s);
    RunInv(s, events, s');
    if t !in s'.parked {
      var c :| 0 <= c < |s'.cpus| && s'.cpus[c].thread == t;
      assert ThreadAt(s', c);
    }
  }

  // ---------------------------------------------------------------- first in, first out

  /** The gate that a step appends to the queue of CPU `c`, if it does. */
  function Added(s: State, e: Event, c: nat): seq<Gate>
    requires Enabled(s, e)
  {
    if e == Tick(c) && s.cpus[c].irq.Enqueuing? then [s.cpus[c].irq.gate] else []
  }

  /** The gate whose epilogue a step runs out of the queue of CPU `c`, if it does. */
  function Ran(s: State, e: Event, c: nat): seq<Gate>
    requires Enabled(s, e)
  {
    if e == Tick(c) && s.cpus[c].irq.NoIrq? && s.cpus[c].pc.Starting? then [s.cpus[c].pc.gate] else []
  }

  function Enqueued(s: State, events: seq<Event>, c: nat): seq<Gate>
    decreases |events|
  {
    if events == [] || !Enabled(s, events[0]) then []
    else Added(s, events[0], c) + Enqueued(Next(s, events[0]), events[1..], c)
  }

  function Started(s: State, events: seq<Event>, c: nat): seq<Gate>
    decreases |events|
  {
    if events == [] || !Enabled(s, events[0]) then []
    else Ran(s, events[0], c) + Started(Next(s, events[0]), events[1..], c)
  }

  /** The gates enqueued on a CPU whose epilogues have not run, the one leave holds first. */
  function Backlog(cpu: Cpu): seq<Gate> {
    (if cpu.pc.Dequeued? || cpu.pc.Cleared? || cpu.pc.Starting? then [cpu.pc.gate] else []) + cpu.queue
  }

  lemma HandleFifo(s: State, c: nat)
    requires c < |s.cpus| && !s.cpus[c].irq.NoIrq? && ControlOk(s.cpus[c])
    ensures Backlog(s.cpus[c]) + Added(s, Tick(c), c) == Backlog(HandleCpu(s, c))
  {
  }

  lemma AdvanceFifo(s: State, c: nat)
    requires Enabled(s, Tick(c)) && s.cpus[c].irq.NoIrq?
    ensures Backlog(s.cpus[c]) == Ran(s, Tick(c), c) + Backlog(AdvanceCpu(s, c))
  {
    if s.cpus[c].pc.Draining? && s.cpus[c].queue != [] {
      assert s.cpus[c].queue == [s.cpus[c].queue[0]] + s.cpus[c].queue[1..];
    }
  }

  lemma TickFifo(s: State, c: nat)
    requires Enabled(s, Tick(c)) && ControlOk(s.cpus[c])
    ensures c < |Next(s, Tick(c)).cpus|
    ensures Backlog(s.cpus[c]) + Added(s, Tick(c), c) == Ran(s, Tick(c), c) + Backlog(Next(s, Tick(c)).cpus[c])
  {
    hide Backlog;
    if s.cpus[c].irq.NoIrq? {
      AdvanceFifo(s, c);
      assert Next(s, Tick(c)).cpus[c] == AdvanceCpu(s, c);
    } else {
      HandleFifo(s, c);
      assert Next(s, Tick(c)).cpus[c] == HandleCpu(s, c);
    }
  }

  lemma FifoStep(s: State, e: Event, c: nat)
    requires AllControl(s) && Enabled(s, e) && c < |s.cpus|
    ensures c < |Next(s, e).cpus|
    ensures Backlog(s.cpus[c]) + Added(s, e, c) == Ran(s, e, c) + Backlog(Next(s, e).cpus[c])
  {
    hide Handle;
    hide Advance;
    OneMoves(s, e);
    assert ControlOk(s.cpus[c]);
    if e == Tick(c) { TickFifo(s, c); }
  }

  lemma FifoTrans(before: seq<Gate>, added: seq<Gate>, ran: seq<Gate>, between: seq<Gate>, more: seq<Gate>,
                  started: seq<Gate>, after: seq<Gate>)
    requires before + added == ran + between && between + more == started + after
    ensures before + (added + more) == (ran + started) + after
  {
    assert before + (added + more) == (before + added) + more;
    assert (ran + between) + more == ran + (between + more);
    assert ran + (started + after) == (ran + started) + after;
  }

  /** In every run the epilogues queued on a CPU start in the order in which they were enqueued there,
      each once, and those that have not started are the ones still in its queue or in the hands of
      leave. */
  lemma {:induction false} FirstInFirstOut(s: State, events: seq<Event>, s': State, c: nat)
    requires Inv(s) && Reaches(s, events, s') && c < |s.cpus|
    ensures c < |s'.cpus|
    ensures Backlog(s.cpus[c]) + Enqueued(s, events, c) == Started(s, events, c) + Backlog(s'.cpus[c])
    decreases |events|
  {
    if events != [] {
      var n := Next(s, events[0]);
      InvStep(s, events[0]);
      FifoStep(s, events[0], c);
      FirstInFirstOut(n, events[1..], s', c);
      FifoTrans(Backlog(s.cpus[c]), Added(s, events[0], c), Ran(s, events[0], c), Backlog(n.cpus[c]),
                Enqueued(n, events[1..], c), Started(n, events[1..], c), Backlog(s'.cpus[c]));
    }
  }

  /** The same from the start: what has been enqueued is what has started, followed by what waits. */
  lemma EpiloguesInOrder(s: State, events: seq<Event>, s': State, c: nat)
    requires Init(s) && Reaches(s, events, s') && c < |s.cpus|
    ensures c < |s'.cpus| && Enqueued(s, events, c) == Started(s, events, c) + Backlog(s'.cpus[c])
  {
    InitInv(s);
    FirstInFirstOut(s, events, s', c);
  }

  /** In every run interrupts are on exactly while no handler runs and the CPU is outside enter and leave,
      about to take the lock, waiting for it, inside, or about to run an epilogue; and once leave has seen
      the queue empty nothing is enqueued until in_epilogue is clear again. */
  lemma InterruptsOn(s: State, events: seq<Event>, s': State, c: nat)
    requires Init(s) && Reaches(s, events, s') && c < |s'.cpus|
    ensures var cpu := s'.cpus[c];
            cpu.ints <==>
              (cpu.irq.NoIrq? &&
               (cpu.pc.User? || cpu.pc.Wanting? || cpu.pc.Spinning? || cpu.pc.Inside? || cpu.pc.Starting?))
    ensures var cpu := s'.cpus[c];
            cpu.pc.Unlocking? || cpu.pc.UnlockLoaded? || cpu.pc.Unlocked? || cpu.pc.FlagDown? || cpu.pc.User? ==>
              cpu.queue == []
  {
    InitInv(s);
    RunInv(s, events, s');
    assert ControlOk(s'.cpus[c]);
  }
}
