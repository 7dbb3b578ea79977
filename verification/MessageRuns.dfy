/** Runs of the message protocol: what every interleaving of senders, receivers and interrupts guarantees. */
module MessageRuns {
  import opened Common
  import opened Semaphores
  import SemaphoreRuns
  import opened Messages
  import opened MessageInvariant
  import opened MessageSteps
  import opened MessageGlobals

  lemma NextLocal(p: Port, st: Step)
    requires PortInv(p) && Enabled(p, st) && Shaped(Next(p, st))
    ensures LocalInv(Next(p, st))
  {
    hide PortInv, LocalInv, Shaped, AtStep, GetFreeStep, FillStep, EnqStep, SignalStep, AwaitStep, PutFreeStep,
      GateStep, TakeStep, ReadStep, ClearStep, FinishStep, InterruptStep;
    match st
    case GetFree(t) => GetFreeLocal(p, t);
    case Fill(t, desc) => FillLocal(p, t, desc);
    case Enq(t) => EnqLocal(p, t);
    case SignalRecv(t) => SignalLocal(p, t);
    case AwaitTaken(t) => AwaitLocal(p, t);
    case PutFree(t) => PutFreeLocal(p, t);
    case EnterGate(t) => GateLocal(p, t);
    case TakeHead(t) => TakeLocal(p, t);
    case ReadCount(t) => ReadLocal(p, t);
    case ClearCount(t) => ClearLocal(p, t);
    case Finish(t) => FinishLocal(p, t);
    case Interrupt(m) => InterruptLocal(p, m);
  }

  lemma NextKeepsInv(p: Port, st: Step)
    requires PortInv(p) && Enabled(p, st)
    ensures PortInv(Next(p, st))
  {
    hide Next, Enabled, Inv, WaitersInv, QueueSide, GateInv, ThreadInv, MessageInv;
    NextGlobal(p, st);
    NextLocal(p, st);
  }

  /** alloc_port: eight free messages, put on the list one by one; nothing sent yet. All further
      messages carry interrupts. Threads are ready and outside the port. */
  ghost predicate Initial(p: Port) {
    && Inv(p.k) && (forall t: Tid :: t in p.k.threads <==> t < |p.pcs|)
    && InitialData(p)
  }

  ghost predicate InitialData(p: Port) {
    && |p.k.semas| == |p.msgs| + 1 && |p.msgs| >= 8
    && |p.phase| == |p.sends| == |p.reported| == |p.lost| == |p.hits| == |p.msgs|
    && (forall s :: 0 <= s < |p.k.semas| ==> p.k.semas[s] == Fresh(0))
    && (forall t :: 0 <= t < |p.pcs| ==> p.pcs[t] == Idle)
    && (forall m :: 0 <= m < |p.msgs| ==> Unused(p, m))
    && p.queue == [] && p.freeList == seq(8, i => 7 - i)
    && p.entered == [] && p.left == []
  }

  predicate Unused(p: Port, m: Mid)
    requires |p.phase| == |p.sends| == |p.reported| == |p.lost| == |p.hits| == |p.msgs| && m < |p.msgs|
  {
    && p.msgs[m].qref == 0 && (p.msgs[m].irq <==> m >= 8)
    && p.phase[m] == (if m < 8 then Free else IrqFree)
    && p.sends[m] == p.reported[m] == p.lost[m] == p.hits[m] == 0
  }

  lemma {:induction false} NobodyMoves(pcs: seq<Pc>, f: Pc -> bool)
    requires forall t :: 0 <= t < |pcs| ==> !f(pcs[t])
    ensures Count(pcs, f) == 0
  {
    if pcs != [] {
      NobodyMoves(pcs[..|pcs| - 1], f);
    }
  }

  lemma InitialShaped(p: Port)
    requires InitialData(p)
    ensures Shaped(p) && WaitersInv(p) && QueueSide(p) && GateInv(p)
  {
    NobodyMoves(p.pcs, PastGate);
    NobodyMoves(p.pcs, BeforeV);
    assert forall s :: 0 <= s < |p.k.semas| ==> p.k.semas[s].waiters == [];
    assert p.k.semas[0].count == 0;
    assert Stamped(p, p.queue) == [];
    forall m: Mid | m < |p.msgs| ensures p.sends[m] == p.reported[m] == p.lost[m] == p.msgs[m].qref == 0 {
      assert Unused(p, m);
    }
  }

  lemma InitialMessage(p: Port, m: Mid)
    requires Shaped(p) && m < |p.msgs| && p.queue == [] && p.k.semas[m + 1] == Fresh(0)
    requires p.freeList == seq(8, i => 7 - i) && Unused(p, m)
    ensures MessageInv(p, m)
  {
    assert m < 8 ==> p.freeList[7 - m] == m;
    assert m in p.freeList <==> m < 8;
  }

  lemma IdleThread(p: Port, t: Tid)
    requires Shaped(p) && t < |p.pcs| && p.pcs[t] == Idle
    ensures ThreadInv(p, t)
  {
  }

  lemma InitialLocal(p: Port)
    requires InitialData(p) && Shaped(p)
    ensures LocalInv(p)
  {
    forall t: Tid | t < |p.pcs| ensures ThreadInv(p, t) { IdleThread(p, t); }
    forall m: Mid | m < |p.msgs| ensures MessageInv(p, m) { InitialMessage(p, m); }
  }

  lemma InitialInv(p: Port)
    requires Initial(p)
    ensures PortInv(p)
  {
    InitialShaped(p);
    InitialLocal(p);
  }

  /** n threads, all ready, of which thread 0 is the idle one, and s semaphores at 0. */
  function Started(n: nat, s: nat): Kernel
    requires n > 0
  {
    if s > 0 then SemaphoreRuns.Apply(Started(n, s - 1), SemaphoreRuns.OpInit(0))
    else if n > 1 then CreateThread(Started(n - 1, 0), n - 1)
    else SemaphoreRuns.Boot(0)
  }

  lemma {:induction false} StartedInv(n: nat, s: nat)
    requires n > 0
    ensures Inv(Started(n, s)) && (forall t: Tid :: t in Started(n, s).threads <==> t < n)
    ensures |Started(n, s).semas| == s && forall i :: 0 <= i < s ==> Started(n, s).semas[i] == Fresh(0)
  {
    hide Inv;
    if s > 0 {
      StartedInv(n, s - 1);
      SemaphoreRuns.ApplyKeepsInv(Started(n, s - 1), SemaphoreRuns.OpInit(0));
    } else if n > 1 {
      StartedInv(n - 1, 0);
      CreateKeepsInv(Started(n - 1, 0), n - 1);
    } else {
      SemaphoreRuns.BootInv(0);
    }
  }

  /** The port at start, for n threads and any number of interrupt messages. */
  function PortAtStart(n: nat, irqs: nat): Port
    requires n > 0
  {
    Port(Started(n, irqs + 9), seq(n, _ => Idle), seq(irqs + 8, m => Message(m >= 8, 0, Body(0, None))),
         [], seq(8, i => 7 - i), seq(irqs + 8, m => if m < 8 then Free else IrqFree), [], [],
         seq(irqs + 8, _ => 0), seq(irqs + 8, _ => 0), seq(irqs + 8, _ => 0), seq(irqs + 8, _ => 0))
  }

  /** There is such a start for any number of threads and of interrupt messages. */
  lemma SomeStart(n: nat, irqs: nat)
    requires n > 0
    ensures Initial(PortAtStart(n, irqs)) && Reachable(PortAtStart(n, irqs))
  {
    hide Inv, Started;
    StartedInv(n, irqs + 9);
    var p := PortAtStart(n, irqs);
    assert p.freeList == seq(8, i => 7 - i);
    assert InitialData(p);
    assert Runs(PortAtStart(n, irqs), []);
    assert Run(PortAtStart(n, irqs), []) == PortAtStart(n, irqs);
  }

  predicate Runs(p: Port, steps: seq<Step>)
    decreases |steps|
  {
    steps == [] || (Shaped(p) && Enabled(p, steps[0]) && Runs(Next(p, steps[0]), steps[1..]))
  }

  function Run(p: Port, steps: seq<Step>): Port
    requires Runs(p, steps)
    decreases |steps|
  {
    if steps == [] then p else Run(Next(p, steps[0]), steps[1..])
  }

  lemma RunsOn(p: Port, st: Step, steps: seq<Step>)
    requires PortInv(p) && Enabled(p, st) && Runs(Next(p, st), steps)
    ensures Runs(p, [st] + steps) && Run(p, [st] + steps) == Run(Next(p, st), steps)
  {
    assert ([st] + steps)[1..] == steps;
  }

  lemma {:induction false} RunThen(p: Port, steps: seq<Step>, st: Step)
    requires Runs(p, steps) && PortInv(Run(p, steps)) && Enabled(Run(p, steps), st)
    ensures Runs(p, steps + [st]) && Run(p, steps + [st]) == Next(Run(p, steps), st)
    decreases |steps|
  {
    hide Next, Enabled, Inv;
    if steps == [] {
      assert [] + [st] == [st];
      assert [st][1..] == [];
    } else {
      RunThen(Next(p, steps[0]), steps[1..], st);
      assert (steps + [st])[1..] == steps[1..] + [st];
    }
  }

  lemma {:induction false} RunKeepsInv(p: Port, steps: seq<Step>)
    requires PortInv(p) && Runs(p, steps)
    ensures PortInv(Run(p, steps))
    decreases |steps|
  {
    if steps != [] {
      NextKeepsInv(p, steps[0]);
      RunKeepsInv(Next(p, steps[0]), steps[1..]);
    }
  }

  ghost predicate Reachable(p: Port) {
    exists p0, steps :: Initial(p0) && Runs(p0, steps) && p == Run(p0, steps)
  }

  lemma ReachableInv(p: Port)
    requires Reachable(p)
    ensures PortInv(p)
  {
    var p0, steps :| Initial(p0) && Runs(p0, steps) && p == Run(p0, steps);
    InitialInv(p0);
    RunKeepsInv(p0, steps);
  }

  lemma ReachableGlobal(p: Port)
    requires Reachable(p)
    ensures GlobalInv(p)
  {
    ReachableInv(p);
  }

  lemma ReachableThread(p: Port, t: Tid)
    requires Reachable(p) && t < |p.pcs|
    ensures Shaped(p) && ThreadInv(p, t)
  {
    ReachableInv(p);
  }

  lemma ReachableMessage(p: Port, m: Mid)
    requires Reachable(p) && m < |p.msgs|
    ensures Shaped(p) && MessageInv(p, m)
  {
    ReachableInv(p);
  }

  // ----- what every interleaving guarantees

  /** The length of the message queue, and that no receiver ever finds it empty. */
  lemma QueueLength(p: Port, t: Tid)
    requires Reachable(p) && t < |p.pcs|
    ensures p.k.semas != []
    ensures |p.queue| == (if p.k.semas[0].count > 0 then p.k.semas[0].count else 0)
                         + Count(p.pcs, PastGate) + Count(p.pcs, BeforeV)
    ensures p.pcs[t].Gate? ==> p.queue != []
  {
    ReachableGlobal(p);
    if p.pcs[t].Gate? {
      QueueNotEmpty(p, t);
    }
  }

  /** Messages leave in the order they entered, each as it was when it entered. */
  lemma ReceivedInOrder(p: Port)
    requires Reachable(p)
    ensures p.left <= p.entered && |p.entered| == |p.left| + |p.queue|
    ensures forall i :: 0 <= i < |p.queue| ==>
              p.queue[i] < |p.msgs| && p.entered[|p.left| + i] == (p.queue[i], p.msgs[p.queue[i]].body)
  {
    ReachableGlobal(p);
    OrderKept(p);
  }

  lemma OrderKept(p: Port)
    requires Shaped(p) && QueueSide(p)
    ensures p.left <= p.entered && |p.entered| == |p.left| + |p.queue|
    ensures forall i :: 0 <= i < |p.queue| ==> p.entered[|p.left| + i] == (p.queue[i], p.msgs[p.queue[i]].body)
  {
  }

  /** A receiver that still works on a message finds what it took off the queue. */
  lemma ReceivedIntact(p: Port, t: Tid)
    requires Reachable(p) && t < |p.pcs|
    ensures HasMessage(p.pcs[t]) ==> p.pcs[t].m < |p.msgs|
    ensures p.pcs[t].Got? || p.pcs[t].Counted? || (p.pcs[t].Cleared? && !p.msgs[p.pcs[t].m].irq) ==>
              p.msgs[p.pcs[t].m].body == p.pcs[t].b
  {
    ReachableThread(p, t);
  }

  /** A sender gets past its wait only after every enqueue of its message has been taken. */
  lemma SenderReturnsAfterTaken(p: Port, t: Tid)
    requires Reachable(p) && t < |p.pcs| && p.pcs[t].Taken?
    ensures forall i :: 0 <= i < |p.entered| && p.entered[i].0 == p.pcs[t].m ==> i < |p.left|
  {
    ReachableThread(p, t);
    ReachableMessage(p, p.pcs[t].m);
    ReceivedInOrder(p);
    forall i | |p.left| <= i < |p.entered| ensures p.entered[i].0 in p.queue {
      assert p.entered[i].0 == p.queue[i - |p.left|];
    }
  }

  /** While a sender sleeps, its message is queued or in a receiver's hands: a wake-up is still to come. */
  lemma SleepingSenderIsServed(p: Port, t: Tid)
    requires Reachable(p) && t < |p.pcs| && p.pcs[t].BlockedSend?
    ensures p.pcs[t].m in p.queue || exists r :: 0 <= r < |p.pcs| && HoldsNow(p.pcs[r], p.pcs[t].m)
  {
    ReachableThread(p, t);
    ReachableMessage(p, p.pcs[t].m);
  }

  /** While a receiver sleeps, every queued message already has a receiver past the gate or a sender
      about to wake one. */
  lemma NoMessageStranded(p: Port, t: Tid)
    requires Reachable(p) && t < |p.pcs| && p.pcs[t].BlockedRecv?
    ensures |p.queue| == Count(p.pcs, PastGate) + Count(p.pcs, BeforeV)
  {
    ReachableThread(p, t);
    ReachableGlobal(p);
  }

  /** An interrupt message is queued at most once: exactly while its count is positive and no
      receiver has it. */
  lemma InterruptQueuedOnce(p: Port, m: Mid)
    requires Reachable(p) && m < |p.msgs| && p.msgs[m].irq
    ensures Shaped(p) && Distinct(p.queue)
    ensures m in p.queue <==> p.msgs[m].qref > 0 && !p.phase[m].IrqHeld?
    ensures p.phase[m].IrqHeld? <==> exists r :: 0 <= r < |p.pcs| && HoldsNow(p.pcs[r], m) && !p.pcs[r].Cleared?
  {
    ReachableGlobal(p);
    ReachableMessage(p, m);
    forall r: Tid | r < |p.pcs| && HoldsNow(p.pcs[r], m) && !p.pcs[r].Cleared? ensures p.phase[m].IrqHeld? {
      ReachableThread(p, r);
    }
  }

  /** Interrupts are counted exactly: every do_send of m has been reported, will be, or fell between
      the two instructions that read and reset the count (lines 240 and 241), and only those are lost. */
  lemma InterruptsConserved(p: Port, m: Mid)
    requires Reachable(p) && m < |p.msgs| && p.msgs[m].irq
    ensures Shaped(p)
    ensures p.sends[m] == p.reported[m] + p.lost[m] + p.msgs[m].qref
    ensures !InWindow(p, m) ==> p.lost[m] == p.hits[m]
    ensures InWindow(p, m) ==> var c := p.pcs[p.phase[m].r].c;
                               c <= p.msgs[m].qref && p.hits[m] == p.lost[m] + (p.msgs[m].qref - c)
  {
    ReachableGlobal(p);
    ReachableMessage(p, m);
    if p.phase[m].IrqHeld? {
      ReachableThread(p, p.phase[m].r);
    }
  }
}
