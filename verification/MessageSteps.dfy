/** Every step keeps what the invariant says of single threads and messages. */
module MessageSteps {
  import opened Common
  import opened Semaphores
  import opened Messages
  import opened MessageInvariant

  /** Moving thread t to pc changes the two counts of GateInv accordingly. */
  lemma Moved(p: Port, t: Tid, pc: Pc)
    requires t < |p.pcs|
    ensures Count(p.pcs[t := pc], PastGate) + (if p.pcs[t].Gate? then 1 else 0)
         == Count(p.pcs, PastGate) + (if pc.Gate? then 1 else 0)
    ensures Count(p.pcs[t := pc], BeforeV) + (if p.pcs[t].Enqueued? then 1 else 0)
         == Count(p.pcs, BeforeV) + (if pc.Enqueued? then 1 else 0)
  {
    CountUpdate(p.pcs, PastGate, t, pc);
    CountUpdate(p.pcs, BeforeV, t, pc);
  }

  lemma GetFreeThread(p: Port, t: Tid, u: Tid)
    requires Shaped(p) && t < |p.pcs| && p.pcs[t].Idle? && p.freeList != [] && Shaped(GetFreeStep(p, t))
    requires u < |p.pcs| && ThreadInv(p, u) && MessageInv(p, p.freeList[0])
    ensures ThreadInv(GetFreeStep(p, t), u)
  {
  }

  lemma GetFreeMessage(p: Port, t: Tid, i: Mid)
    requires Shaped(p) && t < |p.pcs| && p.pcs[t].Idle? && p.freeList != [] && Shaped(GetFreeStep(p, t))
    requires i < |p.msgs| && MessageInv(p, i) && MessageInv(p, p.freeList[0]) && Distinct(p.freeList)
    ensures MessageInv(GetFreeStep(p, t), i)
  {
  }

  lemma FillThread(p: Port, t: Tid, desc: Body, u: Tid)
    requires Shaped(p) && t < |p.pcs| && p.pcs[t].Chosen? && Shaped(FillStep(p, t, desc))
    requires u < |p.pcs| && ThreadInv(p, u)
    requires ThreadInv(p, t) && MessageInv(p, p.pcs[t].m)
    ensures ThreadInv(FillStep(p, t, desc), u)
  {
  }

  lemma FillMessage(p: Port, t: Tid, desc: Body, i: Mid)
    requires Shaped(p) && t < |p.pcs| && p.pcs[t].Chosen? && Shaped(FillStep(p, t, desc))
    requires i < |p.msgs| && MessageInv(p, i)
    requires ThreadInv(p, t) && MessageInv(p, p.pcs[t].m)
    ensures MessageInv(FillStep(p, t, desc), i)
  {
  }

  lemma EnqThread(p: Port, t: Tid, u: Tid)
    requires Shaped(p) && t < |p.pcs| && p.pcs[t].Filled? && Shaped(EnqStep(p, t))
    requires u < |p.pcs| && ThreadInv(p, u)
    requires ThreadInv(p, t) && MessageInv(p, p.pcs[t].m)
    ensures ThreadInv(EnqStep(p, t), u)
  {
  }

  lemma EnqMessage(p: Port, t: Tid, i: Mid)
    requires Shaped(p) && t < |p.pcs| && p.pcs[t].Filled? && Shaped(EnqStep(p, t))
    requires i < |p.msgs| && MessageInv(p, i)
    requires ThreadInv(p, t) && MessageInv(p, p.pcs[t].m)
    ensures MessageInv(EnqStep(p, t), i)
  {
  }

  lemma PutFreeThread(p: Port, t: Tid, u: Tid)
    requires Shaped(p) && t < |p.pcs| && p.pcs[t].Taken? && Shaped(PutFreeStep(p, t))
    requires u < |p.pcs| && ThreadInv(p, u)
    requires ThreadInv(p, t) && MessageInv(p, p.pcs[t].m)
    ensures ThreadInv(PutFreeStep(p, t), u)
  {
  }

  lemma PutFreeMessage(p: Port, t: Tid, i: Mid)
    requires Shaped(p) && t < |p.pcs| && p.pcs[t].Taken? && Shaped(PutFreeStep(p, t))
    requires i < |p.msgs| && MessageInv(p, i)
    requires ThreadInv(p, t) && MessageInv(p, p.pcs[t].m)
    ensures MessageInv(PutFreeStep(p, t), i)
  {
  }

  lemma TakeThread(p: Port, t: Tid, u: Tid)
    requires Shaped(p) && t < |p.pcs| && p.pcs[t].Gate? && Shaped(TakeStep(p, t))
    requires u < |p.pcs| && ThreadInv(p, u) && (p.queue != [] ==> MessageInv(p, p.queue[0]))
    ensures ThreadInv(TakeStep(p, t), u)
  {
  }

  lemma TakeMessage(p: Port, t: Tid, i: Mid)
    requires Shaped(p) && t < |p.pcs| && p.pcs[t].Gate? && Shaped(TakeStep(p, t))
    requires i < |p.msgs| && MessageInv(p, i) && (p.queue != [] ==> MessageInv(p, p.queue[0])) && Distinct(p.queue)
    ensures MessageInv(TakeStep(p, t), i)
  {
  }

  lemma ReadThread(p: Port, t: Tid, u: Tid)
    requires Shaped(p) && t < |p.pcs| && p.pcs[t].Got? && Shaped(ReadStep(p, t))
    requires u < |p.pcs| && ThreadInv(p, u)
    requires ThreadInv(p, t) && MessageInv(p, p.pcs[t].m)
    ensures ThreadInv(ReadStep(p, t), u)
  {
  }

  lemma ReadMessage(p: Port, t: Tid, i: Mid)
    requires Shaped(p) && t < |p.pcs| && p.pcs[t].Got? && Shaped(ReadStep(p, t))
    requires i < |p.msgs| && MessageInv(p, i)
    requires ThreadInv(p, t) && MessageInv(p, p.pcs[t].m)
    ensures MessageInv(ReadStep(p, t), i)
  {
  }

  lemma ClearThread(p: Port, t: Tid, u: Tid)
    requires Shaped(p) && t < |p.pcs| && p.pcs[t].Counted? && Shaped(ClearStep(p, t))
    requires u < |p.pcs| && ThreadInv(p, u)
    requires ThreadInv(p, t) && MessageInv(p, p.pcs[t].m)
    ensures ThreadInv(ClearStep(p, t), u)
  {
    hide Late;
  }

  lemma ClearMessage(p: Port, t: Tid, i: Mid)
    requires Shaped(p) && t < |p.pcs| && p.pcs[t].Counted? && Shaped(ClearStep(p, t))
    requires i < |p.msgs| && MessageInv(p, i)
    requires ThreadInv(p, t) && MessageInv(p, p.pcs[t].m)
    ensures MessageInv(ClearStep(p, t), i)
  {
  }

  lemma AwaitThread(p: Port, t: Tid, u: Tid)
    requires Shaped(p) && Inv(p.k) && t < |p.pcs| && p.pcs[t].Signalled? && Shaped(AwaitStep(p, t))
    requires u < |p.pcs| && ThreadInv(p, u)
    requires ThreadInv(p, t) && MessageInv(p, p.pcs[t].m)
    ensures ThreadInv(AwaitStep(p, t), u)
  {
  }

  lemma AwaitMessage(p: Port, t: Tid, i: Mid)
    requires Shaped(p) && Inv(p.k) && t < |p.pcs| && p.pcs[t].Signalled? && Shaped(AwaitStep(p, t))
    requires i < |p.msgs| && MessageInv(p, i)
    requires ThreadInv(p, t) && MessageInv(p, p.pcs[t].m)
    ensures MessageInv(AwaitStep(p, t), i)
  {
  }

  lemma GateThread(p: Port, t: Tid, u: Tid)
    requires Shaped(p) && Inv(p.k) && t < |p.pcs| && p.pcs[t].Idle? && Shaped(GateStep(p, t))
    requires u < |p.pcs| && ThreadInv(p, u)
    ensures ThreadInv(GateStep(p, t), u)
  {
  }

  lemma GateMessage(p: Port, t: Tid, i: Mid)
    requires Shaped(p) && Inv(p.k) && t < |p.pcs| && p.pcs[t].Idle? && Shaped(GateStep(p, t))
    requires i < |p.msgs| && MessageInv(p, i)
    ensures MessageInv(GateStep(p, t), i)
  {
  }

  /** The thread a V wakes was asleep in that P, and is on no wait queue any more. */
  ghost predicate WakesWell(p: Port, s: nat)
    requires Shaped(p) && s < |p.k.semas|
  {
    var ws := p.k.semas[s].waiters;
    ws != [] ==> p.pcs[ws[0]] == (if s == 0 then BlockedRecv else BlockedSend(s - 1)) && ws[0] !in ws[1..]
  }

  lemma WakingIsWell(p: Port, s: nat)
    requires Shaped(p) && Inv(p.k) && WaitersInv(p) && s < |p.k.semas|
    ensures WakesWell(p, s)
  {
    if p.k.semas[s].waiters != [] {
      WaiterCounted(p.k.semas, s, p.k.semas[s].waiters[0]);
    }
  }

  lemma SignalThread(p: Port, t: Tid, u: Tid)
    requires Shaped(p) && t < |p.pcs| && p.pcs[t].Enqueued? && WakesWell(p, 0) && Shaped(SignalStep(p, t))
    requires u < |p.pcs| && ThreadInv(p, u)
    ensures ThreadInv(SignalStep(p, t), u)
  {
  }

  lemma SignalMessage(p: Port, t: Tid, i: Mid)
    requires Shaped(p) && t < |p.pcs| && p.pcs[t].Enqueued? && WakesWell(p, 0) && Shaped(SignalStep(p, t))
    requires i < |p.msgs| && MessageInv(p, i)
    ensures MessageInv(SignalStep(p, t), i)
  {
  }

  lemma FinishThread(p: Port, t: Tid, u: Tid)
    requires Shaped(p) && t < |p.pcs| && p.pcs[t].Cleared? && WakesWell(p, p.pcs[t].m + 1) && Shaped(FinishStep(p, t))
    requires u < |p.pcs| && ThreadInv(p, u)
    requires ThreadInv(p, t) && MessageInv(p, p.pcs[t].m) && !p.msgs[p.pcs[t].m].irq
    requires var ws := p.k.semas[p.pcs[t].m + 1].waiters; ws != [] ==> ThreadInv(p, ws[0])
    ensures ThreadInv(FinishStep(p, t), u)
  {
    hide Inv, Placed, SemaInv, Without;
  }

  lemma FinishMessage(p: Port, t: Tid, i: Mid)
    requires Shaped(p) && t < |p.pcs| && p.pcs[t].Cleared? && WakesWell(p, p.pcs[t].m + 1) && Shaped(FinishStep(p, t))
    requires i < |p.msgs| && MessageInv(p, i) && ThreadInv(p, t) && i != p.pcs[t].m && !p.msgs[p.pcs[t].m].irq
    requires var ws := p.k.semas[p.pcs[t].m + 1].waiters; ws != [] ==> ThreadInv(p, ws[0])
    ensures MessageInv(FinishStep(p, t), i)
  {
  }

  lemma FinishIrq(p: Port, t: Tid)
    requires PortInv(p) && t < |p.pcs| && p.pcs[t].Cleared? && p.msgs[p.pcs[t].m].irq && Shaped(FinishStep(p, t))
    ensures LocalInv(FinishStep(p, t))
  {
    forall u: Tid | u < |p.pcs| ensures ThreadInv(FinishStep(p, t), u) { assert ThreadInv(p, u); }
    forall i: Mid | i < |p.msgs| ensures MessageInv(FinishStep(p, t), i) { assert MessageInv(p, i); }
  }

  lemma FinishOwnMessage(p: Port, t: Tid, m: Mid)
    requires Shaped(p) && t < |p.pcs| && p.pcs[t].Cleared? && WakesWell(p, p.pcs[t].m + 1) && Shaped(FinishStep(p, t))
    requires m == p.pcs[t].m && MessageInv(p, m) && ThreadInv(p, t) && !p.msgs[m].irq && SemaInv(p.k.semas[m + 1])
    requires p.k.semas[m + 1].waiters != [] ==> ThreadInv(p, p.k.semas[m + 1].waiters[0])
    ensures MessageInv(FinishStep(p, t), m)
  {
  }

  lemma InterruptThread(p: Port, m: Mid, u: Tid)
    requires Shaped(p) && m < |p.msgs| && p.msgs[m].irq && WakesWell(p, 0) && Shaped(InterruptStep(p, m))
    requires u < |p.pcs| && ThreadInv(p, u) && MessageInv(p, m)
    ensures ThreadInv(InterruptStep(p, m), u)
  {
  }

  lemma InterruptMessage(p: Port, m: Mid, i: Mid)
    requires Shaped(p) && m < |p.msgs| && p.msgs[m].irq && WakesWell(p, 0) && Shaped(InterruptStep(p, m))
    requires i < |p.msgs| && MessageInv(p, i) && i != m
    ensures MessageInv(InterruptStep(p, m), i)
  {
    hide Inv;
    if p.msgs[m].qref > 0 {
      assert InterruptStep(p, m).pcs == p.pcs;
    } else if p.k.semas[0].waiters == [] {
      assert InterruptStep(p, m).pcs == p.pcs;
    } else {
      assert InterruptStep(p, m).pcs == p.pcs[p.k.semas[0].waiters[0] := Gate];
    }
  }

  lemma InterruptOwnMessage(p: Port, m: Mid)
    requires Shaped(p) && m < |p.msgs| && p.msgs[m].irq && WakesWell(p, 0) && Shaped(InterruptStep(p, m))
    requires MessageInv(p, m)
    requires p.phase[m].IrqHeld? && p.phase[m].r < |p.pcs| ==> ThreadInv(p, p.phase[m].r)
    ensures MessageInv(InterruptStep(p, m), m)
  {
  }

  lemma GetFreeLocal(p: Port, t: Tid)
    requires PortInv(p) && Enabled(p, GetFree(t)) && Shaped(GetFreeStep(p, t))
    ensures LocalInv(GetFreeStep(p, t))
  {
    if p.freeList == [] { return; }
    forall u: Tid | u < |p.pcs| ensures ThreadInv(GetFreeStep(p, t), u) { GetFreeThread(p, t, u); }
    forall i: Mid | i < |p.msgs| ensures MessageInv(GetFreeStep(p, t), i) { GetFreeMessage(p, t, i); }
  }

  lemma FillLocal(p: Port, t: Tid, desc: Body)
    requires PortInv(p) && Enabled(p, Fill(t, desc)) && Shaped(FillStep(p, t, desc))
    ensures LocalInv(FillStep(p, t, desc))
  {
    forall u: Tid | u < |p.pcs| ensures ThreadInv(FillStep(p, t, desc), u) { FillThread(p, t, desc, u); }
    forall i: Mid | i < |p.msgs| ensures MessageInv(FillStep(p, t, desc), i) { FillMessage(p, t, desc, i); }
  }

  lemma EnqLocal(p: Port, t: Tid)
    requires PortInv(p) && Enabled(p, Enq(t)) && Shaped(EnqStep(p, t))
    ensures LocalInv(EnqStep(p, t))
  {
    forall u: Tid | u < |p.pcs| ensures ThreadInv(EnqStep(p, t), u) { EnqThread(p, t, u); }
    forall i: Mid | i < |p.msgs| ensures MessageInv(EnqStep(p, t), i) { EnqMessage(p, t, i); }
  }

  lemma SignalLocal(p: Port, t: Tid)
    requires PortInv(p) && Enabled(p, SignalRecv(t)) && Shaped(SignalStep(p, t))
    ensures LocalInv(SignalStep(p, t))
  {
    WakingIsWell(p, 0);
    forall u: Tid | u < |p.pcs| ensures ThreadInv(SignalStep(p, t), u) { SignalThread(p, t, u); }
    forall i: Mid | i < |p.msgs| ensures MessageInv(SignalStep(p, t), i) { SignalMessage(p, t, i); }
  }

  lemma AwaitLocal(p: Port, t: Tid)
    requires PortInv(p) && Enabled(p, AwaitTaken(t)) && Shaped(AwaitStep(p, t))
    ensures LocalInv(AwaitStep(p, t))
  {
    forall u: Tid | u < |p.pcs| ensures ThreadInv(AwaitStep(p, t), u) { AwaitThread(p, t, u); }
    forall i: Mid | i < |p.msgs| ensures MessageInv(AwaitStep(p, t), i) { AwaitMessage(p, t, i); }
  }

  lemma PutFreeLocal(p: Port, t: Tid)
    requires PortInv(p) && Enabled(p, PutFree(t)) && Shaped(PutFreeStep(p, t))
    ensures LocalInv(PutFreeStep(p, t))
  {
    forall u: Tid | u < |p.pcs| ensures ThreadInv(PutFreeStep(p, t), u) { PutFreeThread(p, t, u); }
    forall i: Mid | i < |p.msgs| ensures MessageInv(PutFreeStep(p, t), i) { PutFreeMessage(p, t, i); }
  }

  lemma GateLocal(p: Port, t: Tid)
    requires PortInv(p) && Enabled(p, EnterGate(t)) && Shaped(GateStep(p, t))
    ensures LocalInv(GateStep(p, t))
  {
    forall u: Tid | u < |p.pcs| ensures ThreadInv(GateStep(p, t), u) { GateThread(p, t, u); }
    forall i: Mid | i < |p.msgs| ensures MessageInv(GateStep(p, t), i) { GateMessage(p, t, i); }
  }

  lemma TakeLocal(p: Port, t: Tid)
    requires PortInv(p) && Enabled(p, TakeHead(t)) && Shaped(TakeStep(p, t))
    ensures LocalInv(TakeStep(p, t))
  {
    forall u: Tid | u < |p.pcs| ensures ThreadInv(TakeStep(p, t), u) { TakeThread(p, t, u); }
    forall i: Mid | i < |p.msgs| ensures MessageInv(TakeStep(p, t), i) { TakeMessage(p, t, i); }
  }

  lemma ReadLocal(p: Port, t: Tid)
    requires PortInv(p) && Enabled(p, ReadCount(t)) && Shaped(ReadStep(p, t))
    ensures LocalInv(ReadStep(p, t))
  {
    forall u: Tid | u < |p.pcs| ensures ThreadInv(ReadStep(p, t), u) { ReadThread(p, t, u); }
    forall i: Mid | i < |p.msgs| ensures MessageInv(ReadStep(p, t), i) { ReadMessage(p, t, i); }
  }

  lemma ClearLocal(p: Port, t: Tid)
    requires PortInv(p) && Enabled(p, ClearCount(t)) && Shaped(ClearStep(p, t))
    ensures LocalInv(ClearStep(p, t))
  {
    forall u: Tid | u < |p.pcs| ensures ThreadInv(ClearStep(p, t), u) { ClearThread(p, t, u); }
    forall i: Mid | i < |p.msgs| ensures MessageInv(ClearStep(p, t), i) { ClearMessage(p, t, i); }
  }

  lemma FinishThreads(p: Port, t: Tid, u: Tid)
    requires PortInv(p) && Enabled(p, Finish(t)) && Shaped(FinishStep(p, t)) && u < |p.pcs|
    requires !p.msgs[p.pcs[t].m].irq
    ensures ThreadInv(FinishStep(p, t), u)
  {
    hide Without, Placed, Times, Waiting, SemaInv, FinishStep;
    var s := p.pcs[t].m + 1;
    WakingIsWell(p, s);
    assert p.k.semas[s].waiters != [] ==> ThreadInv(p, p.k.semas[s].waiters[0]);
    FinishThread(p, t, u);
  }

  lemma FinishMessages(p: Port, t: Tid, i: Mid)
    requires PortInv(p) && Enabled(p, Finish(t)) && Shaped(FinishStep(p, t)) && i < |p.msgs|
    requires !p.msgs[p.pcs[t].m].irq
    ensures MessageInv(FinishStep(p, t), i)
  {
    hide Without, Placed, Times, Waiting, FinishStep;
    var m := p.pcs[t].m;
    WakingIsWell(p, m + 1);
    assert p.k.semas[m + 1].waiters != [] ==> ThreadInv(p, p.k.semas[m + 1].waiters[0]);
    if i == m { FinishOwnMessage(p, t, m); } else { FinishMessage(p, t, i); }
  }

  lemma FinishLocal(p: Port, t: Tid)
    requires PortInv(p) && Enabled(p, Finish(t)) && Shaped(FinishStep(p, t))
    ensures LocalInv(FinishStep(p, t))
  {
    if p.msgs[p.pcs[t].m].irq {
      FinishIrq(p, t);
    } else {
      forall u: Tid | u < |p.pcs| ensures ThreadInv(FinishStep(p, t), u) { FinishThreads(p, t, u); }
      forall i: Mid | i < |p.msgs| ensures MessageInv(FinishStep(p, t), i) { FinishMessages(p, t, i); }
    }
  }

  lemma InterruptLocal(p: Port, m: Mid)
    requires PortInv(p) && Enabled(p, Interrupt(m)) && Shaped(InterruptStep(p, m))
    ensures LocalInv(InterruptStep(p, m))
  {
    WakingIsWell(p, 0);
    assert p.phase[m].IrqHeld? && p.phase[m].r < |p.pcs| ==> ThreadInv(p, p.phase[m].r);
    forall u: Tid | u < |p.pcs| ensures ThreadInv(InterruptStep(p, m), u) { InterruptThread(p, m, u); }
    forall i: Mid | i < |p.msgs| ensures MessageInv(InterruptStep(p, m), i) {
      if i == m { InterruptOwnMessage(p, m); } else { InterruptMessage(p, m, i); }
    }
  }
}

/** Every step keeps what the invariant says of the kernel, the queue and its gate. */
module MessageGlobals {
  import opened Common
  import opened Semaphores
  import opened Messages
  import opened MessageInvariant
  import opened MessageSteps

  /** Distinct queues stay so when a new element is added or the head is taken. */
  lemma DistinctEnds(q: seq<Mid>, m: Mid)
    requires Distinct(q)
    ensures m !in q ==> Distinct(q + [m]) && Distinct([m] + q)
    ensures q != [] ==> Distinct(q[1..]) && q[0] !in q[1..]
  {
  }

  lemma GetFreeGlobal(p: Port, t: Tid)
    requires GlobalInv(p) && t < |p.pcs| && p.pcs[t].Idle?
    ensures GlobalInv(GetFreeStep(p, t))
  {
    var p' := GetFreeStep(p, t);
    if p.freeList != [] { Moved(p, t, p'.pcs[t]); }
    assert Stamped(p', p'.queue) == Stamped(p, p.queue);
  }

  lemma FillGlobal(p: Port, t: Tid, desc: Body)
    requires GlobalInv(p) && t < |p.pcs| && p.pcs[t].Chosen?
    requires ThreadInv(p, t) && MessageInv(p, p.pcs[t].m)
    ensures GlobalInv(FillStep(p, t, desc))
  {
    var p' := FillStep(p, t, desc);
    Moved(p, t, p'.pcs[t]);
    assert Stamped(p', p'.queue) == Stamped(p, p.queue);
  }

  lemma EnqGlobal(p: Port, t: Tid)
    requires GlobalInv(p) && t < |p.pcs| && p.pcs[t].Filled?
    requires ThreadInv(p, t) && MessageInv(p, p.pcs[t].m)
    ensures GlobalInv(EnqStep(p, t))
  {
    var p' := EnqStep(p, t);
    Moved(p, t, p'.pcs[t]);
    DistinctEnds(p.queue, p.pcs[t].m);
    StampedPost(p, p', p.pcs[t].m);
  }

  lemma PutFreeGlobal(p: Port, t: Tid)
    requires GlobalInv(p) && t < |p.pcs| && p.pcs[t].Taken?
    requires ThreadInv(p, t) && MessageInv(p, p.pcs[t].m)
    ensures GlobalInv(PutFreeStep(p, t))
  {
    var p' := PutFreeStep(p, t);
    Moved(p, t, p'.pcs[t]);
    assert Stamped(p', p'.queue) == Stamped(p, p.queue);
  }

  /** The branch that finds an empty queue behind the gate cannot be reached. */
  lemma QueueNotEmpty(p: Port, t: Tid)
    requires Shaped(p) && GateInv(p) && t < |p.pcs| && p.pcs[t].Gate?
    ensures p.queue != []
  {
    CountUpdate(p.pcs, PastGate, t, Idle);
  }

  lemma TakeQueueSide(p: Port, t: Tid)
    requires Shaped(p) && t < |p.pcs| && p.pcs[t].Gate? && p.queue != []
    requires QueueSide(p) && Shaped(TakeStep(p, t))
    ensures QueueSide(TakeStep(p, t))
  {
    var p' := TakeStep(p, t);
    DistinctEnds(p.queue, 0);
    assert Stamped(p, p.queue) == [(p.queue[0], p.msgs[p.queue[0]].body)] + Stamped(p', p'.queue);
  }

  lemma TakeGlobal(p: Port, t: Tid)
    requires GlobalInv(p) && t < |p.pcs| && p.pcs[t].Gate? && p.queue != []
    ensures GlobalInv(TakeStep(p, t))
  {
    var p' := TakeStep(p, t);
    Moved(p, t, p'.pcs[t]);
    TakeQueueSide(p, t);
  }

  lemma ReadGlobal(p: Port, t: Tid)
    requires GlobalInv(p) && t < |p.pcs| && p.pcs[t].Got?
    ensures GlobalInv(ReadStep(p, t))
  {
    var p' := ReadStep(p, t);
    Moved(p, t, p'.pcs[t]);
    assert Stamped(p', p'.queue) == Stamped(p, p.queue);
  }

  /** The sends of m stay what was reported, lost and is pending. */
  lemma ClearSends(p: Port, t: Tid)
    requires Shaped(p) && SendsInv(p) && t < |p.pcs| && p.pcs[t].Counted?
    requires ThreadInv(p, t) && Shaped(ClearStep(p, t))
    ensures SendsInv(ClearStep(p, t))
  {
  }

  lemma ClearGlobal(p: Port, t: Tid)
    requires GlobalInv(p) && t < |p.pcs| && p.pcs[t].Counted?
    requires ThreadInv(p, t)
    ensures GlobalInv(ClearStep(p, t))
  {
    hide Inv, Late, SendsInv;
    var p' := ClearStep(p, t);
    ClearSends(p, t);
    Moved(p, t, p'.pcs[t]);
    assert Stamped(p', p'.queue) == Stamped(p, p.queue);
  }

  /** A P of semaphore s by thread t: the kernel side of the invariant. */
  lemma SleepGlobal(p: Port, s: nat, t: Tid, pc: Pc)
    requires Shaped(p) && Inv(p.k) && WaitersInv(p) && s < |p.k.semas|
    requires t < |p.pcs| && t in p.k.ready && t != p.k.idle && !p.pcs[t].BlockedRecv? && !p.pcs[t].BlockedSend?
    requires Blocks(p.k, s) ==> pc == if s == 0 then BlockedRecv else BlockedSend(s - 1)
    ensures Inv(SemaP(p.k, s, t)) && SemaP(p.k, s, t).threads == p.k.threads
    ensures var pcs', k' := p.pcs[t := pc], SemaP(p.k, s, t);
            forall r, i :: 0 <= r < |k'.semas| && 0 <= i < |k'.semas[r].waiters| ==>
              k'.semas[r].waiters[i] < |pcs'|
              && pcs'[k'.semas[r].waiters[i]] == if r == 0 then BlockedRecv else BlockedSend(r - 1)
  {
    PKeepsInv(p.k, s, t);
  }

  lemma AwaitGlobal(p: Port, t: Tid)
    requires GlobalInv(p) && Enabled(p, AwaitTaken(t))
    ensures GlobalInv(AwaitStep(p, t))
  {
    var p' := AwaitStep(p, t);
    SleepGlobal(p, p.pcs[t].m + 1, t, p'.pcs[t]);
    Moved(p, t, p'.pcs[t]);
    assert Stamped(p', p'.queue) == Stamped(p, p.queue);
  }

  lemma GateGlobal(p: Port, t: Tid)
    requires GlobalInv(p) && Enabled(p, EnterGate(t))
    ensures GlobalInv(GateStep(p, t))
  {
    var p' := GateStep(p, t);
    SleepGlobal(p, 0, t, p'.pcs[t]);
    Moved(p, t, p'.pcs[t]);
    assert Stamped(p', p'.queue) == Stamped(p, p.queue);
  }

  /** A V of semaphore s: the kernel side of the invariant, and the woken thread counted in. */
  lemma WakeKernelSide(p: Port, s: nat)
    requires KernelSide(p) && s < |p.k.semas|
    ensures KernelSide(Wake(p, s))
  {
    VKeepsInv(p.k, s);
    WakingIsWell(p, s);
    WakeWaiters(p, s);
  }

  lemma WakeWaiters(p: Port, s: nat)
    requires Shaped(p) && WaitersInv(p) && s < |p.k.semas| && WakesWell(p, s)
    ensures Shaped(Wake(p, s)) && WaitersInv(Wake(p, s)) && Wake(p, s).k.threads == p.k.threads
  {
    hide Without, Times, Waiting;
  }

  /** The V of recv that follows an enqueue closes the gap the enqueue opened. */
  lemma WakeGate(p: Port, s: nat)
    requires Shaped(p) && SemaInv(p.k.semas[0]) && s < |p.k.semas| && WakesWell(p, s) && Shaped(Wake(p, s))
    requires var c := p.k.semas[0].count;
             |p.queue| == (if c > 0 then c else 0) + Count(p.pcs, PastGate) + Count(p.pcs, BeforeV)
                          + (if s == 0 then 1 else 0)
    ensures GateInv(Wake(p, s))
  {
    var ws := p.k.semas[s].waiters;
    if ws != [] {
      CountUpdate(p.pcs, PastGate, ws[0], if s == 0 then Gate else Taken(s - 1));
      CountUpdate(p.pcs, BeforeV, ws[0], if s == 0 then Gate else Taken(s - 1));
    }
  }

  lemma MovedKernelSide(p: Port, p1: Port, t: Tid)
    requires KernelSide(p) && Shaped(p1) && p1.k == p.k && t < |p.pcs| == |p1.pcs|
    requires p1.pcs == p.pcs[t := p1.pcs[t]] && !p.pcs[t].BlockedRecv? && !p.pcs[t].BlockedSend?
    ensures KernelSide(p1)
  {
  }

  lemma SameQueueSide(p: Port, p': Port)
    requires Shaped(p) && QueueSide(p) && Shaped(p') && p'.msgs == p.msgs
    requires p'.queue == p.queue && p'.freeList == p.freeList && p'.entered == p.entered && p'.left == p.left
    requires p'.sends == p.sends && p'.reported == p.reported && p'.lost == p.lost
    ensures QueueSide(p')
  {
    assert Stamped(p', p'.queue) == Stamped(p, p.queue);
  }

  lemma SignalGlobal(p: Port, t: Tid)
    requires GlobalInv(p) && t < |p.pcs| && p.pcs[t].Enqueued?
    ensures GlobalInv(SignalStep(p, t))
  {
    var p1 := p.(pcs := p.pcs[t := Signalled(p.pcs[t].m)]);
    Moved(p, t, p1.pcs[t]);
    MovedKernelSide(p, p1, t);
    WakeKernelSide(p1, 0);
    WakingIsWell(p1, 0);
    WakeGate(p1, 0);
    SameQueueSide(p, Wake(p1, 0));
  }

  lemma FinishKernelSide(p: Port, p1: Port, t: Tid, s: nat)
    requires KernelSide(p) && t < |p.pcs| && p.pcs[t].Cleared? && s < |p.k.semas|
    requires p1 == p.(pcs := p.pcs[t := Idle], phase := p1.phase) && |p1.phase| == |p.phase|
    ensures KernelSide(p1) && KernelSide(Wake(p1, s)) && WakesWell(p1, s)
  {
    MovedKernelSide(p, p1, t);
    WakeKernelSide(p1, s);
    WakingIsWell(p1, s);
  }

  lemma FinishGlobal(p: Port, t: Tid)
    requires GlobalInv(p) && t < |p.pcs| && p.pcs[t].Cleared?
    ensures GlobalInv(FinishStep(p, t))
  {
    var m := p.pcs[t].m;
    var phase := if !p.msgs[m].irq && p.phase[m].Held? then p.phase[m := Released(p.phase[m].snd)] else p.phase;
    var p1 := p.(pcs := p.pcs[t := Idle], phase := phase);
    FinishKernelSide(p, p1, t, m + 1);
    FinishGate(p, p1, t);
    SameQueueSide(p, FinishStep(p, t));
  }

  lemma FinishGate(p: Port, p1: Port, t: Tid)
    requires Shaped(p) && GateInv(p) && SemaInv(p.k.semas[0]) && t < |p.pcs| && p.pcs[t].Cleared? && Shaped(p1)
    requires p1 == p.(pcs := p.pcs[t := Idle], phase := p1.phase)
    requires var m := p.pcs[t].m; WakesWell(p1, m + 1) && Shaped(Wake(p1, m + 1))
    ensures GateInv(p1) && GateInv(Wake(p1, p.pcs[t].m + 1))
  {
    Moved(p, t, Idle);
    WakeGate(p1, p.pcs[t].m + 1);
  }

  lemma InterruptQueueSide(p: Port, m: Mid)
    requires Shaped(p) && m < |p.msgs| && p.msgs[m].irq && MessageInv(p, m)
    requires QueueSide(p) && Shaped(InterruptStep(p, m))
    ensures QueueSide(InterruptStep(p, m))
  {
    var p' := InterruptStep(p, m);
    if p.msgs[m].qref == 0 {
      DistinctEnds(p.queue, m);
      StampedPost(p, p', m);
    } else {
      assert Stamped(p', p'.queue) == Stamped(p, p.queue);
    }
  }

  lemma InterruptGlobal(p: Port, m: Mid)
    requires GlobalInv(p) && m < |p.msgs| && p.msgs[m].irq && MessageInv(p, m)
    ensures GlobalInv(InterruptStep(p, m))
  {
    InterruptKernelSide(p, m);
    InterruptQueueSide(p, m);
  }

  function InterruptPost(p: Port, m: Mid): Port
    requires Shaped(p) && m < |p.msgs|
  {
    p.(msgs := p.msgs[m := p.msgs[m].(qref := p.msgs[m].qref + 1)], sends := p.sends[m := p.sends[m] + 1],
       hits := p.hits[m := p.hits[m] + if InWindow(p, m) then 1 else 0],
       queue := p.queue + [m], entered := p.entered + [(m, p.msgs[m].body)], phase := p.phase[m := IrqQueued])
  }

  lemma InterruptKernelSide(p: Port, m: Mid)
    requires KernelSide(p) && GateInv(p) && m < |p.msgs| && p.msgs[m].irq
    ensures KernelSide(InterruptStep(p, m)) && GateInv(InterruptStep(p, m))
  {
    if p.msgs[m].qref == 0 {
      var p1 := InterruptPost(p, m);
      SameKernelSide(p, p1);
      WakeKernelSide(p1, 0);
      WakingIsWell(p1, 0);
      WakeGate(p1, 0);
    }
  }

  lemma SameKernelSide(p: Port, p1: Port)
    requires KernelSide(p) && Shaped(p1) && p1.k == p.k && p1.pcs == p.pcs
    ensures KernelSide(p1)
  {
  }

  lemma StampedPost(p: Port, p': Port, m: Mid)
    requires Shaped(p) && m < |p.msgs| == |p'.msgs| && p'.queue == p.queue + [m]
    requires forall i :: 0 <= i < |p.msgs| ==> p'.msgs[i].body == p.msgs[i].body
    ensures Stamped(p', p'.queue) == Stamped(p, p.queue) + [(m, p.msgs[m].body)]
  {
  }

  lemma NextGlobal(p: Port, st: Step)
    requires PortInv(p) && Enabled(p, st)
    ensures GlobalInv(Next(p, st))
  {
    hide LocalInv, GetFreeStep, FillStep, EnqStep, SignalStep, AwaitStep, PutFreeStep, GateStep, TakeStep, ReadStep,
      ClearStep, FinishStep, InterruptStep;
    match st
    case GetFree(t) => GetFreeGlobal(p, t);
    case Fill(t, desc) => FillGlobal(p, t, desc);
    case Enq(t) => EnqGlobal(p, t);
    case SignalRecv(t) => SignalGlobal(p, t);
    case AwaitTaken(t) => AwaitGlobal(p, t);
    case PutFree(t) => PutFreeGlobal(p, t);
    case EnterGate(t) => GateGlobal(p, t);
    case TakeHead(t) => QueueNotEmpty(p, t); TakeGlobal(p, t);
    case ReadCount(t) => ReadGlobal(p, t);
    case ClearCount(t) => ClearGlobal(p, t);
    case Finish(t) => FinishGlobal(p, t);
    case Interrupt(m) => InterruptGlobal(p, m);
  }
}
