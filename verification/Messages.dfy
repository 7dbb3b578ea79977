/** The message protocol of src/kernel/kern/msg.c on one port, as a state machine.

    A step is what runs without another thread or an interrupt getting in between: one splhi
    section, one semaphore operation, or one access to a message field outside such a section.
    Any ready thread may take the next step, and an interrupt may send at any time. */
module Messages {
  import opened Common
  import opened Semaphores

  type Mid = nat
  type Byte = b: int | 0 <= b < 256

  const MSGBUF_MAX: nat := 32

  /** What a sender hands over: an id and possibly data. */
  datatype Body = Body(id: nat, data: Option<seq<Byte>>)

  datatype Message = Message(irq: bool, qref: nat, body: Body)

  /** Where a thread is in m_send / do_send (up to Taken) or in m_receive. */
  datatype Pc =
    | Idle
    | Chosen(m: Mid)                    // has a message from m_getfree
    | Filled(m: Mid)                    // has copied the data in and counted the reference
    | Enqueued(m: Mid)                  // before sema_v(recv)
    | Signalled(m: Mid)                 // before sema_p(lock)
    | BlockedSend(m: Mid)               // asleep in sema_p(lock)
    | Taken(m: Mid)                     // past sema_p(lock), before m_putfree
    | BlockedRecv                       // asleep in sema_p(recv)
    | Gate                              // past sema_p(recv), before taking the head
    | Got(m: Mid, b: Body)              // has taken m, which then carried b
    | Counted(m: Mid, b: Body, c: nat)  // has read the reference count c
    | Cleared(m: Mid, b: Body)          // has reset it

  /** History: who has a message. Irq messages have no sender that waits. */
  datatype Phase =
    | Free
    | Owned(snd: Tid)
    | Queued(snd: Tid)
    | Held(snd: Tid, r: Tid)
    | Released(snd: Tid)
    | IrqFree
    | IrqQueued
    | IrqHeld(r: Tid)

  /** queue is the port's message queue, freeList its free list. Semaphore 0 of the kernel is the
      port's recv, semaphore m + 1 the lock of message m. The fields from phase on are history. */
  datatype Port = Port(
    k: Kernel,
    pcs: seq<Pc>,
    msgs: seq<Message>,
    queue: seq<Mid>,
    freeList: seq<Mid>,
    phase: seq<Phase>,
    entered: seq<(Mid, Body)>,
    left: seq<(Mid, Body)>,
    sends: seq<nat>,
    reported: seq<nat>,
    lost: seq<nat>,
    hits: seq<nat>)

  // ----- steps

  datatype Step =
    | GetFree(t: Tid)               // m_send and do_send
    | Fill(t: Tid, desc: Body)
    | Enq(t: Tid)
    | SignalRecv(t: Tid)
    | AwaitTaken(t: Tid)
    | PutFree(t: Tid)
    | EnterGate(t: Tid)             // m_receive
    | TakeHead(t: Tid)
    | ReadCount(t: Tid)
    | ClearCount(t: Tid)
    | Finish(t: Tid)
    | Interrupt(m: Mid)             // do_send from an interrupt

  predicate Enabled(p: Port, st: Step) {
    match st
    case Interrupt(m) => m < |p.msgs| && p.msgs[m].irq
    case _ => st.t < |p.pcs| && st.t in p.k.ready && st.t != p.k.idle && AtStep(p.pcs[st.t], st)
  }

  predicate AtStep(pc: Pc, st: Step) {
    match st
    case GetFree(_) => pc.Idle?
    case Fill(_, _) => pc.Chosen?
    case Enq(_) => pc.Filled?
    case SignalRecv(_) => pc.Enqueued?
    case AwaitTaken(_) => pc.Signalled?
    case PutFree(_) => pc.Taken?
    case EnterGate(_) => pc.Idle?
    case TakeHead(_) => pc.Gate?
    case ReadCount(_) => pc.Got?
    case ClearCount(_) => pc.Counted?
    case Finish(_) => pc.Cleared?
    case Interrupt(_) => false
  }

  predicate HasMessage(pc: Pc) {
    !pc.Idle? && !pc.BlockedRecv? && !pc.Gate?
  }

  /** All indices are in range. */
  predicate Shaped(p: Port) {
    && |p.k.semas| == |p.msgs| + 1
    && |p.phase| == |p.sends| == |p.reported| == |p.lost| == |p.hits| == |p.msgs|
    && (forall i :: 0 <= i < |p.queue| ==> p.queue[i] < |p.msgs|)
    && (forall i :: 0 <= i < |p.freeList| ==> p.freeList[i] < |p.msgs|)
    && (forall t :: 0 <= t < |p.pcs| && HasMessage(p.pcs[t]) ==> p.pcs[t].m < |p.msgs|)
    && (forall s, i :: 0 <= s < |p.k.semas| && 0 <= i < |p.k.semas[s].waiters| ==> p.k.semas[s].waiters[i] < |p.pcs|)
  }

  /** The part of count q that came after it was read as c. */
  function Late(q: nat, c: nat): nat { if q > c then q - c else 0 }

  /** Some receiver has read the count of m and not yet reset it. */
  predicate InWindow(p: Port, m: Mid)
    requires Shaped(p) && m < |p.msgs|
  {
    p.phase[m].IrqHeld? && p.phase[m].r < |p.pcs| && p.pcs[p.phase[m].r].Counted?
  }

  /** m_send's copy: at most MSGBUF_MAX bytes. */
  function Copied(desc: Body): Body {
    if desc.data == None then desc
    else Body(desc.id, Some(if |desc.data.value| > MSGBUF_MAX then desc.data.value[..MSGBUF_MAX] else desc.data.value))
  }

  /** sema_v: the thread woken, if any, goes on behind its sema_p. */
  function Wake(p: Port, s: nat): Port
    requires s < |p.k.semas|
    requires p.k.semas[s].waiters != [] ==> p.k.semas[s].waiters[0] < |p.pcs|
  {
    var ws := p.k.semas[s].waiters;
    p.(k := SemaV(p.k, s),
       pcs := if ws == [] then p.pcs else p.pcs[ws[0] := if s == 0 then Gate else Taken(s - 1)])
  }

  function GetFreeStep(p: Port, t: Tid): Port
    requires Shaped(p) && t < |p.pcs|
  {
    if p.freeList == [] then p
    else
      var m := p.freeList[0];
      p.(freeList := p.freeList[1..], pcs := p.pcs[t := Chosen(m)], phase := p.phase[m := Owned(t)])
  }

  function FillStep(p: Port, t: Tid, desc: Body): Port
    requires Shaped(p) && t < |p.pcs| && p.pcs[t].Chosen?
  {
    var m := p.pcs[t].m;
    var msg := p.msgs[m].(body := Copied(desc), qref := p.msgs[m].qref + 1);
    p.(msgs := p.msgs[m := msg], pcs := p.pcs[t := if msg.qref > 1 then Idle else Filled(m)])
  }

  function EnqStep(p: Port, t: Tid): Port
    requires Shaped(p) && t < |p.pcs| && p.pcs[t].Filled?
  {
    var m := p.pcs[t].m;
    p.(queue := p.queue + [m], entered := p.entered + [(m, p.msgs[m].body)],
       pcs := p.pcs[t := Enqueued(m)], phase := p.phase[m := Queued(t)])
  }

  function SignalStep(p: Port, t: Tid): Port
    requires Shaped(p) && t < |p.pcs| && p.pcs[t].Enqueued?
  {
    Wake(p.(pcs := p.pcs[t := Signalled(p.pcs[t].m)]), 0)
  }

  function AwaitStep(p: Port, t: Tid): Port
    requires Shaped(p) && t < |p.pcs| && p.pcs[t].Signalled?
  {
    var m := p.pcs[t].m;
    p.(k := SemaP(p.k, m + 1, t), pcs := p.pcs[t := if Blocks(p.k, m + 1) then BlockedSend(m) else Taken(m)])
  }

  function PutFreeStep(p: Port, t: Tid): Port
    requires Shaped(p) && t < |p.pcs| && p.pcs[t].Taken?
  {
    var m := p.pcs[t].m;
    p.(freeList := [m] + p.freeList, pcs := p.pcs[t := Idle], phase := p.phase[m := Free])
  }

  function GateStep(p: Port, t: Tid): Port
    requires Shaped(p) && t < |p.pcs|
  {
    p.(k := SemaP(p.k, 0, t), pcs := p.pcs[t := if Blocks(p.k, 0) then BlockedRecv else Gate])
  }

  function TakeStep(p: Port, t: Tid): Port
    requires Shaped(p) && t < |p.pcs|
  {
    if p.queue == [] then p.(pcs := p.pcs[t := Idle])
    else
      var m := p.queue[0];
      var b := p.msgs[m].body;
      p.(queue := p.queue[1..], left := p.left + [(m, b)], pcs := p.pcs[t := Got(m, b)],
         phase := p.phase[m := if p.phase[m].Queued? then Held(p.phase[m].snd, t) else IrqHeld(t)])
  }

  function ReadStep(p: Port, t: Tid): Port
    requires Shaped(p) && t < |p.pcs| && p.pcs[t].Got?
  {
    var m := p.pcs[t].m;
    p.(pcs := p.pcs[t := Counted(m, p.pcs[t].b, p.msgs[m].qref)])
  }

  function ClearStep(p: Port, t: Tid): Port
    requires Shaped(p) && t < |p.pcs| && p.pcs[t].Counted?
  {
    var m, c := p.pcs[t].m, p.pcs[t].c;
    var q := p.msgs[m].qref;
    var p' := p.(msgs := p.msgs[m := p.msgs[m].(qref := 0)], pcs := p.pcs[t := Cleared(m, p.pcs[t].b)]);
    if p.msgs[m].irq then
      p'.(reported := p.reported[m := p.reported[m] + c],
          lost := p.lost[m := p.lost[m] + Late(q, c)], phase := p.phase[m := IrqFree])
    else p'
  }

  function FinishStep(p: Port, t: Tid): Port
    requires Shaped(p) && t < |p.pcs| && p.pcs[t].Cleared?
  {
    var m := p.pcs[t].m;
    if p.msgs[m].irq then p.(pcs := p.pcs[t := Idle])
    else
      var phase := if p.phase[m].Held? then p.phase[m := Released(p.phase[m].snd)] else p.phase;
      Wake(p.(pcs := p.pcs[t := Idle], phase := phase), m + 1)
  }

  /** do_send of an interrupt message: all of it at splhi. */
  function InterruptStep(p: Port, m: Mid): Port
    requires Shaped(p) && m < |p.msgs|
  {
    var msg := p.msgs[m].(qref := p.msgs[m].qref + 1);
    var p' := p.(msgs := p.msgs[m := msg], sends := p.sends[m := p.sends[m] + 1],
                 hits := p.hits[m := p.hits[m] + if InWindow(p, m) then 1 else 0]);
    if msg.qref > 1 then p'
    else
      Wake(p'.(queue := p.queue + [m], entered := p.entered + [(m, msg.body)], phase := p.phase[m := IrqQueued]), 0)
  }

  function Next(p: Port, st: Step): Port
    requires Shaped(p) && Enabled(p, st)
  {
    match st
    case GetFree(t) => GetFreeStep(p, t)
    case Fill(t, desc) => FillStep(p, t, desc)
    case Enq(t) => EnqStep(p, t)
    case SignalRecv(t) => SignalStep(p, t)
    case AwaitTaken(t) => AwaitStep(p, t)
    case PutFree(t) => PutFreeStep(p, t)
    case EnterGate(t) => GateStep(p, t)
    case TakeHead(t) => TakeStep(p, t)
    case ReadCount(t) => ReadStep(p, t)
    case ClearCount(t) => ClearStep(p, t)
    case Finish(t) => FinishStep(p, t)
    case Interrupt(m) => InterruptStep(p, m)
  }
}

/** What holds of the port in every reachable state. */
module MessageInvariant {
  import opened Common
  import opened Semaphores
  import opened Messages

  ghost function Count(pcs: seq<Pc>, f: Pc -> bool): nat {
    if pcs == [] then 0 else Count(pcs[..|pcs| - 1], f) + if f(pcs[|pcs| - 1]) then 1 else 0
  }

  lemma {:induction false} CountUpdate(pcs: seq<Pc>, f: Pc -> bool, t: Tid, pc: Pc)
    requires t < |pcs|
    ensures Count(pcs[t := pc], f) + (if f(pcs[t]) then 1 else 0) == Count(pcs, f) + (if f(pc) then 1 else 0)
  {
    var last := |pcs| - 1;
    if t == last {
      assert pcs[t := pc][..last] == pcs[..last];
    } else {
      CountUpdate(pcs[..last], f, t, pc);
      assert pcs[t := pc][..last] == pcs[..last][t := pc];
    }
  }

  predicate PastGate(pc: Pc) { pc.Gate? }

  predicate BeforeV(pc: Pc) { pc.Enqueued? }

  /** Thread t is the sender of a message that is queued or in a receiver's hands. */
  ghost predicate Sends(ph: Phase, t: Tid) {
    (ph.Queued? || ph.Held?) && ph.snd == t
  }

  /** What the position of thread t says about its message and about the wait queues. */
  ghost predicate ThreadInv(p: Port, t: Tid)
    requires Shaped(p) && t < |p.pcs|
  {
    var pc := p.pcs[t];
    && (pc.BlockedRecv? ==> t in p.k.semas[0].waiters)
    && (HasMessage(pc) ==>
          var m := pc.m; var ph := p.phase[m];
          match pc
          case Chosen(_) => ph == Owned(t)
          case Filled(_) => ph == Owned(t)
          case Enqueued(_) => Sends(ph, t) || ph == Released(t)
          case Signalled(_) => Sends(ph, t) || ph == Released(t)
          case BlockedSend(_) => Sends(ph, t) && t in p.k.semas[m + 1].waiters
          case Taken(_) => ph == Released(t)
          case Got(_, b) => Holds(p, t, m, b)
          case Counted(_, b, c) => Holds(p, t, m, b) && c <= p.msgs[m].qref
          case Cleared(_, b) => p.msgs[m].irq || Holds(p, t, m, b)
          case _ => true)
  }

  ghost predicate Holds(p: Port, t: Tid, m: Mid, b: Body)
    requires Shaped(p) && m < |p.msgs|
  {
    && p.msgs[m].body == b
    && if p.msgs[m].irq then p.phase[m] == IrqHeld(t) else p.phase[m].Held? && p.phase[m].r == t
  }

  /** Who waits on a semaphore is asleep in its sema_p. */
  ghost predicate WaitersInv(p: Port)
    requires Shaped(p)
  {
    forall s, i :: 0 <= s < |p.k.semas| && 0 <= i < |p.k.semas[s].waiters| ==>
      p.pcs[p.k.semas[s].waiters[i]] == if s == 0 then BlockedRecv else BlockedSend(s - 1)
  }

  /** Interrupt notifications are counted, pending or, only when they hit the reset, lost. */
  ghost predicate SendsInv(p: Port)
    requires Shaped(p)
  {
    forall m :: 0 <= m < |p.msgs| ==>
      p.sends[m] == p.reported[m] + p.lost[m] + (if p.msgs[m].irq then p.msgs[m].qref else 0)
  }

  /** What the phase of message m says about the threads, its count and its lock. */
  ghost predicate MessageInv(p: Port, m: Mid)
    requires Shaped(p) && m < |p.msgs|
  {
    var ph, msg, count := p.phase[m], p.msgs[m], p.k.semas[m + 1].count;
    && (msg.irq <==> ph.IrqFree? || ph.IrqQueued? || ph.IrqHeld?)
    && (m in p.queue <==> ph.Queued? || ph.IrqQueued?)
    && (m in p.freeList <==> ph.Free?)
    && (msg.irq ==> p.hits[m] == p.lost[m] + if InWindow(p, m) then Late(msg.qref, p.pcs[ph.r].c) else 0)
    && match ph
       case Free => msg.qref == 0 && count == 0
       case Owned(t) => t < |p.pcs| && count == 0
                        && ((p.pcs[t] == Chosen(m) && msg.qref == 0) || (p.pcs[t] == Filled(m) && msg.qref == 1))
       case Queued(t) => msg.qref == 1 && t < |p.pcs| && SenderWaits(p.pcs[t], m, count)
       case Held(t, r) => t < |p.pcs| && SenderWaits(p.pcs[t], m, count)
                          && r < |p.pcs| && HoldsNow(p.pcs[r], m) && msg.qref == (if p.pcs[r].Cleared? then 0 else 1)
       case Released(t) => msg.qref == 0 && t < |p.pcs|
                           && ((p.pcs[t] == Taken(m) && count == 0)
                               || (p.pcs[t] in {Enqueued(m), Signalled(m)} && count == 1))
       case IrqFree => msg.qref == 0 && count == 0
       case IrqQueued => msg.qref >= 1 && count == 0
       case IrqHeld(r) => msg.qref >= 1 && count == 0
                          && r < |p.pcs| && HoldsNow(p.pcs[r], m) && !p.pcs[r].Cleared?
  }

  ghost predicate SenderWaits(pc: Pc, m: Mid, count: int) {
    || (pc == BlockedSend(m) && count == -1)
    || (pc in {Enqueued(m), Signalled(m)} && count == 0)
  }

  ghost predicate HoldsNow(pc: Pc, m: Mid) {
    (pc.Got? || pc.Counted? || pc.Cleared?) && pc.m == m
  }

  function Stamped(p: Port, q: seq<Mid>): seq<(Mid, Body)>
    requires forall i :: 0 <= i < |q| ==> q[i] < |p.msgs|
  {
    seq(|q|, i requires 0 <= i < |q| => (q[i], p.msgs[q[i]].body))
  }

  /** Queued messages = surplus of recv + receivers past the gate + senders between enqueue and V. */
  ghost predicate GateInv(p: Port)
    requires Shaped(p)
  {
    var c := p.k.semas[0].count;
    |p.queue| == (if c > 0 then c else 0) + Count(p.pcs, PastGate) + Count(p.pcs, BeforeV)
  }

  ghost predicate KernelSide(p: Port) {
    && Shaped(p) && Inv(p.k)
    && (forall t: Tid :: t in p.k.threads <==> t < |p.pcs|)
    && WaitersInv(p)
  }

  ghost predicate QueueSide(p: Port)
    requires Shaped(p)
  {
    && Distinct(p.queue) && Distinct(p.freeList)
    && SendsInv(p)
    && p.entered == p.left + Stamped(p, p.queue)
  }

  ghost predicate GlobalInv(p: Port) {
    KernelSide(p) && QueueSide(p) && GateInv(p)
  }

  ghost predicate PortInv(p: Port) {
    && GlobalInv(p)
    && (forall t :: 0 <= t < |p.pcs| ==> ThreadInv(p, t))
    && (forall m :: 0 <= m < |p.msgs| ==> MessageInv(p, m))
  }

  ghost predicate LocalInv(p: Port)
    requires Shaped(p)
  {
    && (forall t :: 0 <= t < |p.pcs| ==> ThreadInv(p, t))
    && (forall m :: 0 <= m < |p.msgs| ==> MessageInv(p, m))
  }
}
