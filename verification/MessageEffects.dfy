/** What each step of the port's protocol does in a reachable state, and what a send and a receive come to. */
module MessageEffects {
  import opened Semaphores
  import opened Messages
  import opened MessageInvariant
  import opened MessageGlobals

  lemma ShapeOf(p: Port)
    requires PortInv(p)
    ensures Shaped(p)
  {
  }

  /** m_send gets a message exactly if one is free: then it is the sender's, and free no more. */
  lemma GetFreeGets(p: Port, t: Tid)
    requires PortInv(p) && Enabled(p, GetFree(t))
    ensures var p' := Next(p, GetFree(t));
            && (p' == p <==> p.freeList == [])
            && (p.freeList != [] ==>
                  && t < |p'.pcs| && p'.pcs[t].Chosen? && p'.pcs[t].m in p.freeList && p'.pcs[t].m !in p'.freeList
                  && p.freeList == [p'.pcs[t].m] + p'.freeList && p'.pcs == p.pcs[t := p'.pcs[t]])
  {
    hide Inv, ThreadInv, MessageInv, GateInv, WaitersInv;
    if p.freeList != [] {
      assert p.freeList == [p.freeList[0]] + p.freeList[1..];
    }
  }

  /** The message is filled with the copy and counted once: the branch for a count above 1 is the interrupts'. */
  lemma FillFills(p: Port, t: Tid, desc: Body)
    requires PortInv(p) && Enabled(p, Fill(t, desc))
    ensures var (p', m) := (Next(p, Fill(t, desc)), p.pcs[t].m);
            && m < |p.msgs| && p'.pcs == p.pcs[t := Filled(m)]
            && p'.msgs == p.msgs[m := Message(false, 1, Copied(desc))]
            && p'.queue == p.queue && p'.freeList == p.freeList
  {
    ShapeOf(p);
    assert ThreadInv(p, t) && MessageInv(p, p.pcs[t].m);
  }

  lemma EnqPosts(p: Port, t: Tid)
    requires PortInv(p) && Enabled(p, Enq(t))
    ensures var (p', m) := (Next(p, Enq(t)), p.pcs[t].m);
            && m < |p.msgs| && p'.pcs == p.pcs[t := Enqueued(m)] && p'.queue == p.queue + [m]
            && p'.entered == p.entered + [(m, p.msgs[m].body)] && p'.msgs == p.msgs && p'.freeList == p.freeList
  {
    ShapeOf(p);
  }

  /** The receiver that has slept longest goes past the gate; if none sleeps, one more may. */
  lemma SignalWakes(p: Port, t: Tid)
    requires PortInv(p) && Enabled(p, SignalRecv(t))
    ensures Shaped(p) && p.k.semas != []
    ensures var (p', ws) := (Next(p, SignalRecv(t)), p.k.semas[0].waiters);
            && p'.k.semas != [] && p'.k.semas[0].count == p.k.semas[0].count + 1
            && (ws == [] ==> p'.pcs == p.pcs[t := Signalled(p.pcs[t].m)] && p'.k.ready == p.k.ready)
            && (ws != [] ==>
                  && ws[0] < |p.pcs| && p'.pcs == p.pcs[t := Signalled(p.pcs[t].m)][ws[0] := Gate]
                  && p'.k.ready == p.k.ready + [ws[0]])
  {
    hide SemaV, Inv, ThreadInv, MessageInv, GateInv, QueueSide;
    ShapeOf(p);
    VEffect(p.k, 0);
  }

  /** A sender sleeps exactly if the receiver of its message has not finished with it. */
  lemma AwaitWaits(p: Port, t: Tid)
    requires PortInv(p) && Enabled(p, AwaitTaken(t))
    ensures var (p', m) := (Next(p, AwaitTaken(t)), p.pcs[t].m);
            && m < |p.phase| && p'.pcs == p.pcs[t := if p.phase[m].Released? then Taken(m) else BlockedSend(m)]
            && (t in p'.k.ready <==> p.phase[m].Released?)
  {
    hide SemaP, GateInv, QueueSide;
    ShapeOf(p);
    assert ThreadInv(p, t) && MessageInv(p, p.pcs[t].m);
    PEffect(p.k, p.pcs[t].m + 1, t);
  }

  lemma PutFreeReturns(p: Port, t: Tid)
    requires PortInv(p) && Enabled(p, PutFree(t))
    ensures var p' := Next(p, PutFree(t));
            && p'.pcs == p.pcs[t := Idle] && p'.freeList == [p.pcs[t].m] + p.freeList && p'.queue == p.queue
  {
    ShapeOf(p);
  }

  /** A receiver goes past the gate exactly if a message is there for it, else it sleeps. */
  lemma GateOpens(p: Port, t: Tid)
    requires PortInv(p) && Enabled(p, EnterGate(t))
    ensures Shaped(p) && p.k.semas != []
    ensures var (p', free) := (Next(p, EnterGate(t)), |p.queue| > Count(p.pcs, PastGate) + Count(p.pcs, BeforeV));
            p'.pcs == p.pcs[t := if free then Gate else BlockedRecv] && (t in p'.k.ready <==> free)
  {
    hide SemaP, ThreadInv, MessageInv, QueueSide;
    ShapeOf(p);
    PEffect(p.k, 0, t);
  }

  lemma TakeTakes(p: Port, t: Tid)
    requires PortInv(p) && Enabled(p, TakeHead(t))
    ensures p.queue != [] && p.queue[0] < |p.msgs|
    ensures var (p', m) := (Next(p, TakeHead(t)), p.queue[0]);
            && p'.pcs == p.pcs[t := Got(m, p.msgs[m].body)] && p'.queue == p.queue[1..]
            && p'.left == p.left + [(m, p.msgs[m].body)] && p'.msgs == p.msgs && p'.freeList == p.freeList
  {
    hide Inv, ThreadInv, MessageInv;
    ShapeOf(p);
    QueueNotEmpty(p, t);
  }

  /** The two instructions of lines 240 and 241: what is reported of an interrupt is what was read. */
  lemma CountIsRead(p: Port, t: Tid)
    requires PortInv(p) && t < |p.pcs|
    ensures Enabled(p, ReadCount(t)) ==>
              var m := p.pcs[t].m;
              m < |p.msgs| && Next(p, ReadCount(t)) == p.(pcs := p.pcs[t := Counted(m, p.pcs[t].b, p.msgs[m].qref)])
    ensures Enabled(p, ClearCount(t)) ==>
              var (p', m) := (Next(p, ClearCount(t)), p.pcs[t].m);
              && m < |p.msgs| == |p.reported| && p'.msgs == p.msgs[m := p.msgs[m].(qref := 0)]
              && p'.pcs == p.pcs[t := Cleared(m, p.pcs[t].b)]
              && p'.reported == if p.msgs[m].irq then p.reported[m := p.reported[m] + p.pcs[t].c] else p.reported
  {
    ShapeOf(p);
  }

  lemma SenderOf(p: Port, t: Tid)
    requires PortInv(p) && Enabled(p, Finish(t)) && p.pcs[t].m < |p.msgs| && !p.msgs[p.pcs[t].m].irq
    ensures Shaped(p)
    ensures var ph := p.phase[p.pcs[t].m]; ph.Held? && ph.snd < |p.pcs| && ph.snd != t
  {
    hide Inv, GateInv, QueueSide;
    ShapeOf(p);
    assert ThreadInv(p, t) && MessageInv(p, p.pcs[t].m);
  }

  lemma OnlyWaiter(p: Port, m: Mid)
    requires PortInv(p) && m < |p.msgs|
    ensures Shaped(p)
    ensures p.phase[m].Held? && p.phase[m].snd < |p.pcs| ==>
              p.k.semas[m + 1].waiters == if p.pcs[p.phase[m].snd].BlockedSend? then [p.phase[m].snd] else []
  {
    ShapeOf(p);
    assert MessageInv(p, m) && SemaInv(p.k.semas[m + 1]);
    if p.phase[m].Held? { assert ThreadInv(p, p.phase[m].snd); }
  }

  /** With the receiver's last step the sender goes on if it sleeps, and need not sleep if it does not yet. */
  lemma FinishReleases(p: Port, t: Tid)
    requires PortInv(p) && Enabled(p, Finish(t)) && p.pcs[t].m < |p.msgs| && !p.msgs[p.pcs[t].m].irq
    ensures Shaped(p) && p.phase[p.pcs[t].m].Held? && p.phase[p.pcs[t].m].snd < |p.pcs|
    ensures var (p', m) := (Next(p, Finish(t)), p.pcs[t].m);
            var u := p.phase[m].snd;
            && u != t && m < |p'.phase| && p'.phase[m] == Released(u)
            && p'.pcs == p.pcs[t := Idle][u := if p.pcs[u].BlockedSend? then Taken(m) else p.pcs[u]]
            && (p.pcs[u].BlockedSend? ==> p'.k.ready == p.k.ready + [u])
  {
    hide SemaV, Inv, GateInv, QueueSide, ThreadInv, MessageInv;
    ShapeOf(p);
    SenderOf(p, t);
    OnlyWaiter(p, p.pcs[t].m);
    VEffect(p.k, p.pcs[t].m + 1);
  }

  /** An interrupt counts, and queues its message just if it is not pending; then it wakes as a sender does. */
  lemma InterruptCounts(p: Port, m: Mid)
    requires PortInv(p) && Enabled(p, Interrupt(m))
    ensures Shaped(p) && p.k.semas != []
    ensures var (p', ws) := (Next(p, Interrupt(m)), p.k.semas[0].waiters);
            && p'.msgs == p.msgs[m := p.msgs[m].(qref := p.msgs[m].qref + 1)]
            && p'.sends == p.sends[m := p.sends[m] + 1] && p'.freeList == p.freeList
            && (p.msgs[m].qref > 0 ==> p'.queue == p.queue && p'.pcs == p.pcs && p'.k == p.k)
            && (p.msgs[m].qref == 0 ==>
                  && p'.queue == p.queue + [m] && p'.entered == p.entered + [(m, p.msgs[m].body)]
                  && p'.k.semas != [] && p'.k.semas[0].count == p.k.semas[0].count + 1
                  && (ws == [] ==> p'.pcs == p.pcs && p'.k.ready == p.k.ready)
                  && (ws != [] ==>
                        ws[0] < |p.pcs| && p'.pcs == p.pcs[ws[0] := Gate] && p'.k.ready == p.k.ready + [ws[0]]))
  {
    hide SemaV, Inv, ThreadInv, MessageInv, GateInv, QueueSide;
    ShapeOf(p);
    VEffect(p.k, 0);
  }
}

/** One whole exchange over a port, step by step: what a send and a receive come to, in either order. */
module MessageExchange {
  import opened Semaphores
  import opened Messages
  import opened MessageInvariant
  import opened MessageRuns

  /** Thread t can run and is not in the port. */
  ghost predicate Outside(p: Port, t: Tid) {
    t < |p.pcs| && p.pcs[t] == Idle && t in p.k.ready && t != p.k.idle
  }

  /** A message is free, and nothing is on its way. */
  ghost predicate Quiet(p: Port, t: Tid, r: Tid) {
    && PortInv(p) && Shaped(p) && t != r && Outside(p, t) && Outside(p, r)
    && p.freeList != [] && p.queue == [] && p.k.semas[0].count == 0
  }

  /** Where sender, receiver and message are, and the counts of recv and of the message's lock. */
  datatype Scene = Scene(
    sender: Pc,
    receiver: Pc,
    msg: Message,
    queue: seq<Mid>,
    freeList: seq<Mid>,
    recv: int,
    lock: int,
    entered: seq<(Mid, Body)>,
    left: seq<(Mid, Body)>)

  /** What the exchange comes to: the receiver has had the copy of what was sent, sender and receiver are out
      of the port, and the port is as it was. */
  ghost predicate Exchanged(p: Port, p': Port, m: Mid, desc: Body) {
    && p'.left == p.left + [(m, Copied(desc))] && p'.entered == p.entered + [(m, Copied(desc))]
    && p'.pcs == p.pcs && p'.queue == [] && p'.freeList == p.freeList
    && m < |p.msgs| && p'.msgs == p.msgs[m := Message(false, 0, Copied(desc))]
    && |p'.k.semas| == |p.msgs| + 1 && p'.k.semas[0].count == 0 && p'.k.semas[m + 1].count == 0
  }

  /** The exchange of message m has come that far; p0 is where it began. */
  ghost predicate Come(p0: Port, t: Tid, r: Tid, m: Mid, p: Port, v: Scene) {
    && PortInv(p) && Shaped(p) && Shaped(p0) && m < |p0.msgs| && t < |p0.pcs| && r < |p0.pcs| && t != r
    && p.pcs == p0.pcs[t := v.sender][r := v.receiver] && p.msgs == p0.msgs[m := v.msg] && !v.msg.irq
    && p.queue == v.queue && p.freeList == v.freeList && p.entered == v.entered && p.left == v.left
    && p.sends == p0.sends && p.reported == p0.reported && p.lost == p0.lost
    && p.k.semas[0].count == v.recv && p.k.semas[m + 1].count == v.lock
    && p.k.semas[0].waiters == (if v.receiver.BlockedRecv? then [r] else [])
    && p.k.semas[m + 1].waiters == (if v.sender.BlockedSend? then [t] else [])
    && t != p.k.idle && r != p.k.idle
    && (t in p.k.ready <==> !v.sender.BlockedSend?) && (r in p.k.ready <==> !v.receiver.BlockedRecv?)
  }

  /** Where it begins, and where it ends: only the body of the message and the history are other. */
  function Begun(p0: Port, m: Mid): Scene
    requires m < |p0.msgs|
  {
    Scene(Idle, Idle, p0.msgs[m], [], p0.freeList, 0, 0, p0.entered, p0.left)
  }

  function Done(p0: Port, m: Mid, b: Body): Scene
    requires m < |p0.msgs|
  {
    Scene(Idle, Idle, Message(false, 0, b), [], p0.freeList, 0, 0, p0.entered + [(m, b)], p0.left + [(m, b)])
  }

  lemma BeginsQuiet(p: Port, t: Tid, r: Tid)
    requires Quiet(p, t, r)
    ensures var m := p.freeList[0];
            m < |p.msgs| && Come(p, t, r, m, p, Begun(p, m)) && p.msgs[m].qref == 0
  {
    var m := p.freeList[0];
    assert MessageInv(p, m);
    assert SemaInv(p.k.semas[0]) && SemaInv(p.k.semas[m + 1]);
  }

  lemma GetFreeComes(p0: Port, t: Tid, r: Tid, m: Mid, p: Port, v: Scene)
    requires Come(p0, t, r, m, p, v) && v.sender == Idle && v.freeList != [] && v.freeList[0] == m
    ensures Enabled(p, GetFree(t))
            && Come(p0, t, r, m, Next(p, GetFree(t)), v.(sender := Chosen(m), freeList := v.freeList[1..]))
  {
    hide Inv, ThreadInv, MessageInv, QueueSide, GateInv, WaitersInv;
    NextKeepsInv(p, GetFree(t));
  }

  lemma FillComes(p0: Port, t: Tid, r: Tid, m: Mid, p: Port, v: Scene, desc: Body)
    requires Come(p0, t, r, m, p, v) && v.sender == Chosen(m) && v.msg.qref == 0
    ensures Enabled(p, Fill(t, desc))
            && Come(p0, t, r, m, Next(p, Fill(t, desc)),
                    v.(sender := Filled(m), msg := Message(false, 1, Copied(desc))))
  {
    hide Inv, ThreadInv, MessageInv, QueueSide, GateInv, WaitersInv;
    NextKeepsInv(p, Fill(t, desc));
  }

  lemma EnqComes(p0: Port, t: Tid, r: Tid, m: Mid, p: Port, v: Scene)
    requires Come(p0, t, r, m, p, v) && v.sender == Filled(m)
    ensures Enabled(p, Enq(t))
            && Come(p0, t, r, m, Next(p, Enq(t)),
                    v.(sender := Enqueued(m), queue := v.queue + [m], entered := v.entered + [(m, v.msg.body)]))
  {
    hide Inv, ThreadInv, MessageInv, QueueSide, GateInv, WaitersInv;
    NextKeepsInv(p, Enq(t));
  }

  /** With the receiver asleep the V wakes it, else it counts. */
  lemma SignalComes(p0: Port, t: Tid, r: Tid, m: Mid, p: Port, v: Scene)
    requires Come(p0, t, r, m, p, v) && v.sender == Enqueued(m)
    ensures Enabled(p, SignalRecv(t))
            && Come(p0, t, r, m, Next(p, SignalRecv(t)),
                    v.(sender := Signalled(m), recv := v.recv + 1,
                       receiver := if v.receiver.BlockedRecv? then Gate else v.receiver))
  {
    hide Inv, ThreadInv, MessageInv, QueueSide, GateInv, WaitersInv, SemaV;
    NextKeepsInv(p, SignalRecv(t));
    VEffect(p.k, 0);
  }

  lemma AwaitComes(p0: Port, t: Tid, r: Tid, m: Mid, p: Port, v: Scene)
    requires Come(p0, t, r, m, p, v) && v.sender == Signalled(m)
    ensures Enabled(p, AwaitTaken(t))
            && Come(p0, t, r, m, Next(p, AwaitTaken(t)),
                    v.(sender := if v.lock > 0 then Taken(m) else BlockedSend(m), lock := v.lock - 1))
  {
    hide Inv, ThreadInv, MessageInv, QueueSide, GateInv, WaitersInv, SemaP;
    NextKeepsInv(p, AwaitTaken(t));
    PEffect(p.k, m + 1, t);
  }

  lemma PutFreeComes(p0: Port, t: Tid, r: Tid, m: Mid, p: Port, v: Scene)
    requires Come(p0, t, r, m, p, v) && v.sender == Taken(m)
    ensures Enabled(p, PutFree(t))
            && Come(p0, t, r, m, Next(p, PutFree(t)), v.(sender := Idle, freeList := [m] + v.freeList))
  {
    hide Inv, ThreadInv, MessageInv, QueueSide, GateInv, WaitersInv;
    NextKeepsInv(p, PutFree(t));
  }

  lemma GateComes(p0: Port, t: Tid, r: Tid, m: Mid, p: Port, v: Scene)
    requires Come(p0, t, r, m, p, v) && v.receiver == Idle
    ensures Enabled(p, EnterGate(r))
            && Come(p0, t, r, m, Next(p, EnterGate(r)),
                    v.(receiver := if v.recv > 0 then Gate else BlockedRecv, recv := v.recv - 1))
  {
    hide Inv, ThreadInv, MessageInv, QueueSide, GateInv, WaitersInv, SemaP;
    NextKeepsInv(p, EnterGate(r));
    PEffect(p.k, 0, r);
  }

  lemma TakeComes(p0: Port, t: Tid, r: Tid, m: Mid, p: Port, v: Scene)
    requires Come(p0, t, r, m, p, v) && v.receiver == Gate && v.queue == [m]
    ensures Enabled(p, TakeHead(r))
            && Come(p0, t, r, m, Next(p, TakeHead(r)),
                    v.(receiver := Got(m, v.msg.body), queue := [], left := v.left + [(m, v.msg.body)]))
  {
    hide Inv, ThreadInv, MessageInv, QueueSide, GateInv, WaitersInv;
    NextKeepsInv(p, TakeHead(r));
  }

  lemma ReadComes(p0: Port, t: Tid, r: Tid, m: Mid, p: Port, v: Scene)
    requires Come(p0, t, r, m, p, v) && v.receiver == Got(m, v.msg.body)
    ensures Enabled(p, ReadCount(r))
            && Come(p0, t, r, m, Next(p, ReadCount(r)), v.(receiver := Counted(m, v.msg.body, v.msg.qref)))
  {
    hide Inv, ThreadInv, MessageInv, QueueSide, GateInv, WaitersInv;
    NextKeepsInv(p, ReadCount(r));
  }

  lemma ClearComes(p0: Port, t: Tid, r: Tid, m: Mid, p: Port, v: Scene)
    requires Come(p0, t, r, m, p, v) && v.receiver == Counted(m, v.msg.body, v.msg.qref)
    ensures Enabled(p, ClearCount(r))
            && Come(p0, t, r, m, Next(p, ClearCount(r)),
                    v.(receiver := Cleared(m, v.msg.body), msg := v.msg.(qref := 0)))
  {
    hide Inv, ThreadInv, MessageInv, QueueSide, GateInv, WaitersInv;
    NextKeepsInv(p, ClearCount(r));
  }

  /** With the sender asleep the V wakes it, else it counts. */
  lemma FinishComes(p0: Port, t: Tid, r: Tid, m: Mid, p: Port, v: Scene)
    requires Come(p0, t, r, m, p, v) && v.receiver == Cleared(m, v.msg.body)
    ensures Enabled(p, Finish(r))
            && Come(p0, t, r, m, Next(p, Finish(r)),
                    v.(receiver := Idle, lock := v.lock + 1,
                       sender := if v.sender.BlockedSend? then Taken(m) else v.sender))
  {
    hide Inv, ThreadInv, MessageInv, QueueSide, GateInv, WaitersInv, SemaV;
    NextKeepsInv(p, Finish(r));
    VEffect(p.k, m + 1);
  }

  // ----- the whole exchange

  ghost predicate Came(p0: Port, t: Tid, r: Tid, m: Mid, steps: seq<Step>, v: Scene) {
    Runs(p0, steps) && Come(p0, t, r, m, Run(p0, steps), v)
  }

  lemma Onward(p0: Port, t: Tid, r: Tid, m: Mid, steps: seq<Step>, v: Scene, st: Step, v': Scene)
    requires Came(p0, t, r, m, steps, v) && Enabled(Run(p0, steps), st)
    requires Come(p0, t, r, m, Next(Run(p0, steps), st), v')
    ensures Came(p0, t, r, m, steps + [st], v')
  {
    hide Next, Enabled, Inv, ThreadInv, MessageInv;
    RunThen(p0, steps, st);
  }

  /** m_send up to its V of recv. */
  lemma Sends(p0: Port, t: Tid, r: Tid, m: Mid, steps: seq<Step>, v: Scene, desc: Body) returns (steps': seq<Step>)
    requires Came(p0, t, r, m, steps, v) && v.sender == Idle && v.msg.qref == 0
    requires v.freeList != [] && v.freeList[0] == m
    ensures steps' == steps + [GetFree(t), Fill(t, desc), Enq(t), SignalRecv(t)]
    ensures Came(p0, t, r, m, steps',
                 v.(sender := Signalled(m), msg := Message(false, 1, Copied(desc)), queue := v.queue + [m],
                    freeList := v.freeList[1..], recv := v.recv + 1, entered := v.entered + [(m, Copied(desc))],
                    receiver := if v.receiver.BlockedRecv? then Gate else v.receiver))
  {
    hide Come, Next, Enabled, Runs, Run, Copied;
    var v1 := v.(sender := Chosen(m), freeList := v.freeList[1..]);
    var v2 := v1.(sender := Filled(m), msg := Message(false, 1, Copied(desc)));
    var v3 := v2.(sender := Enqueued(m), queue := v.queue + [m], entered := v.entered + [(m, Copied(desc))]);
    GetFreeComes(p0, t, r, m, Run(p0, steps), v);
    Onward(p0, t, r, m, steps, v, GetFree(t), v1);
    var s1 := steps + [GetFree(t)];
    FillComes(p0, t, r, m, Run(p0, s1), v1, desc);
    Onward(p0, t, r, m, s1, v1, Fill(t, desc), v2);
    var s2 := s1 + [Fill(t, desc)];
    EnqComes(p0, t, r, m, Run(p0, s2), v2);
    Onward(p0, t, r, m, s2, v2, Enq(t), v3);
    var s3 := s2 + [Enq(t)];
    SignalComes(p0, t, r, m, Run(p0, s3), v3);
    steps' := s3 + [SignalRecv(t)];
    Onward(p0, t, r, m, s3, v3, SignalRecv(t),
           v3.(sender := Signalled(m), recv := v.recv + 1,
               receiver := if v.receiver.BlockedRecv? then Gate else v.receiver));
  }

  /** m_receive from the gate on. */
  lemma Receives(p0: Port, t: Tid, r: Tid, m: Mid, steps: seq<Step>, v: Scene) returns (steps': seq<Step>)
    requires Came(p0, t, r, m, steps, v) && v.receiver == Gate && v.queue == [m]
    ensures steps' == steps + [TakeHead(r), ReadCount(r), ClearCount(r), Finish(r)]
    ensures Came(p0, t, r, m, steps',
                 v.(receiver := Idle, msg := v.msg.(qref := 0), queue := [], lock := v.lock + 1,
                    left := v.left + [(m, v.msg.body)],
                    sender := if v.sender.BlockedSend? then Taken(m) else v.sender))
  {
    hide Come, Next, Enabled, Runs, Run;
    var b := v.msg.body;
    var v1 := v.(receiver := Got(m, b), queue := [], left := v.left + [(m, b)]);
    var v2 := v1.(receiver := Counted(m, b, v.msg.qref));
    var v3 := v2.(receiver := Cleared(m, b), msg := v.msg.(qref := 0));
    TakeComes(p0, t, r, m, Run(p0, steps), v);
    Onward(p0, t, r, m, steps, v, TakeHead(r), v1);
    var s1 := steps + [TakeHead(r)];
    ReadComes(p0, t, r, m, Run(p0, s1), v1);
    Onward(p0, t, r, m, s1, v1, ReadCount(r), v2);
    var s2 := s1 + [ReadCount(r)];
    ClearComes(p0, t, r, m, Run(p0, s2), v2);
    Onward(p0, t, r, m, s2, v2, ClearCount(r), v3);
    var s3 := s2 + [ClearCount(r)];
    FinishComes(p0, t, r, m, Run(p0, s3), v3);
    steps' := s3 + [Finish(r)];
    Onward(p0, t, r, m, s3, v3, Finish(r),
           v3.(receiver := Idle, lock := v.lock + 1, sender := if v.sender.BlockedSend? then Taken(m) else v.sender));
  }

  lemma Starts(p: Port, t: Tid, r: Tid)
    requires Quiet(p, t, r)
    ensures var m := p.freeList[0];
            m < |p.msgs| && Came(p, t, r, m, [], Begun(p, m)) && !p.msgs[m].irq && p.msgs[m].qref == 0
  {
    BeginsQuiet(p, t, r);
  }

  lemma HasFree(p: Port, t: Tid, r: Tid)
    requires Quiet(p, t, r)
    ensures p.freeList != []
  {
  }

  lemma Ends(p: Port, t: Tid, r: Tid, m: Mid, steps: seq<Step>, desc: Body)
    requires Quiet(p, t, r) && m < |p.msgs| && Came(p, t, r, m, steps, Done(p, m, Copied(desc)))
    ensures Runs(p, steps) && Exchanged(p, Run(p, steps), m, desc)
  {
    hide Inv, ThreadInv, MessageInv, GateInv, QueueSide, Copied;
    var p' := Run(p, steps);
    assert p.pcs[t := Idle][r := Idle] == p.pcs;
  }

  /** A receiver that comes first sleeps until the message is there, and the sender until it is taken. In the
      end the receiver has had the copy of what was sent, both are out of the port, and it is as before. */
  lemma ReceiverFirst(p: Port, t: Tid, r: Tid, desc: Body)
    requires Quiet(p, t, r)
    ensures var steps := [EnterGate(r), GetFree(t), Fill(t, desc), Enq(t), SignalRecv(t), AwaitTaken(t),
                          TakeHead(r), ReadCount(r), ClearCount(r), Finish(r), PutFree(t)];
            Runs(p, steps) && Exchanged(p, Run(p, steps), p.freeList[0], desc)
  {
    hide Come, Next, Enabled, Runs, Run, Copied, Quiet, Exchanged;
    Starts(p, t, r);
    HasFree(p, t, r);
    var m, v0 := p.freeList[0], Begun(p, p.freeList[0]);
    GateComes(p, t, r, m, Run(p, []), v0);
    var v1 := v0.(receiver := BlockedRecv, recv := -1);
    Onward(p, t, r, m, [], v0, EnterGate(r), v1);
    var s2 := Sends(p, t, r, m, [] + [EnterGate(r)], v1, desc);
    var b := Copied(desc);
    var v2 := v1.(sender := Signalled(m), msg := Message(false, 1, b), queue := [m], freeList := p.freeList[1..],
                  recv := 0, entered := p.entered + [(m, b)], receiver := Gate);
    assert [] + [m] == [m];
    AwaitComes(p, t, r, m, Run(p, s2), v2);
    var v3 := v2.(sender := BlockedSend(m), lock := -1);
    Onward(p, t, r, m, s2, v2, AwaitTaken(t), v3);
    var s4 := Receives(p, t, r, m, s2 + [AwaitTaken(t)], v3);
    var v4 := v3.(receiver := Idle, msg := Message(false, 0, b), queue := [], lock := 0,
                  left := p.left + [(m, b)], sender := Taken(m));
    PutFreeComes(p, t, r, m, Run(p, s4), v4);
    assert [m] + p.freeList[1..] == p.freeList;
    Onward(p, t, r, m, s4, v4, PutFree(t), Done(p, m, b));
    Ends(p, t, r, m, s4 + [PutFree(t)], desc);
    assert s4 + [PutFree(t)] == [EnterGate(r), GetFree(t), Fill(t, desc), Enq(t), SignalRecv(t), AwaitTaken(t),
                                 TakeHead(r), ReadCount(r), ClearCount(r), Finish(r), PutFree(t)];
  }

  /** So it is with a sender that comes first: then neither sleeps. */
  lemma SenderFirst(p: Port, t: Tid, r: Tid, desc: Body)
    requires Quiet(p, t, r)
    ensures var steps := [GetFree(t), Fill(t, desc), Enq(t), SignalRecv(t), EnterGate(r),
                          TakeHead(r), ReadCount(r), ClearCount(r), Finish(r), AwaitTaken(t), PutFree(t)];
            Runs(p, steps) && Exchanged(p, Run(p, steps), p.freeList[0], desc)
  {
    hide Come, Next, Enabled, Runs, Run, Copied, Quiet, Exchanged;
    Starts(p, t, r);
    HasFree(p, t, r);
    var m, v0, b := p.freeList[0], Begun(p, p.freeList[0]), Copied(desc);
    var s1 := Sends(p, t, r, m, [], v0, desc);
    var v1 := v0.(sender := Signalled(m), msg := Message(false, 1, b), queue := [m], freeList := p.freeList[1..],
                  recv := 1, entered := p.entered + [(m, b)]);
    assert [] + [m] == [m];
    GateComes(p, t, r, m, Run(p, s1), v1);
    var v2 := v1.(receiver := Gate, recv := 0);
    Onward(p, t, r, m, s1, v1, EnterGate(r), v2);
    var s3 := Receives(p, t, r, m, s1 + [EnterGate(r)], v2);
    var v3 := v2.(receiver := Idle, msg := Message(false, 0, b), queue := [], lock := 1, left := p.left + [(m, b)]);
    AwaitComes(p, t, r, m, Run(p, s3), v3);
    var v4 := v3.(sender := Taken(m), lock := 0);
    Onward(p, t, r, m, s3, v3, AwaitTaken(t), v4);
    var s4 := s3 + [AwaitTaken(t)];
    PutFreeComes(p, t, r, m, Run(p, s4), v4);
    assert [m] + p.freeList[1..] == p.freeList;
    Onward(p, t, r, m, s4, v4, PutFree(t), Done(p, m, b));
    Ends(p, t, r, m, s4 + [PutFree(t)], desc);
    assert s4 + [PutFree(t)] == [GetFree(t), Fill(t, desc), Enq(t), SignalRecv(t), EnterGate(r),
                                 TakeHead(r), ReadCount(r), ClearCount(r), Finish(r), AwaitTaken(t), PutFree(t)];
  }

  // ----- the first exchange of a port

  lemma {:induction false} NobodyWaits(semas: seq<Sema>, t: Tid)
    requires forall s :: 0 <= s < |semas| ==> semas[s].waiters == []
    ensures Waiting(semas, t) == 0
  {
    if semas != [] {
      NobodyWaits(semas[..|semas| - 1], t);
    }
  }

  lemma {:induction false} StartedIdle(n: nat, s: nat)
    requires n > 0
    ensures Started(n, s).idle == 0
  {
    if s > 0 { StartedIdle(n, s - 1); } else if n > 1 { StartedIdle(n - 1, 0); }
  }

  lemma AllReady(k: Kernel, t: Tid)
    requires Inv(k) && t in k.threads && forall s :: 0 <= s < |k.semas| ==> k.semas[s].waiters == []
    ensures t in k.ready
  {
    NobodyWaits(k.semas, t);
  }

  /** At the start any two threads but the idle one will do. */
  lemma StartsQuiet(n: nat, irqs: nat, t: Tid, r: Tid)
    requires 0 < t < n && 0 < r < n && t != r
    ensures Quiet(PortAtStart(n, irqs), t, r) && PortAtStart(n, irqs).freeList[0] == 7
  {
    hide Inv, Started, ThreadInv, MessageInv, GateInv, QueueSide, WaitersInv;
    var p := PortAtStart(n, irqs);
    SomeStart(n, irqs);
    InitialInv(p);
    StartedInv(n, irqs + 9);
    StartedIdle(n, irqs + 9);
    AllReady(p.k, t);
    AllReady(p.k, r);
  }

  /** A send and a receive on a new port of two threads and the idle one. */
  lemma FirstExchange(desc: Body)
    ensures var (p, steps) := (PortAtStart(3, 0), [EnterGate(2), GetFree(1), Fill(1, desc), Enq(1), SignalRecv(1),
                                                   AwaitTaken(1), TakeHead(2), ReadCount(2), ClearCount(2), Finish(2),
                                                   PutFree(1)]);
            && Runs(p, steps) && Run(p, steps).left == [(7, Copied(desc))]
            && Run(p, steps).pcs == [Idle, Idle, Idle] && Run(p, steps).freeList == [7, 6, 5, 4, 3, 2, 1, 0]
  {
    hide Quiet, Runs, Run, Copied, Started;
    StartsQuiet(3, 0, 1, 2);
    ReceiverFirst(PortAtStart(3, 0), 1, 2, desc);
  }
}
