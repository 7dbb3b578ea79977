/** What a message carries along a run: the copy m_send made of what its sender handed over. */
module MessageData {
  import opened Common
  import opened Semaphores
  import opened Messages
  import opened MessageInvariant
  import opened MessageRuns

  /** m_send's copy has the sender's id, and data just if the sender gave some: its first MSGBUF_MAX bytes. */
  lemma CopyIsPrefix(desc: Body)
    ensures var b := Copied(desc);
            && b.id == desc.id && (b.data == None <==> desc.data == None)
            && (desc.data != None ==>
                  && b.data.value <= desc.data.value
                  && |b.data.value| == if |desc.data.value| > MSGBUF_MAX then MSGBUF_MAX else |desc.data.value|)
  {
  }

  /** What each message was last filled from, after a step. */
  function GivenNext(p: Port, st: Step, given: seq<Body>): (given': seq<Body>)
    requires Shaped(p) && Enabled(p, st) && |given| == |p.msgs|
    ensures |given'| == |given|
  {
    if st.Fill? then given[p.pcs[st.t].m := st.desc] else given
  }

  function Given(p: Port, steps: seq<Step>, given: seq<Body>): seq<Body>
    requires Runs(p, steps) && |given| == |p.msgs|
    decreases |steps|
  {
    if steps == [] then given
    else
      SameMessages(p, steps[0]);
      Given(Next(p, steps[0]), steps[1..], GivenNext(p, steps[0], given))
  }

  lemma SameMessages(p: Port, st: Step)
    requires Shaped(p) && Enabled(p, st)
    ensures |Next(p, st).msgs| == |p.msgs|
  {
  }

  predicate Carries(p: Port, given: seq<Body>, m: Mid) {
    m < |p.msgs| && m < |given| && p.msgs[m].body == Copied(given[m])
  }

  ghost predicate Queued(p: Port, given: seq<Body>, m: Mid)
    requires Shaped(p) && m < |p.msgs|
  {
    p.phase[m].Queued? || p.phase[m].Held? ==> Carries(p, given, m)
  }

  predicate Filled(p: Port, given: seq<Body>, t: Tid)
    requires t < |p.pcs|
  {
    p.pcs[t].Filled? ==> Carries(p, given, p.pcs[t].m)
  }

  ghost predicate GivenInv(p: Port, given: seq<Body>) {
    && Shaped(p) && |given| == |p.msgs|
    && (forall m: Mid :: m < |p.msgs| ==> Queued(p, given, m))
    && (forall t: Tid :: t < |p.pcs| ==> Filled(p, given, t))
  }

  /** A step other than a fill changes no body. */
  lemma SameBodies(p: Port, st: Step)
    requires Shaped(p) && Enabled(p, st) && !st.Fill?
    ensures |Next(p, st).msgs| == |p.msgs|
    ensures forall m: Mid :: m < |p.msgs| ==> Next(p, st).msgs[m].body == p.msgs[m].body
  {
  }

  /** The phase Queued is entered by the enqueue of a filled message only, Held by its take. */
  lemma PhaseBefore(p: Port, st: Step, m: Mid)
    requires PortInv(p) && Enabled(p, st) && m < |p.msgs| && Shaped(Next(p, st)) && |Next(p, st).msgs| == |p.msgs|
    requires Next(p, st).phase[m].Queued? || Next(p, st).phase[m].Held?
    ensures p.phase[m].Queued? || p.phase[m].Held? || (st.Enq? && p.pcs[st.t] == Pc.Filled(m))
  {
  }

  lemma PcBefore(p: Port, st: Step, t: Tid)
    requires Shaped(p) && Enabled(p, st) && t < |p.pcs| && t < |Next(p, st).pcs| && Next(p, st).pcs[t].Filled?
    ensures p.pcs[t] == Next(p, st).pcs[t] || (st.Fill? && st.t == t && p.pcs[t] == Chosen(Next(p, st).pcs[t].m))
  {
  }

  lemma SameThreads(p: Port, st: Step)
    requires Shaped(p) && Enabled(p, st)
    ensures |Next(p, st).pcs| == |p.pcs|
  {
  }

  lemma GivenStep(p: Port, st: Step, given: seq<Body>)
    requires PortInv(p) && GivenInv(p, given) && Enabled(p, st) && !st.Fill?
    ensures GivenInv(Next(p, st), given)
  {
    hide PortInv, Next, Enabled;
    StepShaped(p, st);
    SameBodies(p, st);
    SameThreads(p, st);
    var p' := Next(p, st);
    forall m: Mid | m < |p'.msgs| ensures Queued(p', given, m) {
      assert Queued(p, given, m);
      if p'.phase[m].Queued? || p'.phase[m].Held? {
        PhaseBefore(p, st, m);
        if st.Enq? { EnqFilled(p, st); assert Filled(p, given, st.t); }
      }
    }
    forall t: Tid | t < |p'.pcs| ensures Filled(p', given, t) {
      assert Filled(p, given, t);
      if p'.pcs[t].Filled? { PcBefore(p, st, t); }
    }
  }

  lemma EnqFilled(p: Port, st: Step)
    requires Shaped(p) && Enabled(p, st) && st.Enq?
    ensures st.t < |p.pcs|
  {
  }

  lemma StepShaped(p: Port, st: Step)
    requires PortInv(p) && Enabled(p, st)
    ensures Shaped(p) && Shaped(Next(p, st)) && PortInv(Next(p, st))
  {
    NextKeepsInv(p, st);
  }

  lemma GivenFill(p: Port, t: Tid, desc: Body, given: seq<Body>)
    requires PortInv(p) && GivenInv(p, given) && Enabled(p, Fill(t, desc))
    ensures GivenInv(Next(p, Fill(t, desc)), given[p.pcs[t].m := desc])
  {
    StepShaped(p, Fill(t, desc));
    var p', m0 := Next(p, Fill(t, desc)), p.pcs[t].m;
    var given' := given[m0 := desc];
    OwnedBy(p, t);
    forall m: Mid | m < |p'.msgs| ensures Queued(p', given', m) { assert Queued(p, given, m); }
    forall u: Tid | u < |p'.pcs| ensures Filled(p', given', u) {
      assert Filled(p, given, u);
      if u != t && p.pcs[u].Filled? { OwnedBy(p, u); }
    }
  }

  lemma OwnedBy(p: Port, t: Tid)
    requires PortInv(p) && t < |p.pcs| && (p.pcs[t].Chosen? || p.pcs[t].Filled?)
    ensures Shaped(p) && p.phase[p.pcs[t].m] == Owned(t)
  {
    assert ThreadInv(p, t);
  }

  lemma {:induction false} GivenKept(p: Port, steps: seq<Step>, given: seq<Body>)
    requires PortInv(p) && GivenInv(p, given) && Runs(p, steps)
    ensures GivenInv(Run(p, steps), Given(p, steps, given)) && PortInv(Run(p, steps))
    decreases |steps|
  {
    if steps != [] {
      if steps[0].Fill? {
        GivenFill(p, steps[0].t, steps[0].desc, given);
      } else {
        GivenStep(p, steps[0], given);
      }
      NextKeepsInv(p, steps[0]);
      SameMessages(p, steps[0]);
      GivenKept(Next(p, steps[0]), steps[1..], GivenNext(p, steps[0], given));
    }
  }

  /** In every run, a message that is filled or queued carries the copy of what its sender handed over last,
      and so does what a receiver took of it. */
  lemma MessageCarries(p0: Port, steps: seq<Step>, given: seq<Body>, m: Mid, t: Tid)
    requires Initial(p0) && Runs(p0, steps) && |given| == |p0.msgs| && m < |p0.msgs| && t < |Run(p0, steps).pcs|
    ensures var (p, last) := (Run(p0, steps), Given(p0, steps, given));
            && |last| == |p.msgs| == |p0.msgs| && Shaped(p)
            && (p.phase[m].Queued? || p.phase[m].Held? ==> p.msgs[m].body == Copied(last[m]))
            && (p.pcs[t] == Pc.Filled(m) ==> p.msgs[m].body == Copied(last[m]))
            && ((p.pcs[t].Got? || p.pcs[t].Counted?) && p.pcs[t].m == m && !p.msgs[m].irq ==>
                  p.pcs[t].b == Copied(last[m]))
  {
    InitialInv(p0);
    InitialShaped(p0);
    InitialGiven(p0, given);
    GivenKept(p0, steps, given);
    MessageCount(p0, steps);
    var (p, last) := (Run(p0, steps), Given(p0, steps, given));
    CarriesNow(p, last, m, t);
  }

  lemma CarriesNow(p: Port, last: seq<Body>, m: Mid, t: Tid)
    requires PortInv(p) && GivenInv(p, last) && m < |p.msgs| && t < |p.pcs|
    ensures p.phase[m].Queued? || p.phase[m].Held? ==> p.msgs[m].body == Copied(last[m])
    ensures p.pcs[t] == Pc.Filled(m) ==> p.msgs[m].body == Copied(last[m])
    ensures (p.pcs[t].Got? || p.pcs[t].Counted?) && p.pcs[t].m == m && !p.msgs[m].irq ==> p.pcs[t].b == Copied(last[m])
  {
    assert Queued(p, last, m) && Filled(p, last, t) && ThreadInv(p, t);
  }

  lemma InitialGiven(p: Port, given: seq<Body>)
    requires InitialData(p) && Shaped(p) && |given| == |p.msgs|
    ensures GivenInv(p, given)
  {
    forall m: Mid | m < |p.msgs| ensures Queued(p, given, m) { assert Unused(p, m); }
  }

  lemma {:induction false} MessageCount(p: Port, steps: seq<Step>)
    requires PortInv(p) && Runs(p, steps)
    ensures |Run(p, steps).msgs| == |p.msgs|
    decreases |steps|
  {
    if steps != [] {
      NextKeepsInv(p, steps[0]);
      SameMessages(p, steps[0]);
      MessageCount(Next(p, steps[0]), steps[1..]);
    }
  }
}

/** When an interrupt is lost: the sends between the two instructions that read and reset its count. */
module MessageLoss {
  import opened Semaphores
  import opened Messages
  import opened MessageInvariant
  import opened MessageRuns

  /** No interrupt sends m while a receiver has read its count but not yet reset it: as if the two were
      one step. */
  predicate Unbroken(p: Port, steps: seq<Step>, m: Mid)
    requires Runs(p, steps)
    decreases |steps|
  {
    steps != [] ==>
      && (steps[0] == Interrupt(m) ==> !InWindow(p, m))
      && Unbroken(Next(p, steps[0]), steps[1..], m)
  }

  lemma HitsStep(p: Port, st: Step, m: Mid)
    requires Shaped(p) && Enabled(p, st) && m < |p.msgs| && (st == Interrupt(m) ==> !InWindow(p, m))
    ensures |Next(p, st).hits| == |p.hits| && Next(p, st).hits[m] == p.hits[m]
  {
  }

  lemma {:induction false} HitsKept(p: Port, steps: seq<Step>, m: Mid)
    requires PortInv(p) && Runs(p, steps) && Unbroken(p, steps, m) && m < |p.msgs|
    ensures PortInv(Run(p, steps)) && m < |Run(p, steps).hits| && Run(p, steps).hits[m] == p.hits[m]
    decreases |steps|
  {
    if steps != [] {
      HitsStep(p, steps[0], m);
      NextKeepsInv(p, steps[0]);
      HitsKept(Next(p, steps[0]), steps[1..], m);
    }
  }

  /** With reading and resetting the count as one step no interrupt is lost or invented, over any run. */
  lemma NothingLost(p0: Port, steps: seq<Step>, m: Mid)
    requires Initial(p0) && Runs(p0, steps) && Unbroken(p0, steps, m)
    requires m < |p0.msgs| && m < |Run(p0, steps).msgs| && Run(p0, steps).msgs[m].irq
    ensures var p := Run(p0, steps); Shaped(p) && p.lost[m] == 0 && p.sends[m] == p.reported[m] + p.msgs[m].qref
  {
    InitialInv(p0);
    assert Unused(p0, m);
    HitsKept(p0, steps, m);
    assert Reachable(Run(p0, steps));
    InterruptsConserved(Run(p0, steps), m);
  }

  // ----- a run with a loss

  /** A port of one interrupt message, 8, and one thread besides the idle one. */
  ghost predicate Alone(p: Port, pc: Pc, qref: nat, phase: Phase, queue: seq<Mid>, count: int) {
    && PortInv(p) && Shaped(p) && p.k.ready == [0, 1] && p.k.idle == 0 && p.pcs == [Idle, pc] && |p.msgs| == 9
    && p.msgs[8].irq && p.msgs[8].qref == qref && p.phase[8] == phase && p.queue == queue
    && p.k.semas[0].count == count && p.k.semas[0].waiters == []
  }

  ghost predicate Tally(p: Port, sends: nat, reported: nat, lost: nat) {
    && |p.sends| == |p.reported| == |p.lost| == 9
    && p.sends[8] == sends && p.reported[8] == reported && p.lost[8] == lost
  }

  lemma {:induction false} StartedQueues(n: nat, s: nat)
    requires 1 <= n <= 2
    ensures Started(n, s).idle == 0 && Started(n, s).ready == (if n == 1 then [0] else [0, 1])
  {
    if s > 0 { StartedQueues(n, s - 1); } else if n > 1 { StartedQueues(1, 0); }
  }

  lemma AtStart(p: Port)
    requires p == PortAtStart(2, 1)
    ensures Initial(p) && Alone(p, Idle, 0, IrqFree, [], 0) && Tally(p, 0, 0, 0)
  {
    hide Started, Inv, PortInv, InitialData, Initial;
    SomeStart(2, 1);
    InitialInv(p);
    StartedQueues(2, 10);
    StartedInv(2, 10);
    PortShaped(p);
    assert p.pcs == [Idle, Idle];
  }

  lemma PortShaped(p: Port)
    requires PortInv(p)
    ensures Shaped(p)
  {
  }

  lemma FirstInterrupt(p: Port)
    requires Alone(p, Idle, 0, IrqFree, [], 0) && Tally(p, 0, 0, 0)
    ensures Enabled(p, Interrupt(8))
    ensures var p' := Next(p, Interrupt(8)); Alone(p', Idle, 1, IrqQueued, [8], 1) && Tally(p', 1, 0, 0)
  {
    NextKeepsInv(p, Interrupt(8));
  }

  lemma PassGate(p: Port)
    requires Alone(p, Idle, 1, IrqQueued, [8], 1) && Tally(p, 1, 0, 0)
    ensures Enabled(p, EnterGate(1))
    ensures var p' := Next(p, EnterGate(1)); Alone(p', Gate, 1, IrqQueued, [8], 0) && Tally(p', 1, 0, 0)
  {
    NextKeepsInv(p, EnterGate(1));
  }

  lemma Take(p: Port)
    requires Alone(p, Gate, 1, IrqQueued, [8], 0) && Tally(p, 1, 0, 0)
    ensures Enabled(p, TakeHead(1))
    ensures var p' := Next(p, TakeHead(1));
            Alone(p', Got(8, p.msgs[8].body), 1, IrqHeld(1), [], 0) && Tally(p', 1, 0, 0)
  {
    NextKeepsInv(p, TakeHead(1));
  }

  lemma ReadsOne(p: Port, b: Body)
    requires Alone(p, Got(8, b), 1, IrqHeld(1), [], 0) && Tally(p, 1, 0, 0)
    ensures Enabled(p, ReadCount(1))
    ensures var p' := Next(p, ReadCount(1)); Alone(p', Counted(8, b, 1), 1, IrqHeld(1), [], 0) && Tally(p', 1, 0, 0)
  {
    NextKeepsInv(p, ReadCount(1));
  }

  lemma SecondInterrupt(p: Port, b: Body)
    requires Alone(p, Counted(8, b, 1), 1, IrqHeld(1), [], 0) && Tally(p, 1, 0, 0)
    ensures Enabled(p, Interrupt(8))
    ensures var p' := Next(p, Interrupt(8)); Alone(p', Counted(8, b, 1), 2, IrqHeld(1), [], 0) && Tally(p', 2, 0, 0)
  {
    NextKeepsInv(p, Interrupt(8));
  }

  lemma ClearsBoth(p: Port, b: Body)
    requires Alone(p, Counted(8, b, 1), 2, IrqHeld(1), [], 0) && Tally(p, 2, 0, 0)
    ensures Enabled(p, ClearCount(1))
    ensures var p' := Next(p, ClearCount(1)); Alone(p', Cleared(8, b), 0, IrqFree, [], 0) && Tally(p', 2, 1, 1)
  {
    NextKeepsInv(p, ClearCount(1));
  }

  const LOSS: seq<Step> := [Interrupt(8), EnterGate(1), TakeHead(1), ReadCount(1), Interrupt(8), ClearCount(1)]

  ghost predicate LostOne(p: Port) { Tally(p, 2, 1, 1) && |p.msgs| == 9 && p.msgs[8].qref == 0 }

  /** From the take on. */
  lemma LostOnReset(p: Port, b: Body)
    requires Alone(p, Got(8, b), 1, IrqHeld(1), [], 0) && Tally(p, 1, 0, 0)
    ensures Runs(p, LOSS[3..]) && LostOne(Run(p, LOSS[3..]))
  {
    hide Next, Enabled, PortInv, Shaped, Tally;
    ReadsOne(p, b);
    var p4 := Next(p, ReadCount(1));
    SecondInterrupt(p4, b);
    var p5 := Next(p4, Interrupt(8));
    ClearsBoth(p5, b);
    RunsOn(p5, ClearCount(1), []);
    RunsOn(p4, Interrupt(8), [ClearCount(1)]);
    RunsOn(p, ReadCount(1), [Interrupt(8), ClearCount(1)]);
    assert LOSS[3..] == [ReadCount(1)] + ([Interrupt(8)] + [ClearCount(1)]);
    assert [ClearCount(1)] + [] == [ClearCount(1)];
  }

  /** From the gate on. */
  lemma LostPastGate(p: Port)
    requires Alone(p, Idle, 1, IrqQueued, [8], 1) && Tally(p, 1, 0, 0)
    ensures Runs(p, LOSS[1..]) && LostOne(Run(p, LOSS[1..]))
  {
    hide Next, Enabled, PortInv, Shaped, Tally, LostOne, Runs, Run;
    PassGate(p);
    var p2 := Next(p, EnterGate(1));
    Take(p2);
    var p3 := Next(p2, TakeHead(1));
    LostOnReset(p3, p2.msgs[8].body);
    RunsOn(p2, TakeHead(1), LOSS[3..]);
    RunsOn(p, EnterGate(1), [TakeHead(1)] + LOSS[3..]);
    assert LOSS[1..] == [EnterGate(1)] + ([TakeHead(1)] + LOSS[3..]);
  }

  /** One receiver, two interrupts, the second between reading and resetting the count: it is lost. */
  lemma InterruptLost()
    ensures Runs(PortAtStart(2, 1), LOSS) && LostOne(Run(PortAtStart(2, 1), LOSS))
  {
    hide Next, Enabled, PortInv, Tally, PortAtStart, LostOne, Runs, Run, Started;
    var p0 := PortAtStart(2, 1);
    AtStart(p0);
    FirstInterrupt(p0);
    LostPastGate(Next(p0, Interrupt(8)));
    RunsOn(p0, Interrupt(8), LOSS[1..]);
    assert LOSS == [Interrupt(8)] + LOSS[1..];
  }
}
