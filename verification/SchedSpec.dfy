/** The scheduler (src/kernel/kern/sched.c): clock ticks, ageing and the choice of the next thread, with
    threads by number. Each step is taken as one, as if interrupts were off throughout. */
module SchedSpec {
  import opened Common
  import Semaphores

  const DEFAULT_PRIO: int := 50
  const DEFAULT_QUANTA: int := 5
  const MIN_QUANTA: int := 2
  const SECOND: nat := 100
  const WRAP: nat := 0x1_0000_0000

  datatype Tcb = Tcb(quantum: int, prio: int, curPrio: int, cnt: int, stamp: nat, ticks: nat)

  /** The ring of all threads and the ready ring both start with the idle thread. */
  datatype State = State(
    tcb: map<nat, Tcb>,
    all: seq<nat>,
    ready: seq<nat>,
    cur: nat,
    timer: nat,
    tick: nat,
    preempt: nat,
    runs: nat)    // history: how often schedule has run

  /** The priority that usage leaves. */
  function Reduced(t: Tcb): Tcb {
    t.(curPrio := if t.prio - t.cnt / 2 < 0 then 0 else t.prio - t.cnt / 2)
  }

  function Aged(t: Tcb): Tcb { Reduced(t.(cnt := t.cnt / 2)) }

  // ----- the choice

  /** The place of the first thread of highest priority in q behind its head; 0 if there is none. */
  function Best(tcb: map<nat, Tcb>, q: seq<nat>): (k: nat)
    requires q != [] && forall i :: 0 <= i < |q| ==> q[i] in tcb
    ensures k < |q|
  {
    if |q| == 1 then 0
    else
      var k := Best(tcb, q[..|q| - 1]);
      if tcb[q[|q| - 1]].curPrio > (if k == 0 then -1 else tcb[q[k]].curPrio) then |q| - 1 else k
  }

  /** Ready threads are never passed over for the idle one, and the first of the best ones is taken. */
  lemma {:induction false} BestIsFirstHighest(tcb: map<nat, Tcb>, q: seq<nat>)
    requires q != [] && forall i :: 0 <= i < |q| ==> q[i] in tcb
    requires forall i :: 0 < i < |q| ==> tcb[q[i]].curPrio >= 0
    ensures var k := Best(tcb, q);
            && (k == 0 <==> |q| == 1)
            && (forall i :: 0 < i < |q| ==> tcb[q[i]].curPrio <= tcb[q[k]].curPrio || k == 0)
            && (forall i :: 0 < i < k ==> tcb[q[i]].curPrio < tcb[q[k]].curPrio)
    decreases |q|
  {
    if |q| > 1 {
      BestIsFirstHighest(tcb, q[..|q| - 1]);
    }
  }

  /** A thread with no quantum left gets a new one, smaller the more threads are ready. */
  function Replenished(t: Tcb, ready: nat): Tcb {
    if t.quantum > 0 then t else
      var n := t.quantum + DEFAULT_QUANTA - ready / 8;
      t.(quantum := if n < MIN_QUANTA then MIN_QUANTA else n)
  }

  ghost predicate Known(s: State) {
    && s.ready != [] && s.cur in s.tcb
    && (forall i :: 0 <= i < |s.ready| ==> s.ready[i] in s.tcb)
    && (forall i :: 0 <= i < |s.all| ==> s.all[i] in s.tcb)
  }

  function Schedule(s: State): State
    requires Known(s)
  {
    var tcb := s.tcb[s.cur := Reduced(s.tcb[s.cur])];
    var next := s.ready[Best(tcb, s.ready)];
    s.(tcb := tcb[next := Replenished(tcb[next].(stamp := s.tick), |s.ready|)], cur := next, runs := s.runs + 1)
  }

  // ----- the clock

  function AgedAll(tcb: map<nat, Tcb>, all: seq<nat>): map<nat, Tcb> {
    map x | x in tcb :: if all != [] && x in all[1..] then Aged(tcb[x]) else tcb[x]
  }

  /** The current thread charged for a tick; the idle one is not charged usage. */
  function Ticked(s: State): map<nat, Tcb>
    requires Known(s)
  {
    var t := s.tcb[s.cur];
    s.tcb[s.cur := t.(ticks := t.ticks + 1,
                      cnt := if s.cur == s.ready[0] then t.cnt else t.cnt + 1,
                      quantum := t.quantum - 1)]
  }

  /** The counting of a tick, with the ageing of every other thread than the idle one once a second. */
  function Counted(s: State): State
    requires Known(s)
  {
    if s.timer + 1 >= SECOND then s.(tcb := AgedAll(Ticked(s), s.all), timer := 0, tick := s.tick + 1)
    else s.(tcb := Ticked(s), timer := s.timer + 1)
  }

  /** clock: sched_preempt-- wraps round when it is 0 already. */
  function Clock(s: State): State
    requires Known(s)
  {
    var c := Counted(s);
    if c.tcb[c.cur].quantum <= 0 then Schedule(c)
    else if c.preempt != 0 then Schedule(c.(preempt := c.preempt - 1))
    else c.(preempt := WRAP - 1)
  }

  // ----- threads that come, sleep and wake

  /** thread_sleep of the current thread and the schedule that follows it. */
  function Block(s: State): State
    requires Known(s) && |s.ready| > 1 && s.cur != s.ready[0] && s.cur in s.ready
  {
    var t := s.tcb[s.cur];
    var r := s.(tcb := s.tcb[s.cur := t.(curPrio := t.prio)], ready := Semaphores.Without(s.ready, s.cur));
    RemovedKnown(s.ready, s.cur);
    Schedule(r)
  }

  lemma {:induction false} RemovedKnown(q: seq<nat>, t: nat)
    ensures var r := Semaphores.Without(q, t);
            && (forall i :: 0 <= i < |r| ==> r[i] in q)
            && (q != [] && q[0] != t ==> r != [] && r[0] == q[0])
            && (Distinct(q) ==> Distinct(r) && t !in r)
  {
    if q != [] && q[0] != t { RemovedKnown(q[1..], t); }
  }

  function Wake(s: State, t: nat): State { s.(ready := s.ready + [t]) }

  function Create(s: State, t: nat): State {
    s.(tcb := s.tcb[t := Tcb(DEFAULT_QUANTA, DEFAULT_PRIO, DEFAULT_PRIO, 0, s.tick, 0)],
       all := s.all + [t],
       ready := s.ready + [t])
  }

  /** Another driver asks for a reschedule. */
  function Preempt(s: State): State { s.(preempt := (s.preempt + 1) % WRAP) }
}

/** What every run of ticks, blocks, wakeups and creations keeps. */
module SchedRuns {
  import opened Common
  import opened SchedSpec

  /** Usage stays within a second's ticks of 99, the priority within its range, the quantum within its own. */
  predicate ThreadOk(t: Tcb, timer: nat) {
    0 <= t.cnt <= 99 + timer && 0 <= t.curPrio <= t.prio && 0 <= t.quantum <= DEFAULT_QUANTA
  }

  ghost predicate ThreadsOk(tcb: map<nat, Tcb>, idle: nat, timer: nat) {
    forall x :: x in tcb ==> ThreadOk(tcb[x], if x == idle then 0 else timer)
  }

  /** All threads are on the one ring, the ready ones on the other, both from the idle thread on. */
  ghost predicate Rings(s: State) {
    && Known(s) && s.all != [] && s.all[0] == s.ready[0] && Distinct(s.all) && Distinct(s.ready)
    && (forall i :: 0 <= i < |s.ready| ==> s.ready[i] in s.all)
    && (forall x :: x in s.tcb ==> x in s.all)
  }

  ghost predicate InvBut(s: State) {
    Rings(s) && ThreadsOk(s.tcb, s.ready[0], s.timer) && s.timer < SECOND && s.preempt < WRAP
  }

  /** The current thread is ready and has a quantum left. */
  ghost predicate Inv(s: State) {
    InvBut(s) && s.cur in s.ready && s.tcb[s.cur].quantum >= 1
  }

  lemma ReducedOk(t: Tcb, timer: nat)
    requires ThreadOk(t, timer)
    ensures ThreadOk(Reduced(t), timer)
  {
  }

  lemma ReplenishedOk(t: Tcb, timer: nat, ready: nat)
    requires ThreadOk(t, timer)
    ensures ThreadOk(Replenished(t, ready), timer) && Replenished(t, ready).quantum >= 1
  {
  }

  /** The thread dispatched is a ready one with a quantum from 1 to DEFAULT_QUANTA. */
  lemma ScheduleKeepsInv(s: State)
    requires InvBut(s)
    ensures Inv(Schedule(s))
  {
    var tcb := s.tcb[s.cur := Reduced(s.tcb[s.cur])];
    var next := s.ready[Best(tcb, s.ready)];
    var u := if s.cur == s.ready[0] then 0 else s.timer;
    ReducedOk(s.tcb[s.cur], u);
    assert ThreadsOk(tcb, s.ready[0], s.timer);
    ReplenishedOk(tcb[next].(stamp := s.tick), if next == s.ready[0] then 0 else s.timer, |s.ready|);
  }

  /** schedule picks the idle thread only when no other is ready, and else the first of the ready
      threads of highest priority. */
  lemma ScheduleChoice(s: State, i: nat)
    requires InvBut(s) && 0 < i < |s.ready|
    ensures var (tcb, next) := (s.tcb[s.cur := Reduced(s.tcb[s.cur])], Schedule(s).cur);
            && next != s.ready[0] && next in tcb
            && tcb[s.ready[i]].curPrio <= tcb[next].curPrio
            && (next !in s.ready[..i] ==> next == s.ready[i] || tcb[s.ready[i]].curPrio < tcb[next].curPrio)
  {
    var tcb := s.tcb[s.cur := Reduced(s.tcb[s.cur])];
    ReducedOk(s.tcb[s.cur], if s.cur == s.ready[0] then 0 else s.timer);
    forall j | 0 < j < |s.ready| ensures tcb[s.ready[j]].curPrio >= 0 {
      assert ThreadOk(s.tcb[s.ready[j]], s.timer);
    }
    BestIsFirstHighest(tcb, s.ready);
    var k := Best(tcb, s.ready);
    if k < i { assert s.ready[..i][k] == s.ready[k]; }
  }

  lemma TickedOk(s: State)
    requires Inv(s)
    ensures ThreadsOk(Ticked(s), s.ready[0], s.timer + 1)
  {
  }

  lemma AgedOk(tcb: map<nat, Tcb>, all: seq<nat>)
    requires all != [] && ThreadsOk(tcb, all[0], SECOND) && forall x :: x in tcb ==> x in all
    ensures ThreadsOk(AgedAll(tcb, all), all[0], 0)
  {
    forall x | x in tcb ensures ThreadOk(AgedAll(tcb, all)[x], 0) {
      assert ThreadOk(tcb[x], if x == all[0] then 0 else SECOND);
      assert all == [all[0]] + all[1..];
    }
  }

  lemma AgedKeys(tcb: map<nat, Tcb>, all: seq<nat>, t: nat)
    requires t in tcb
    ensures AgedAll(tcb, all).Keys == tcb.Keys && AgedAll(tcb, all)[t].quantum == tcb[t].quantum
  {
  }

  lemma TickedKeys(s: State)
    requires Known(s)
    ensures Ticked(s).Keys == s.tcb.Keys && Ticked(s)[s.cur].quantum == s.tcb[s.cur].quantum - 1
  {
  }

  lemma CountedKeepsInv(s: State)
    requires Inv(s)
    ensures InvBut(Counted(s)) && Counted(s).cur == s.cur && Counted(s).ready == s.ready
    ensures Counted(s).tcb[s.cur].quantum == s.tcb[s.cur].quantum - 1
  {
    hide ThreadsOk, ThreadOk, AgedAll, Ticked;
    TickedOk(s);
    TickedKeys(s);
    if s.timer + 1 >= SECOND {
      AgedOk(Ticked(s), s.all);
      AgedKeys(Ticked(s), s.all, s.cur);
    }
  }

  lemma ClockKeepsInv(s: State)
    requires Inv(s)
    ensures Inv(Clock(s))
  {
    hide Counted;
    CountedKeepsInv(s);
    var c := Counted(s);
    if c.tcb[c.cur].quantum <= 0 {
      ScheduleKeepsInv(c);
    } else if c.preempt != 0 {
      ScheduleKeepsInv(c.(preempt := c.preempt - 1));
    }
  }

  lemma BlockKeepsInv(s: State)
    requires Inv(s) && s.cur != s.ready[0]
    ensures |s.ready| > 1 && Inv(Block(s))
  {
    RemovedKnown(s.ready, s.cur);
    var t := s.tcb[s.cur];
    ScheduleKeepsInv(s.(tcb := s.tcb[s.cur := t.(curPrio := t.prio)], ready := Semaphores.Without(s.ready, s.cur)));
  }

  lemma WakeKeepsInv(s: State, t: nat)
    requires Inv(s) && t in s.all && t !in s.ready
    ensures Inv(Wake(s, t))
  {
  }

  lemma CreateKeepsInv(s: State, t: nat)
    requires Inv(s) && t !in s.all
    ensures Inv(Create(s, t))
  {
    assert t !in s.tcb;
    var s' := Create(s, t);
    forall i | 0 <= i < |s'.ready| ensures s'.ready[i] in s'.all {
      if i < |s.ready| { assert s.ready[i] in s.all; } else { assert s'.all[|s.all|] == t; }
    }
    forall x | x in s'.tcb ensures x in s'.all {
      if x == t { assert s'.all[|s.all|] == t; } else { assert x in s.all; }
    }
  }

  // ----- runs

  datatype Step = Tick | Sleep | Wakeup(t: nat) | Start(t: nat) | Request

  ghost predicate Enabled(s: State, a: Step) {
    match a
    case Tick => true
    case Sleep => s.ready != [] && s.cur != s.ready[0]     // the idle thread never sleeps
    case Wakeup(t) => t in s.all && t !in s.ready
    case Start(t) => t !in s.all
    case Request => true
  }

  ghost function Next(s: State, a: Step): (s': State)
    requires Inv(s) && Enabled(s, a)
    ensures Inv(s')
  {
    match a
    case Tick => ClockKeepsInv(s); Clock(s)
    case Sleep => BlockKeepsInv(s); Block(s)
    case Wakeup(t) => WakeKeepsInv(s, t); Wake(s, t)
    case Start(t) => CreateKeepsInv(s, t); Create(s, t)
    case Request => Preempt(s)
  }

  /** The idle thread alone, as it is started. */
  function Initial(idle: nat): State {
    State(map[idle := Tcb(DEFAULT_QUANTA, DEFAULT_PRIO, DEFAULT_PRIO, 0, 0, 0)], [idle], [idle], idle, 0, 0, 0, 0)
  }

  ghost predicate Runs(s: State, steps: seq<Step>)
    requires Inv(s)
    decreases |steps|
  {
    steps != [] ==> Enabled(s, steps[0]) && Runs(Next(s, steps[0]), steps[1..])
  }

  ghost function Run(s: State, steps: seq<Step>): (s': State)
    requires Inv(s) && Runs(s, steps)
    ensures Inv(s')
    decreases |steps|
  {
    if steps == [] then s else Run(Next(s, steps[0]), steps[1..])
  }

  /** After any run from the idle thread alone: usage is at most 99 and the ticks of this second, priority
      and quantum are within their ranges, and a ready thread with some quantum left is running. */
  lemma EveryState(idle: nat, steps: seq<Step>, x: nat)
    requires Inv(Initial(idle)) && Runs(Initial(idle), steps) && x in Run(Initial(idle), steps).tcb
    ensures var s := Run(Initial(idle), steps); var t := s.tcb[x];
            && t.cnt <= 99 + s.timer && t.cnt <= 198 && 0 <= t.curPrio <= t.prio && 0 <= t.quantum <= DEFAULT_QUANTA
            && s.cur in s.ready && 1 <= s.tcb[s.cur].quantum <= DEFAULT_QUANTA
  {
    var s := Run(Initial(idle), steps);
    assert ThreadOk(s.tcb[x], if x == s.ready[0] then 0 else s.timer);
    assert ThreadOk(s.tcb[s.cur], if s.cur == s.ready[0] then 0 else s.timer);
  }

  lemma InitialInv(idle: nat)
    ensures Inv(Initial(idle))
  {
  }

  // ----- requests to reschedule

  /** A tick that leaves the thread a quantum reschedules exactly if the counter of requests is not 0, and
      always counts it down, round to WRAP - 1 from 0; any other tick reschedules and leaves the counter. */
  lemma TickReschedules(s: State)
    requires Inv(s)
    ensures s.runs <= Clock(s).runs <= s.runs + 1
    ensures QuantumLeft(s) ==>
              (Clock(s).runs == s.runs + 1 <==> s.preempt != 0) && Clock(s).preempt == (s.preempt - 1) % WRAP
    ensures !QuantumLeft(s) ==> Clock(s).runs == s.runs + 1 && Clock(s).preempt == s.preempt
  {
    hide Inv, InvBut, Counted, Schedule, Rings;
    CountedCounters(s);
    var c := Counted(s);
    ScheduleCounters(c);
    ScheduleCounters(c.(preempt := if c.preempt > 0 then c.preempt - 1 else 0));
  }

  /** So a tick that leaves the thread its quantum with no reschedule asked for makes the next one
      reschedule, whatever quantum is left then. */
  lemma QuantumIsCutShort(s: State)
    requires Inv(s) && s.preempt == 0 && s.tcb[s.cur].quantum >= 3
    ensures var s' := Clock(s);
            && Known(s') && s'.cur == s.cur && s'.preempt == WRAP - 1 && s'.tcb[s'.cur].quantum >= 2
            && Clock(s') == Schedule(Counted(s').(preempt := WRAP - 2))
  {
    CountedKeepsInv(s);
    ClockKeepsInv(s);
    CountedKeepsInv(Clock(s));
  }

  predicate QuantumLeft(s: State)
    requires Known(s)
  {
    s.tcb[s.cur].quantum >= 2
  }

  lemma CountedCounters(s: State)
    requires Inv(s)
    ensures Known(s) && Known(Counted(s)) && Counted(s).preempt == s.preempt < WRAP && Counted(s).runs == s.runs
    ensures Counted(s).cur == s.cur && Counted(s).tcb[s.cur].quantum == s.tcb[s.cur].quantum - 1
  {
    CountedKeepsInv(s);
  }

  lemma ScheduleCounters(s: State)
    requires Known(s)
    ensures Schedule(s).runs == s.runs + 1 && Schedule(s).preempt == s.preempt
  {
  }

  lemma PreemptKeepsInv(s: State)
    requires Inv(s)
    ensures Inv(Preempt(s)) && Known(s) && Known(Preempt(s)) && s.preempt < WRAP
  {
    hide Distinct;
  }

  /** A request is honoured by the next tick that leaves a quantum exactly if the counter has not been
      counted down from 0, to WRAP - 1, just before. */
  lemma RequestHonoured(s: State)
    requires Inv(s) && QuantumLeft(s)
    ensures Inv(Preempt(s)) && (Clock(Preempt(s)).runs == s.runs + 1 <==> s.preempt != WRAP - 1)
  {
    hide Inv, Clock;
    PreemptKeepsInv(s);
    TickReschedules(Preempt(s));
  }

  /** What a counter that stops at 0 would say: the requests still owed, and the ticks with a quantum left
      that had none to answer. */
  datatype Books = Books(owed: nat, spare: nat)

  function Booked(s: State, a: Step, b: Books): Books
    requires Known(s)
  {
    match a
    case Request => b.(owed := b.owed + 1)
    case Tick =>
      if !QuantumLeft(s) then b else if b.owed > 0 then b.(owed := b.owed - 1) else b.(spare := b.spare + 1)
    case _ => b
  }

  /** A request is owed until a tick with a quantum left comes, and a tick is spare just if none is owed. */
  lemma BooksKept(s: State, a: Step, b: Books)
    requires Known(s)
    ensures var (b', answers) := (Booked(s, a, b), a.Tick? && QuantumLeft(s));
            && b'.spare == b.spare + (if answers && b.owed == 0 then 1 else 0)
            && b'.owed - b'.spare == b.owed - b.spare + (if a.Request? then 1 else 0) - (if answers then 1 else 0)
  {
  }

  ghost function Account(s: State, steps: seq<Step>, b: Books): Books
    requires Inv(s) && Runs(s, steps)
    decreases |steps|
  {
    if steps == [] then b else Account(Next(s, steps[0]), steps[1..], Booked(s, steps[0], b))
  }

  predicate Balanced(preempt: nat, b: Books) { preempt == (b.owed - b.spare) % WRAP }

  lemma OtherSteps(s: State, a: Step)
    requires Inv(s) && Enabled(s, a)
    ensures match a
            case Tick => Next(s, a) == Clock(s)
            case Request => Next(s, a).preempt == (s.preempt + 1) % WRAP
            case _ => Next(s, a).preempt == s.preempt
  {
    match a
    case Sleep => RemovedKnown(s.ready, s.cur);
    case _ =>
  }

  lemma CountRound(p: nat, d: int)
    requires p == d % WRAP
    ensures (p + 1) % WRAP == (d + 1) % WRAP && (p - 1) % WRAP == (d - 1) % WRAP
  {
  }

  lemma StepBalanced(s: State, a: Step, b: Books)
    requires Inv(s) && Enabled(s, a) && Balanced(s.preempt, b)
    ensures Balanced(Next(s, a).preempt, Booked(s, a, b))
  {
    hide Inv, Next, Clock, QuantumLeft, Enabled;
    InvKnown(s);
    OtherSteps(s, a);
    TickReschedules(s);
    CountRound(s.preempt, b.owed - b.spare);
  }

  lemma InvKnown(s: State)
    requires Inv(s)
    ensures Known(s)
  {
  }

  lemma {:induction false} AlwaysBalanced(s: State, steps: seq<Step>, b: Books)
    requires Inv(s) && Runs(s, steps) && Balanced(s.preempt, b)
    ensures Balanced(Run(s, steps).preempt, Account(s, steps, b))
    decreases |steps|
  {
    if steps != [] {
      StepBalanced(s, steps[0], b);
      AlwaysBalanced(Next(s, steps[0]), steps[1..], Booked(s, steps[0], b));
    }
  }

  /** After any run the counter is the number of requests owed, exactly if the spare ticks so far are a
      multiple of 2^32, that is, in practice, while there has been none. And the next tick with a quantum
      left reschedules just when a request is owed, exactly if the counter is 0 just when none is. */
  lemma PreemptCounts(idle: nat, steps: seq<Step>)
    requires Inv(Initial(idle)) && Runs(Initial(idle), steps)
    ensures var (s, b) := (Run(Initial(idle), steps), Account(Initial(idle), steps, Books(0, 0)));
            && (b.owed < WRAP ==> (s.preempt == b.owed <==> b.spare % WRAP == 0))
            && (QuantumLeft(s) ==>
                  ((Clock(s).runs == s.runs + 1 <==> b.owed > 0)
                   <==> ((b.owed - b.spare) % WRAP != 0 <==> b.owed > 0)))
  {
    hide Clock, QuantumLeft, Next;
    AlwaysBalanced(Initial(idle), steps, Books(0, 0));
    var (s, b) := (Run(Initial(idle), steps), Account(Initial(idle), steps, Books(0, 0)));
    TickReschedules(s);
    SameRemainder(b.owed, b.spare);
  }

  lemma SameRemainder(owed: nat, spare: nat)
    ensures owed < WRAP ==> ((owed - spare) % WRAP == owed <==> spare % WRAP == 0)
  {
  }

  /** A first tick, then a request: the next tick does not reschedule, and the request is lost. */
  lemma RequestLost(idle: nat)
    ensures Inv(Initial(idle)) && Runs(Initial(idle), [Tick, Request, Tick])
    ensures Run(Initial(idle), [Tick, Request, Tick]).runs == 0
  {
    hide Inv, InvBut, Clock;
    var s := Initial(idle);
    InitialInv(idle);
    TickReschedules(s);
    var t := Next(s, Tick);
    FirstTick(idle);
    var u := Next(t, Request);
    TickReschedules(u);
    assert [Tick, Request, Tick][1..] == [Request, Tick] && [Request, Tick][1..] == [Tick] && [Tick][1..] == [];
    assert Runs(Next(u, Tick), []) && Runs(u, [Tick]) && Runs(t, [Request, Tick]);
    assert Run(u, [Tick]) == Next(u, Tick) && Run(t, [Request, Tick]) == Run(u, [Tick]);
  }

  lemma FirstTick(idle: nat)
    ensures var t := Clock(Initial(idle)); Known(t) && QuantumLeft(t) && t.preempt == WRAP - 1 && t.runs == 0
  {
    InitialInv(idle);
    ClockKeepsInv(Initial(idle));
    CountedCounters(Initial(idle));
  }
}
