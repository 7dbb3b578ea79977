/** What ticks, dispatches and sleeps do to each thread, and where the usage of a second goes. */
module SchedUsage {
  import opened Common
  import opened SchedSpec
  import opened SchedRuns

  /** The priority of a thread less half its usage, at least 0. */
  predicate Lowered(t: Tcb, curPrio: int) {
    var p := t.prio - t.cnt / 2;
    curPrio == if p < 0 then 0 else p
  }

  /** schedule: the thread that ran has its priority lowered by its usage, the one that is to run is stamped
      and has a quantum, a new one of 5 less an eighth of the ready threads, but at least 2, if it had none
      left. Of all else nothing changes. */
  lemma ScheduleEffect(s: State, x: nat)
    requires InvBut(s) && x in s.tcb
    ensures var s' := Schedule(s);
            && x in s'.tcb && s'.tcb.Keys == s.tcb.Keys && s'.cur in s.ready
            && s' == s.(tcb := s'.tcb, cur := s'.cur, runs := s.runs + 1)
            && var (t, t') := (s.tcb[x], s'.tcb[x]);
            && t'.prio == t.prio && t'.cnt == t.cnt && t'.ticks == t.ticks
            && (if x == s.cur then Lowered(t, t'.curPrio) else t'.curPrio == t.curPrio)
            && (if x == s'.cur then t'.stamp == s.tick else t'.stamp == t.stamp)
            && (t.quantum > 0 || x != s'.cur ==> t'.quantum == t.quantum)
            && (t.quantum <= 0 && x == s'.cur ==>
                  var n := t.quantum + 5 - |s.ready| / 8; t'.quantum == if n < 2 then 2 else n)
  {
    hide Best;
  }

  /** What a tick alone does: the thread that runs is charged, and at the end of a second the usage of every
      thread but the idle one is halved and its priority set by it. */
  lemma CountEffect(s: State, x: nat)
    requires Inv(s) && x in s.tcb
    ensures var c := Counted(s);
            && x in c.tcb && c.tcb.Keys == s.tcb.Keys && InvBut(c)
            && c == s.(tcb := c.tcb, timer := c.timer, tick := c.tick)
            && (s.timer + 1 < 100 ==> c.timer == s.timer + 1 && c.tick == s.tick)
            && (s.timer + 1 >= 100 ==> c.timer == 0 && c.tick == s.tick + 1)
            && var (t, t', runs) := (s.tcb[x], c.tcb[x], x == s.cur);
            && t'.ticks == t.ticks + (if runs then 1 else 0) && t'.quantum == t.quantum - (if runs then 1 else 0)
            && t'.prio == t.prio && t'.stamp == t.stamp
            && var used := t.cnt + if runs && x != s.ready[0] then 1 else 0;
            && (s.timer + 1 < 100 || x == s.ready[0] ==> t'.cnt == used && t'.curPrio == t.curPrio)
            && (s.timer + 1 >= 100 && x != s.ready[0] ==> t'.cnt == used / 2 && Lowered(t', t'.curPrio))
  {
    hide Best, Schedule;
    CountedKeepsInv(s);
    InAll(s, x);
  }

  lemma InAll(s: State, x: nat)
    requires Inv(s) && x in s.tcb
    ensures s.all != [] && s.all[0] == s.ready[0] && (x in s.all[1..] <==> x != s.ready[0])
  {
    assert x in s.all;
    assert s.all == [s.all[0]] + s.all[1..];
  }

  /** The same of a whole tick: usage goes to the thread that ran, and to no other, and to none that is idle. */
  lemma ClockCharges(s: State, x: nat)
    requires Inv(s) && x in s.tcb
    ensures var s' := Clock(s);
            && x in s'.tcb && s'.tcb.Keys == s.tcb.Keys
            && s'.tcb[x].ticks == s.tcb[x].ticks + (if x == s.cur then 1 else 0)
            && var used := s.tcb[x].cnt + if x == s.cur && x != s.ready[0] then 1 else 0;
            && (s.timer + 1 < 100 ==> s'.timer == s.timer + 1 && s'.tcb[x].cnt == used)
            && (s.timer + 1 >= 100 ==>
                  && s'.timer == 0 && s'.tick == s.tick + 1
                  && s'.tcb[x].cnt == if x == s.ready[0] then used else used / 2)
            && (s.timer + 1 >= 100 && x != s.ready[0] ==> Lowered(s'.tcb[x], s'.tcb[x].curPrio))
  {
    hide Counted, Schedule, InvBut, Inv;
    InvKnown(s);
    CountEffect(s, x);
    var c := Counted(s);
    PreemptInv(c);
    ScheduleEffect(c, x);
    if c.preempt > 0 { ScheduleEffect(c.(preempt := c.preempt - 1), x); }
  }

  lemma PreemptInv(c: State)
    requires InvBut(c)
    ensures Known(c) && c.cur in c.tcb && (c.preempt > 0 ==> InvBut(c.(preempt := c.preempt - 1)))
  {
    hide Distinct;
  }

  /** No ready thread is left with a higher priority than the one dispatched, which is idle only if alone. */
  lemma ScheduleBest(s: State)
    requires InvBut(s)
    ensures var s' := Schedule(s);
            && Known(s') && s'.ready == s.ready
            && (s'.cur == s.ready[0] <==> |s.ready| == 1)
            && forall i :: 0 < i < |s.ready| ==> s'.tcb[s.ready[i]].curPrio <= s'.tcb[s'.cur].curPrio
  {
    hide Best, Distinct;
    ScheduleKeepsInv(s);
    forall i | 0 < i < |s.ready|
      ensures Schedule(s).tcb[s.ready[i]].curPrio <= Schedule(s).tcb[Schedule(s).cur].curPrio
      ensures Schedule(s).cur != s.ready[0]
    {
      ScheduleChoice(s, i);
    }
    if |s.ready| > 1 { assert Schedule(s).cur != s.ready[0] by { ScheduleChoice(s, 1); } }
  }

  /** A tick that does not reschedule leaves the thread running; one that does dispatches the best. */
  lemma TickDispatches(s: State)
    requires Inv(s)
    ensures var s' := Clock(s);
            && Known(s') && s'.ready == s.ready && s'.all == s.all
            && (s'.runs == s.runs ==> s'.cur == s.cur)
            && (s'.runs != s.runs ==>
                  && (s'.cur == s.ready[0] <==> |s.ready| == 1)
                  && forall i :: 0 < i < |s.ready| ==> s'.tcb[s.ready[i]].curPrio <= s'.tcb[s'.cur].curPrio)
  {
    hide Counted, Schedule, InvBut, Inv;
    InvKnown(s);
    CountEffect(s, s.cur);
    var c := Counted(s);
    PreemptInv(c);
    ScheduleCounters(c);
    ScheduleEffect(c, s.cur);
    ScheduleBest(c);
    if c.preempt > 0 {
      var d := c.(preempt := c.preempt - 1);
      ScheduleCounters(d);
      ScheduleEffect(d, s.cur);
      ScheduleBest(d);
    }
  }

  /** A thread that sleeps is off the ready ring, and one that is still on it runs. */
  lemma BlockEffect(s: State)
    requires Inv(s) && s.cur != s.ready[0]
    ensures |s.ready| > 1
    ensures var s' := Block(s);
            && (forall x :: x in s'.ready <==> x in s.ready && x != s.cur) && s'.cur in s'.ready
            && s'.tcb.Keys == s.tcb.Keys && s'.all == s.all && s'.timer == s.timer
            && forall x :: x in s.tcb ==> s'.tcb[x].cnt == s.tcb[x].cnt && s'.tcb[x].ticks == s.tcb[x].ticks
  {
    hide Schedule, Distinct;
    BlockKeepsInv(s);
    RemovedKnown(s.ready, s.cur);
    var t := s.tcb[s.cur];
    var r := s.(tcb := s.tcb[s.cur := t.(curPrio := t.prio)], ready := Semaphores.Without(s.ready, s.cur));
    BlockedInv(s, r);
    ScheduleEffect(r, s.cur);
    forall x | x in s.tcb ensures Block(s).tcb[x].cnt == s.tcb[x].cnt && Block(s).tcb[x].ticks == s.tcb[x].ticks {
      ScheduleEffect(r, x);
    }
    forall x ensures x in Semaphores.Without(s.ready, s.cur) <==> x in s.ready && x != s.cur {
      StillReady(s.ready, s.cur, x);
    }
  }

  lemma BlockedInv(s: State, r: State)
    requires Inv(s) && s.cur != s.ready[0]
    requires var t := s.tcb[s.cur];
             r == s.(tcb := s.tcb[s.cur := t.(curPrio := t.prio)], ready := Semaphores.Without(s.ready, s.cur))
    ensures InvBut(r)
  {
    RemovedKnown(s.ready, s.cur);
  }

  lemma {:induction false} StillReady(q: seq<nat>, t: nat, x: nat)
    ensures x != t ==> (x in Semaphores.Without(q, t) <==> x in q)
    ensures Distinct(q) ==> t !in Semaphores.Without(q, t)
  {
    if q != [] && q[0] != t {
      StillReady(q[1..], t, x);
      assert q == [q[0]] + q[1..];
    } else if q != [] {
      assert q == [q[0]] + q[1..];
    }
  }

  /** A new thread has a priority of 50, a quantum of 5 and no usage; it is the last of both rings. */
  lemma CreateEffect(s: State, t: nat)
    requires Inv(s) && t !in s.all
    ensures var s' := Create(s, t);
            && t in s'.tcb && s'.tcb[t].prio == s'.tcb[t].curPrio == 50 && s'.tcb[t].quantum == 5
            && s'.tcb[t].cnt == s'.tcb[t].ticks == 0 && s'.tcb[t].stamp == s.tick
            && (forall x :: x in s.tcb ==> x in s'.tcb && s'.tcb[x] == s.tcb[x])
            && s'.all == s.all + [t] && s'.ready == s.ready + [t] && s'.cur == s.cur && s'.timer == s.timer
  {
  }

  /** A thread that wakes is the last of the ready ring, and nothing else changes. */
  lemma WakeEffect(s: State, t: nat)
    requires Inv(s) && t in s.all && t !in s.ready
    ensures Wake(s, t) == s.(ready := s.ready + [t]) && Inv(Wake(s, t))
  {
    WakeKeepsInv(s, t);
  }

  // ----- usage over a run

  /** The usage of the threads of q together. */
  ghost function Use(tcb: map<nat, Tcb>, q: seq<nat>): int
    requires forall i :: 0 <= i < |q| ==> q[i] in tcb
  {
    if q == [] then 0 else Use(tcb, q[..|q| - 1]) + tcb[q[|q| - 1]].cnt
  }

  lemma {:induction false} UseSame(tcb: map<nat, Tcb>, tcb': map<nat, Tcb>, q: seq<nat>)
    requires forall i :: 0 <= i < |q| ==> q[i] in tcb && q[i] in tcb' && tcb'[q[i]].cnt == tcb[q[i]].cnt
    ensures Use(tcb', q) == Use(tcb, q)
  {
    if q != [] { UseSame(tcb, tcb', q[..|q| - 1]); }
  }

  lemma {:induction false} UseMore(tcb: map<nat, Tcb>, tcb': map<nat, Tcb>, q: seq<nat>, x: nat)
    requires Distinct(q) && x in q && forall i :: 0 <= i < |q| ==> q[i] in tcb && q[i] in tcb'
    requires forall i :: 0 <= i < |q| ==> tcb'[q[i]].cnt == tcb[q[i]].cnt + if q[i] == x then 1 else 0
    ensures Use(tcb', q) == Use(tcb, q) + 1
  {
    var last := |q| - 1;
    if q[last] == x {
      UseSame(tcb, tcb', q[..last]);
    } else {
      assert x in q[..last] by { assert q == q[..last] + [q[last]]; }
      UseMore(tcb, tcb', q[..last], x);
    }
  }

  /** The ticks of a run, and those that found a thread other than the idle one running. */
  function Ticks(steps: seq<Step>): nat {
    if steps == [] then 0 else (if steps[0].Tick? then 1 else 0) + Ticks(steps[1..])
  }

  ghost function Busy(s: State, steps: seq<Step>): nat
    requires Inv(s) && Runs(s, steps)
    decreases |steps|
  {
    if steps == [] then 0
    else (if steps[0].Tick? && s.cur != s.ready[0] then 1 else 0) + Busy(Next(s, steps[0]), steps[1..])
  }

  lemma Threads(s: State)
    requires Inv(s)
    ensures s.ready != [] && s.cur in s.all && Distinct(s.all) && forall i :: 0 <= i < |s.all| ==> s.all[i] in s.tcb
  {
  }

  lemma TickUse(s: State)
    requires Inv(s) && s.timer + 1 < 100
    ensures Inv(Clock(s)) && Clock(s).timer == s.timer + 1 && Clock(s).all == s.all && Known(s) && Known(Clock(s))
    ensures Use(Clock(s).tcb, s.all) == Use(s.tcb, s.all) + if s.cur != s.ready[0] then 1 else 0
  {
    hide Inv, Clock, Use, Distinct;
    Threads(s);
    ClockRings(s);
    ClockKeepsInv(s);
    Threads(Clock(s));
    ClockCharges(s, s.cur);
    forall i | 0 <= i < |s.all|
      ensures Clock(s).tcb[s.all[i]].cnt
           == s.tcb[s.all[i]].cnt + if s.all[i] == s.cur && s.cur != s.ready[0] then 1 else 0
    {
      ClockCharges(s, s.all[i]);
    }
    if s.cur != s.ready[0] {
      UseMore(s.tcb, Clock(s).tcb, s.all, s.cur);
    } else {
      UseSame(s.tcb, Clock(s).tcb, s.all);
    }
  }

  lemma ClockRings(s: State)
    requires Inv(s)
    ensures Known(s) && Known(Clock(s)) && Clock(s).all == s.all && s.cur in s.tcb
  {
    hide Counted, Schedule;
    ClockKeepsInv(s);
    CountedKeepsInv(s);
    var c := Counted(s);
    CountEffect(s, s.cur);
    ScheduleRings(c);
    if c.preempt > 0 { ScheduleRings(c.(preempt := c.preempt - 1)); }
  }

  lemma ScheduleRings(s: State)
    requires Known(s)
    ensures Schedule(s).all == s.all
  {
  }

  lemma StepUse(s: State, a: Step)
    requires Inv(s) && Enabled(s, a) && s.timer + (if a.Tick? then 1 else 0) < 100
    ensures var s' := Next(s, a);
            && s'.timer == s.timer + (if a.Tick? then 1 else 0) && Known(s) && Known(s')
            && Use(s'.tcb, s'.all) == Use(s.tcb, s.all) + if a.Tick? && s.cur != s.ready[0] then 1 else 0
  {
    hide Clock, Block, Use;
    Threads(s);
    match a
    case Tick => TickUse(s);
    case Sleep =>
      BlockEffect(s);
      UseSame(s.tcb, Block(s).tcb, s.all);
    case Wakeup(_) =>
    case Request =>
    case Start(t) => StartUse(s, t);
  }

  lemma StartUse(s: State, t: nat)
    requires Inv(s) && t !in s.all
    ensures Known(s) && Known(Create(s, t)) && Use(Create(s, t).tcb, Create(s, t).all) == Use(s.tcb, s.all)
  {
    CreateKeepsInv(s, t);
    assert (s.all + [t])[..|s.all|] == s.all;
    UseSame(s.tcb, Create(s, t).tcb, s.all);
  }

  /** Between two ageings the usage of all threads together grows by just the ticks that found a thread
      other than the idle one running. */
  lemma {:induction false} UsageIsTicks(s: State, steps: seq<Step>)
    requires Inv(s) && Runs(s, steps) && s.timer + Ticks(steps) < 100
    ensures Known(s) && Known(Run(s, steps))
    ensures Use(Run(s, steps).tcb, Run(s, steps).all) == Use(s.tcb, s.all) + Busy(s, steps)
    decreases |steps|
  {
    hide Next, Enabled, Use;
    InvKnown(s);
    if steps != [] {
      StepUse(s, steps[0]);
      UsageIsTicks(Next(s, steps[0]), steps[1..]);
    }
  }

  // ----- a rotation

  function Two(): State {
    var t := Tcb(5, 50, 50, 0, 0, 0);
    State(map[0 := t, 1 := t, 2 := t], [0, 1, 2], [0, 1, 2], 1, 0, 0, 0, 0)
  }

  /** Two threads of like priority and the idle one: with the second tick the other has its turn. */
  lemma TurnsChange()
    ensures Known(Two()) && Known(Clock(Two()))
    ensures var s := Clock(Clock(Two())); s.cur == 2 && s.tcb[1].cnt == 2 && s.tcb[1].curPrio == 49 && s.runs == 1
  {
    var c := Counted(Counted(Two()).(preempt := WRAP - 1)).(preempt := WRAP - 2);
    var tcb := c.tcb[1 := Reduced(c.tcb[1])];
    assert [0, 1, 2][..2] == [0, 1] && [0, 1][..1] == [0];
    assert Best(tcb, [0]) == 0 && Best(tcb, [0, 1]) == 1 && Best(tcb, [0, 1, 2]) == 2;
  }
}
