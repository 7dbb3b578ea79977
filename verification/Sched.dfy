/** schedule, sched_aging and clock over the thread control blocks and the two rings
    (src/kernel/kern/sched.c). */
module Sched {
  import opened Common
  import opened Queue
  import opened SchedSpec

  /** The ageing of all[1..k]. */
  ghost predicate AgedTo(was: map<nat, Tcb>, tcb: map<nat, Tcb>, all: seq<nat>, k: nat)
    requires 1 <= k <= |all|
  {
    && tcb.Keys == was.Keys
    && forall x :: x in tcb ==> tcb[x] == if x in all[1..k] then Aged(was[x]) else was[x]
  }

  lemma AgeOneMore(was: map<nat, Tcb>, tcb: map<nat, Tcb>, all: seq<nat>, k: nat)
    requires 1 <= k < |all| && Distinct(all) && AgedTo(was, tcb, all, k) && all[k] in tcb
    ensures AgedTo(was, tcb[all[k] := Aged(tcb[all[k]])], all, k + 1)
  {
    assert all[1..k + 1] == all[1..k] + [all[k]];
    assert all[k] !in all[1..k];
  }

  lemma AgedToEnd(was: map<nat, Tcb>, tcb: map<nat, Tcb>, all: seq<nat>)
    requires all != [] && AgedTo(was, tcb, all, |all|)
    ensures tcb == AgedAll(was, all)
  {
    assert all[1..|all|] == all[1..];
  }

  class Scheduler {
    var tcb: map<nat, Tcb>
    var readyThreads: nat         // the idle thread heads both rings
    var next: Links<nat>
    var nextReady: Links<nat>
    var readyCount: nat
    var curThread: nat
    var schedTimer: nat
    var schedTick: nat
    var schedPreempt: nat
    ghost var all: seq<nat>
    ghost var ready: seq<nat>
    ghost var runs: nat

    ghost function St(): State
      reads this
    {
      State(tcb, all, ready, curThread, schedTimer, schedTick, schedPreempt, runs)
    }

    ghost predicate Valid()
      reads this
    {
      && Known(St()) && all != [] && readyCount == |ready|
      && Ring(Some(readyThreads), next, all) && Ring(Some(readyThreads), nextReady, ready)
    }

    constructor (idle: nat)
      ensures Valid() && all == [idle] && ready == [idle] && curThread == idle && schedTimer == schedPreempt == 0
    {
      tcb := map[idle := Tcb(DEFAULT_QUANTA, DEFAULT_PRIO, DEFAULT_PRIO, 0, 0, 0)];
      readyThreads, curThread := idle, idle;
      next, nextReady := Links(map[idle := idle], map[idle := idle]), Links(map[idle := idle], map[idle := idle]);
      readyCount, schedTimer, schedTick, schedPreempt := 1, 0, 0, 0;
      all, ready, runs := [idle], [idle], 0;
    }

    /** sched_aging: round the ring of all threads, but for its head. */
    method SchedAging()
      requires Valid()
      modifies this`tcb, this`schedTick
      ensures Valid() && tcb == AgedAll(old(tcb), all) && schedTick == old(schedTick) + 1
    {
      hide AgedTo, Aged, AgedAll;
      schedTick := schedTick + 1;
      ghost var was, k := tcb, 1;
      assert Linked(next, all[0], all[After(0, |all|)]);
      NoneAged(tcb, all);
      var t := next.next[readyThreads];
      while t != readyThreads
        invariant 1 <= k <= |all| && t == (if k < |all| then all[k] else readyThreads)
        invariant tcb.Keys == was.Keys && AgedTo(was, tcb, all, k) && schedTick == old(schedTick) + 1
        decreases |all| - k
      {
        AgeOneMore(was, tcb, all, k);
        assert Linked(next, all[k], all[After(k, |all|)]);
        AgedIs(tcb[t]);
        var cnt := tcb[t].cnt / 2;
        var prio := tcb[t].prio - cnt / 2;
        tcb := tcb[t := tcb[t].(cnt := cnt, curPrio := if prio < 0 then 0 else prio)];
        t := next.next[t];
        k := k + 1;
      }
      AgedToEnd(was, tcb, all);
    }

    lemma AgedIs(t: Tcb)
      ensures Aged(t) == t.(cnt := t.cnt / 2,
                            curPrio := if t.prio - t.cnt / 2 / 2 < 0 then 0 else t.prio - t.cnt / 2 / 2)
    {
    }

    lemma NoneAged(tcb: map<nat, Tcb>, all: seq<nat>)
      requires all != []
      ensures AgedTo(tcb, tcb, all, 1)
    {
    }

    /** The loop of schedule round the ready ring. */
    method Choose() returns (t: nat)
      requires Valid()
      ensures t == ready[Best(tcb, ready)]
    {
      ghost var k, best := 1, 0;
      var c := -1;
      t := readyThreads;
      assert Linked(nextReady, ready[0], ready[After(0, |ready|)]);
      assert ready[..1] == [ready[0]];
      var u := nextReady.next[t];
      while u != readyThreads
        invariant 1 <= k <= |ready| && u == (if k < |ready| then ready[k] else readyThreads)
        invariant best < k && best == Best(tcb, ready[..k]) && t == ready[best]
        invariant c == if best == 0 then -1 else tcb[t].curPrio
        decreases |ready| - k
      {
        assert Linked(nextReady, ready[k], ready[After(k, |ready|)]);
        BestStep(tcb, ready, k);
        if tcb[u].curPrio > c {
          c := tcb[u].curPrio;
          t := u;
          best := k;
        }
        u := nextReady.next[u];
        k := k + 1;
      }
      assert ready[..|ready|] == ready;
    }

    lemma BestStep(tcb: map<nat, Tcb>, q: seq<nat>, k: nat)
      requires 1 <= k < |q| && forall i :: 0 <= i < |q| ==> q[i] in tcb
      ensures var b := Best(tcb, q[..k]);
              Best(tcb, q[..k + 1]) == if tcb[q[k]].curPrio > (if b == 0 then -1 else tcb[q[b]].curPrio) then k else b
    {
      assert q[..k + 1][..k] == q[..k];
    }

    method Schedule()
      requires Valid()
      modifies this`tcb, this`curThread, this`runs
      ensures Valid() && St() == SchedSpec.Schedule(old(St()))
    {
      hide Best, Distinct;
      var t := tcb[curThread];
      var prio := t.prio - t.cnt / 2;
      tcb := tcb[curThread := t.(curPrio := if prio < 0 then 0 else prio)];
      var next := Choose();
      var n := tcb[next].(stamp := schedTick);
      if n.quantum <= 0 {
        n := n.(quantum := n.quantum + (DEFAULT_QUANTA - readyCount / 8));
        if n.quantum < MIN_QUANTA {
          n := n.(quantum := MIN_QUANTA);
        }
      }
      tcb := tcb[next := n];
      curThread, runs := next, runs + 1;
    }

    /** clock, not nested: count, age once a second, and reschedule. */
    method Clock()
      requires Valid()
      modifies this`tcb, this`curThread, this`schedTimer, this`schedTick, this`schedPreempt, this`runs
      ensures Valid() && St() == SchedSpec.Clock(old(St()))
    {
      hide AgedAll, SchedSpec.Schedule;
      Count();
      if tcb[curThread].quantum <= 0 {
        Schedule();
      } else {
        var preempt := schedPreempt;
        schedPreempt := if preempt == 0 then WRAP - 1 else preempt - 1;
        if preempt != 0 {
          Schedule();
        }
      }
    }

    method Count()
      requires Valid()
      modifies this`tcb, this`schedTimer, this`schedTick
      ensures Valid() && St() == Counted(old(St()))
    {
      schedTimer := schedTimer + 1;
      var t := tcb[curThread];
      tcb := tcb[curThread := t.(ticks := t.ticks + 1,
                                 cnt := if curThread != readyThreads then t.cnt + 1 else t.cnt,
                                 quantum := t.quantum - 1)];
      assert tcb == Ticked(old(St()));
      if schedTimer >= SECOND {
        SchedAging();
        schedTimer := 0;
      }
    }
  }
}
