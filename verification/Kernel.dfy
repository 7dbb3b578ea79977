/** The kernel's own representation of Semaphores.Kernel: link fields, ring heads and counters,
    updated in place by src/kernel/kern/sema.c and src/kernel/kern/thread.c. */
module KernelQueues {
  import opened Common
  import opened Queue
  import opened Semaphores
  import opened SemaphoreRuns

  lemma {:induction false} WithoutAt(q: seq<Tid>, t: Tid, at: nat)
    requires Distinct(q) && at < |q| && q[at] == t
    ensures Without(q, t) == q[..at] + q[at + 1..]
  {
    if at > 0 {
      assert q[0] != t;
      WithoutAt(q[1..], t, at - 1);
      assert q[..at] == [q[0]] + q[1..][..at - 1];
      assert q[at + 1..] == q[1..][at..];
    }
  }

  /** Different wait queues have no thread in common, and none that is ready. */
  lemma QueuesApart(k: Kernel, s: nat, t: Tid)
    requires Inv(k) && s < |k.semas|
    ensures t in k.ready ==> forall s' :: 0 <= s' < |k.semas| ==> t !in k.semas[s'].waiters
    ensures t in k.semas[s].waiters ==> forall s' :: 0 <= s' < |k.semas| && s' != s ==> t !in k.semas[s'].waiters
  {
    forall s' | 0 <= s' < |k.semas| ensures Times(k.semas[s'].waiters, t) <= Waiting(k.semas, t) {
      WaiterCounted(k.semas, s', t);
    }
    forall s' | 0 <= s' < |k.semas| && s' != s
      ensures Times(k.semas[s].waiters, t) + Times(k.semas[s'].waiters, t) <= Waiting(k.semas, t)
    {
      if s < s' { TwoWaitQueues(k.semas, s, s', t); } else { TwoWaitQueues(k.semas, s', s, t); }
    }
  }

  lemma WaiterAsleep(k: Kernel, s: nat, t: Tid)
    requires Inv(k) && s < |k.semas| && t in k.semas[s].waiters
    ensures t in k.asleep && t !in k.ready
  {
    WaiterCounted(k.semas, s, t);
  }

  class KernelState {
    var readyThreads: Option<Tid>
    var readyLinks: Links<Tid>
    var readyCount: int
    var waiting: set<Tid>
    var semaLinks: Links<Tid>
    var counts: seq<int>
    var waitQs: seq<Option<Tid>>
    ghost var view: Kernel

    ghost predicate Valid()
      reads this
    {
      && Inv(view)
      && Ring(readyThreads, readyLinks, view.ready)
      && readyCount == view.readyCount
      && waiting == view.asleep
      && |counts| == |waitQs| == |view.semas|
      && (forall s :: 0 <= s < |view.semas| ==> counts[s] == view.semas[s].count)
      && (forall s :: 0 <= s < |view.semas| ==> Ring(waitQs[s], semaLinks, view.semas[s].waiters))
    }

    constructor (idle: Tid)
      ensures Valid() && view == Boot(idle)
    {
      BootInv(idle);
      readyThreads := Some(idle);
      readyLinks := Links(map[idle := idle], map[idle := idle]);
      readyCount := 1;
      waiting := {};
      semaLinks := Links(map[], map[]);
      counts, waitQs := [], [];
      view := Boot(idle);
    }

    /** thread_sleep: off the ready ring, unless asleep already. */
    method ThreadSleep(t: Tid, ghost q: seq<Tid>)
      requires Ring(readyThreads, readyLinks, q) && (t !in waiting ==> t in q && q[0] != t)
      modifies this`waiting, this`readyLinks, this`readyCount
      ensures t in old(waiting) ==>
                waiting == old(waiting) && readyLinks == old(readyLinks) && readyCount == old(readyCount)
      ensures t !in old(waiting) ==>
                Ring(readyThreads, readyLinks, Without(q, t))
                && readyCount == old(readyCount) - 1 && waiting == old(waiting) + {t}
    {
      if t in waiting {
        return;
      }
      waiting := waiting + {t};
      ghost var at :| 0 <= at < |q| && q[at] == t;
      WithoutAt(q, t, at);
      readyLinks := Unlink(readyLinks, t, readyThreads, q, at);
      readyCount := readyCount - 1;
    }

    /** thread_wakeup: back on the ready ring, in front of its head, that is last, if asleep. */
    method ThreadWakeup(t: Tid, ghost q: seq<Tid>)
      requires Ring(readyThreads, readyLinks, q) && q != [] && (t in waiting ==> t !in q)
      modifies this`waiting, this`readyLinks, this`readyCount
      ensures t !in old(waiting) ==>
                waiting == old(waiting) && readyLinks == old(readyLinks) && readyCount == old(readyCount)
      ensures t in old(waiting) ==>
                Ring(readyThreads, readyLinks, q + [t])
                && readyCount == old(readyCount) + 1 && waiting == old(waiting) - {t}
    {
      if t !in waiting {
        return;
      }
      waiting := waiting - {t};
      var head;
      head, readyLinks := Enqueue(readyThreads, readyLinks, t, q);
      readyCount := readyCount + 1;
    }

    method SemaInit(val: nat) returns (s: nat)
      requires Valid()
      modifies this
      ensures Valid() && view == Apply(old(view), OpInit(val)) && s == |old(view).semas|
      ensures counts == old(counts) + [val] && waitQs == old(waitQs) + [None]
    {
      ApplyKeepsInv(view, OpInit(val));
      s := |counts|;
      counts, waitQs := counts + [val], waitQs + [None];
      view := Apply(view, OpInit(val));
    }

    /** sema_setval, which warns of waiting threads but sets the count all the same. While none waits the
        semaphore is as new; else count and queue match only if the count is what it was. */
    method SemaSetval(s: nat, val: int)
      requires Valid() && s < |counts|
      modifies this`counts, this`view
      ensures counts == old(counts)[s := val] && |view.semas| == |counts|
      ensures old(view.semas[s].waiters) == [] && val >= 0 ==> Valid() && view == Apply(old(view), OpSetval(s, val))
      ensures !(old(view.semas[s].waiters) == [] && val >= 0) ==>
                view == old(view) && (Valid() <==> val == old(counts[s]))
    {
      ghost var idle := view.semas[s].waiters == [] && val >= 0;
      counts := counts[s := val];
      if idle {
        ApplyKeepsInv(view, OpSetval(s, val));
        view := Apply(view, OpSetval(s, val));
      }
    }

    method SemaP(s: nat, t: Tid)
      requires Valid() && Enabled(view, OpP(s, t))
      modifies this
      ensures Valid() && view == Apply(old(view), OpP(s, t))
    {
      hide Placed, Without;
      ghost var k := view;
      ApplyKeepsInv(k, OpP(s, t));
      QueuesApart(k, s, t);
      view := Apply(view, OpP(s, t));
      counts := counts[s := counts[s] - 1];
      if counts[s] >= 0 {
        return;
      }
      var head;
      ghost var links := semaLinks;
      head, semaLinks := Enqueue(waitQs[s], semaLinks, t, k.semas[s].waiters);
      waitQs := waitQs[s := head];
      OtherQueuesKept(k, s, k.semas[s].waiters + [t], links, semaLinks);
      ThreadSleep(t, k.ready);
    }

    method SemaV(s: nat)
      requires Valid() && Enabled(view, OpV(s))
      modifies this
      ensures Valid() && view == Apply(old(view), OpV(s))
    {
      hide Placed, Without;
      ghost var k := view;
      ApplyKeepsInv(k, OpV(s));
      view := Apply(view, OpV(s));
      counts := counts[s := counts[s] + 1];
      if waitQs[s] == None {
        return;
      }
      var t := waitQs[s].value;
      WaiterAsleep(k, s, t);
      var head;
      ghost var links := semaLinks;
      head, semaLinks := Dequeue(waitQs[s], semaLinks, t, k.semas[s].waiters, 0);
      waitQs := waitQs[s := head];
      assert k.semas[s].waiters[..0] + k.semas[s].waiters[1..] == k.semas[s].waiters[1..];
      OtherQueuesKept(k, s, k.semas[s].waiters, links, semaLinks);
      ThreadWakeup(t, k.ready);
    }

    method CreateThread(t: Tid)
      requires Valid() && Enabled(view, OpCreate(t))
      modifies this
      ensures Valid() && view == Apply(old(view), OpCreate(t))
      ensures view.ready == old(view.ready) + [t] && view.threads == old(view.threads) + {t}
    {
      ApplyKeepsInv(view, OpCreate(t));
      var head;
      assert t !in view.ready;
      head, readyLinks := Enqueue(readyThreads, readyLinks, t, view.ready);
      readyCount := readyCount + 1;
      view := Apply(view, OpCreate(t));
    }

    lemma OtherQueuesKept(k: Kernel, s: nat, touched: seq<Tid>, l: Links<Tid>, l': Links<Tid>)
      requires Inv(k) && s < |k.semas| && |waitQs| == |k.semas|
      requires forall i :: 0 <= i < |k.semas| && i != s ==> Ring(waitQs[i], l, k.semas[i].waiters)
      requires SameOutside(l, l', touched)
      requires forall u :: u in touched ==> u in k.ready || u in k.semas[s].waiters
      ensures forall i :: 0 <= i < |k.semas| && i != s ==> Ring(waitQs[i], l', k.semas[i].waiters)
    {
      forall i | 0 <= i < |k.semas| && i != s ensures Ring(waitQs[i], l', k.semas[i].waiters) {
        forall j | 0 <= j < |k.semas[i].waiters| ensures k.semas[i].waiters[j] !in touched {
          QueuesApart(k, s, k.semas[i].waiters[j]);
        }
        RingOutside(waitQs[i], l, l', k.semas[i].waiters, touched);
      }
    }
  }
}
