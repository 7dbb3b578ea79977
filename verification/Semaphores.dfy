/** Counting semaphores over the ready ring: what sema_p, sema_v, thread_sleep, thread_wakeup and
    create_thread do to the queues, as functions on values, and what every run of them keeps.

    Each function is one splhi section of src/kernel/kern/sema.c or thread.c. The fields init,
    completed, vs, arrivals and released of a semaphore are its history; the code has no such
    fields and no branch reads them. */
module Semaphores {

  type Tid = nat

  datatype Sema = Sema(count: int, waiters: seq<Tid>,
                       init: nat, completed: nat, vs: nat, arrivals: seq<Tid>, released: seq<Tid>)

  /** ready lists the ready ring from the idle thread on; asleep has the threads in TS_WAITING. */
  datatype Kernel = Kernel(threads: set<Tid>, idle: Tid, ready: seq<Tid>, readyCount: int,
                           asleep: set<Tid>, semas: seq<Sema>)

  /** How often t occurs in q. */
  function Times(q: seq<Tid>, t: Tid): (n: nat)
    ensures t in q <==> n > 0
  {
    if q == [] then 0 else (if q[0] == t then 1 else 0) + Times(q[1..], t)
  }

  lemma {:induction false} TimesJoin(p: seq<Tid>, q: seq<Tid>, t: Tid)
    ensures Times(p + q, t) == Times(p, t) + Times(q, t)
  {
    if p == [] {
      assert p + q == q;
    } else {
      TimesJoin(p[1..], q, t);
      assert (p + q)[1..] == p[1..] + q;
    }
  }

  function Without(q: seq<Tid>, t: Tid): (r: seq<Tid>)
    ensures t in q ==> |r| == |q| - 1
    ensures forall u :: Times(r, u) == if u == t && t in q then Times(q, u) - 1 else Times(q, u)
    ensures q != [] && q[0] != t ==> r != [] && r[0] == q[0]
  {
    if q == [] then []
    else if q[0] == t then q[1..]
    else [q[0]] + Without(q[1..], t)
  }

  function Fresh(val: nat): Sema {
    Sema(val, [], val, 0, 0, [], [])
  }

  // ----- the operations

  function ThreadSleep(k: Kernel, t: Tid): Kernel {
    if t in k.asleep then k
    else k.(asleep := k.asleep + {t}, ready := Without(k.ready, t), readyCount := k.readyCount - 1)
  }

  function ThreadWakeup(k: Kernel, t: Tid): Kernel {
    if t !in k.asleep then k
    else k.(asleep := k.asleep - {t}, ready := k.ready + [t], readyCount := k.readyCount + 1)
  }

  function CreateThread(k: Kernel, t: Tid): Kernel {
    k.(threads := k.threads + {t}, ready := k.ready + [t], readyCount := k.readyCount + 1)
  }

  function SemaP(k: Kernel, s: nat, t: Tid): Kernel
    requires s < |k.semas|
  {
    var sm := k.semas[s].(count := k.semas[s].count - 1);
    if sm.count >= 0 then
      k.(semas := k.semas[s := sm.(completed := sm.completed + 1)])
    else
      ThreadSleep(k.(semas := k.semas[s := sm.(waiters := sm.waiters + [t], arrivals := sm.arrivals + [t])]), t)
  }

  function SemaV(k: Kernel, s: nat): Kernel
    requires s < |k.semas|
  {
    var sm := k.semas[s].(count := k.semas[s].count + 1, vs := k.semas[s].vs + 1);
    if sm.waiters == [] then
      k.(semas := k.semas[s := sm])
    else
      var t := sm.waiters[0];
      var sm' := sm.(waiters := sm.waiters[1..], completed := sm.completed + 1, released := sm.released + [t]);
      ThreadWakeup(k.(semas := k.semas[s := sm']), t)
  }

  /** The thread a P just now put to sleep, or a V would wake. */
  predicate Blocks(k: Kernel, s: nat)
    requires s < |k.semas|
  {
    k.semas[s].count <= 0
  }

  // ----- the invariant

  /** A negative count has exactly that many waiters; waiters leave in the order they came;
      every completed P took a unit that was there at the start or came from a V. */
  ghost predicate SemaInv(sm: Sema) {
    && |sm.waiters| == (if sm.count < 0 then -sm.count else 0)
    && sm.arrivals == sm.released + sm.waiters
    && sm.completed + (if sm.count > 0 then sm.count else 0) == sm.init + sm.vs
  }

  /** How often t occurs on wait queues. */
  ghost function Waiting(semas: seq<Sema>, t: Tid): nat {
    if semas == [] then 0
    else Waiting(semas[..|semas| - 1], t) + Times(semas[|semas| - 1].waiters, t)
  }

  /** Every thread sits once on the ready ring or once on one wait queue. */
  ghost predicate Placed(k: Kernel) {
    forall t :: Times(k.ready, t) + Waiting(k.semas, t) == if t in k.threads then 1 else 0
  }

  ghost predicate Inv(k: Kernel) {
    && k.ready != [] && k.ready[0] == k.idle
    && k.readyCount == |k.ready|
    && Placed(k)
    && (forall t :: t in k.asleep <==> t in k.threads && t !in k.ready)
    && (forall s :: 0 <= s < |k.semas| ==> SemaInv(k.semas[s]))
  }

  lemma {:induction false} WaitingUpdate(semas: seq<Sema>, s: nat, sm: Sema, t: Tid)
    requires s < |semas|
    ensures Waiting(semas[s := sm], t) + Times(semas[s].waiters, t) == Waiting(semas, t) + Times(sm.waiters, t)
  {
    var last := |semas| - 1;
    if s == last {
      assert semas[s := sm][..last] == semas[..last];
    } else {
      WaitingUpdate(semas[..last], s, sm, t);
      assert semas[s := sm][..last] == semas[..last][s := sm];
    }
  }

  lemma {:induction false} WaiterCounted(semas: seq<Sema>, s: nat, t: Tid)
    requires s < |semas|
    ensures Times(semas[s].waiters, t) <= Waiting(semas, t)
  {
    var last := |semas| - 1;
    if s != last {
      WaiterCounted(semas[..last], s, t);
    }
  }

  lemma PKeepsInv(k: Kernel, s: nat, t: Tid)
    requires Inv(k) && s < |k.semas| && t in k.ready && t != k.idle
    ensures Inv(SemaP(k, s, t))
  {
    hide Without;
    var k' := SemaP(k, s, t);
    forall u ensures Times(k'.ready, u) + Waiting(k'.semas, u) == if u in k'.threads then 1 else 0 {
      WaitingUpdate(k.semas, s, k'.semas[s], u);
      TimesJoin(k.semas[s].waiters, [t], u);
    }
  }

  lemma VKeepsInv(k: Kernel, s: nat)
    requires Inv(k) && s < |k.semas|
    ensures Inv(SemaV(k, s))
  {
    var k' := SemaV(k, s);
    if k.semas[s].waiters != [] {
      WaiterCounted(k.semas, s, k.semas[s].waiters[0]);
    }
    forall u ensures Times(k'.ready, u) + Waiting(k'.semas, u) == if u in k'.threads then 1 else 0 {
      WaitingUpdate(k.semas, s, k'.semas[s], u);
      if k.semas[s].waiters != [] {
        TimesJoin(k.ready, [k.semas[s].waiters[0]], u);
      }
    }
  }

  lemma {:induction false} WithoutSplits(q: seq<Tid>, t: Tid) returns (at: nat)
    requires t in q
    ensures at < |q| && q[at] == t && Without(q, t) == q[..at] + q[at + 1..]
  {
    at := 0;
    if q[0] != t {
      at := WithoutSplits(q[1..], t);
      assert q[..at + 1] == [q[0]] + q[1..][..at] && q[at + 2..] == q[1..][at + 1..];
      at := at + 1;
    }
  }

  /** What a P is for: it takes a unit if there is one, else the thread leaves the ready ring for the end of
      the wait queue. Nothing else changes. */
  lemma PEffect(k: Kernel, s: nat, t: Tid)
    requires Inv(k) && s < |k.semas| && t in k.ready && t != k.idle
    ensures var (k', sm) := (SemaP(k, s, t), k.semas[s]);
            && k'.threads == k.threads && k'.idle == k.idle && |k'.semas| == |k.semas|
            && (forall r :: 0 <= r < |k.semas| && r != s ==> k'.semas[r] == k.semas[r])
            && k'.semas[s].count == sm.count - 1 && k'.semas[s].vs == sm.vs && k'.semas[s].released == sm.released
            && (sm.count > 0 ==>
                  && k'.ready == k.ready && k'.asleep == k.asleep && k'.semas[s].waiters == sm.waiters
                  && k'.semas[s].completed == sm.completed + 1)
            && (sm.count <= 0 ==>
                  && (exists at :: 0 <= at < |k.ready| && k.ready[at] == t
                                   && k'.ready == k.ready[..at] + k.ready[at + 1..])
                  && (forall u :: u in k'.ready <==> u in k.ready && u != t)
                  && k'.asleep == k.asleep + {t} && k'.semas[s].waiters == sm.waiters + [t]
                  && k'.semas[s].completed == sm.completed)
  {
    hide Without;
    PKeepsInv(k, s, t);
    if k.semas[s].count <= 0 {
      var at := WithoutSplits(k.ready, t);
      forall u ensures u in SemaP(k, s, t).ready <==> u in k.ready && u != t {
        assert Times(k.ready, u) + Waiting(k.semas, u) <= 1;
      }
    }
  }

  /** What a V is for: the thread that waits longest leaves the wait queue for the end of the ready ring;
      if none waits there is a unit more. Nothing else changes. */
  lemma VEffect(k: Kernel, s: nat)
    requires Inv(k) && s < |k.semas|
    ensures var (k', sm) := (SemaV(k, s), k.semas[s]);
            && k'.threads == k.threads && k'.idle == k.idle && |k'.semas| == |k.semas|
            && (forall r :: 0 <= r < |k.semas| && r != s ==> k'.semas[r] == k.semas[r])
            && k'.semas[s].count == sm.count + 1 && k'.semas[s].vs == sm.vs + 1
            && k'.semas[s].arrivals == sm.arrivals
            && (sm.waiters == [] ==>
                  && k'.ready == k.ready && k'.asleep == k.asleep && k'.semas[s].waiters == []
                  && k'.semas[s].completed == sm.completed)
            && (sm.waiters != [] ==>
                  && k'.ready == k.ready + [sm.waiters[0]] && k'.asleep == k.asleep - {sm.waiters[0]}
                  && k'.semas[s].waiters == sm.waiters[1..] && k'.semas[s].completed == sm.completed + 1)
  {
    hide Without;
    if k.semas[s].waiters != [] {
      WaiterCounted(k.semas, s, k.semas[s].waiters[0]);
    }
  }

  lemma CreateKeepsInv(k: Kernel, t: Tid)
    requires Inv(k) && t !in k.threads
    ensures Inv(CreateThread(k, t))
  {
    forall u ensures Times(k.ready + [t], u) == Times(k.ready, u) + Times([t], u) {
      TimesJoin(k.ready, [t], u);
    }
  }
}

/** Runs of semaphore operations: what holds in every reachable state. */
module SemaphoreRuns {
  import opened Semaphores

  datatype Op = OpInit(val: nat) | OpSetval(s: nat, val: nat) | OpP(s: nat, t: Tid) | OpV(s: nat) | OpCreate(t: Tid)

  /** sema_p runs in a ready thread other than the idle one; sema_v may run anywhere. */
  predicate Enabled(k: Kernel, op: Op) {
    match op
    case OpInit(_) => true
    case OpSetval(s, _) => s < |k.semas| && k.semas[s].waiters == []
    case OpP(s, t) => s < |k.semas| && t in k.ready && t != k.idle
    case OpV(s) => s < |k.semas|
    case OpCreate(t) => t !in k.threads
  }

  function Apply(k: Kernel, op: Op): Kernel
    requires Enabled(k, op)
  {
    match op
    case OpInit(val) => k.(semas := k.semas + [Fresh(val)])
    case OpSetval(s, val) => k.(semas := k.semas[s := Fresh(val)])
    case OpP(s, t) => SemaP(k, s, t)
    case OpV(s) => SemaV(k, s)
    case OpCreate(t) => CreateThread(k, t)
  }

  predicate Runs(k: Kernel, ops: seq<Op>)
    decreases |ops|
  {
    ops == [] || (Enabled(k, ops[0]) && Runs(Apply(k, ops[0]), ops[1..]))
  }

  function Run(k: Kernel, ops: seq<Op>): Kernel
    requires Runs(k, ops)
    decreases |ops|
  {
    if ops == [] then k else Run(Apply(k, ops[0]), ops[1..])
  }

  /** The system at start: the idle thread alone on the ready ring. */
  function Boot(idle: Tid): Kernel {
    Kernel({idle}, idle, [idle], 1, {}, [])
  }

  lemma BootInv(idle: Tid)
    ensures Inv(Boot(idle))
  {
    assert [idle][1..] == [];
  }

  lemma ApplyKeepsInv(k: Kernel, op: Op)
    requires Inv(k) && Enabled(k, op)
    ensures Inv(Apply(k, op))
  {
    match op
    case OpInit(val) =>
      assert (k.semas + [Fresh(val)])[..|k.semas|] == k.semas;
    case OpSetval(s, val) =>
      forall u ensures Waiting(k.semas[s := Fresh(val)], u) == Waiting(k.semas, u) {
        WaitingUpdate(k.semas, s, Fresh(val), u);
      }
    case OpP(s, t) => PKeepsInv(k, s, t);
    case OpV(s) => VKeepsInv(k, s);
    case OpCreate(t) => CreateKeepsInv(k, t);
  }

  lemma {:induction false} RunKeepsInv(k: Kernel, ops: seq<Op>)
    requires Inv(k) && Runs(k, ops)
    ensures Inv(Run(k, ops))
    decreases |ops|
  {
    if ops != [] {
      ApplyKeepsInv(k, ops[0]);
      RunKeepsInv(Apply(k, ops[0]), ops[1..]);
    }
  }

  /** In every reachable state each thread is ready or waits on one semaphore, never both, and
      each semaphore has -count waiters and has completed at most init + vs P operations. */
  lemma {:induction false} EveryReachableState(idle: Tid, ops: seq<Op>, s: nat, t: Tid)
    requires Runs(Boot(idle), ops)
    requires var k := Run(Boot(idle), ops); s < |k.semas| && t in k.threads
    ensures var k := Run(Boot(idle), ops);
            && k.readyCount == |k.ready|
            && (t in k.ready <==> forall s' :: 0 <= s' < |k.semas| ==> t !in k.semas[s'].waiters)
            && (forall i, j | 0 <= i < |k.semas| && 0 <= j < |k.semas| ::
                  t in k.semas[i].waiters && t in k.semas[j].waiters ==> i == j)
            && |k.semas[s].waiters| == (if k.semas[s].count < 0 then -k.semas[s].count else 0)
            && k.semas[s].completed <= k.semas[s].init + k.semas[s].vs
            && k.semas[s].released <= k.semas[s].arrivals
  {
    BootInv(idle);
    RunKeepsInv(Boot(idle), ops);
    var k := Run(Boot(idle), ops);
    WaitingSomewhere(k.semas, t);
    forall s' | 0 <= s' < |k.semas| ensures Times(k.semas[s'].waiters, t) <= Waiting(k.semas, t) {
      WaiterCounted(k.semas, s', t);
    }
    forall i, j | 0 <= i < j < |k.semas|
      ensures Times(k.semas[i].waiters, t) + Times(k.semas[j].waiters, t) <= Waiting(k.semas, t)
    {
      TwoWaitQueues(k.semas, i, j, t);
    }
  }

  function Vs(s: nat, n: nat): (ops: seq<Op>)
    ensures |ops| == n
  {
    if n == 0 then [] else [OpV(s)] + Vs(s, n - 1)
  }

  lemma NoVs(k: Kernel, s: nat)
    ensures Runs(k, Vs(s, 0)) && Run(k, Vs(s, 0)) == k
  {
  }

  lemma FirstOfVs(k: Kernel, s: nat, n: nat)
    requires n > 0 && s < |k.semas| && Runs(SemaV(k, s), Vs(s, n - 1))
    ensures Runs(k, Vs(s, n)) && Run(k, Vs(s, n)) == Run(SemaV(k, s), Vs(s, n - 1))
  {
    hide SemaV;
    assert Vs(s, n)[1..] == Vs(s, n - 1) && Vs(s, n)[0] == OpV(s);
  }

  /** A thread that waits as the n-th of its queue is ready again after just n V operations: they release
      the first n waiters, in order, and no other. */
  lemma {:induction false} VsRelease(k: Kernel, s: nat, n: nat)
    requires Inv(k) && s < |k.semas| && n <= |k.semas[s].waiters|
    ensures Runs(k, Vs(s, n)) && |Run(k, Vs(s, n)).semas| == |k.semas|
    ensures var (k', ws) := (Run(k, Vs(s, n)), k.semas[s].waiters);
            && k'.ready == k.ready + ws[..n] && k'.semas[s].waiters == ws[n..]
            && k'.semas[s].count == k.semas[s].count + n
    decreases n
  {
    hide Inv, SemaV, Runs, Run, Vs;
    if n > 0 {
      var k1 := SemaV(k, s);
      VEffect(k, s);
      VKeepsInv(k, s);
      VsRelease(k1, s, n - 1);
      FirstOfVs(k, s, n);
      assert k.semas[s].waiters[..n] == [k.semas[s].waiters[0]] + k1.semas[s].waiters[..n - 1];
    } else {
      NoVs(k, s);
    }
  }

  lemma {:induction false} WaitingSomewhere(semas: seq<Sema>, t: Tid)
    ensures Waiting(semas, t) > 0 ==> exists s :: 0 <= s < |semas| && t in semas[s].waiters
  {
    if semas != [] {
      var last := |semas| - 1;
      WaitingSomewhere(semas[..last], t);
      if t !in semas[last].waiters && Waiting(semas, t) > 0 {
        var s :| 0 <= s < last && t in semas[..last][s].waiters;
        assert t in semas[s].waiters;
      }
    }
  }

  lemma {:induction false} TwoWaitQueues(semas: seq<Sema>, i: nat, j: nat, t: Tid)
    requires i < j < |semas|
    ensures Times(semas[i].waiters, t) + Times(semas[j].waiters, t) <= Waiting(semas, t)
  {
    var last := |semas| - 1;
    if j == last {
      WaiterCounted(semas[..last], i, t);
    } else {
      TwoWaitQueues(semas[..last], i, j, t);
    }
  }
}
