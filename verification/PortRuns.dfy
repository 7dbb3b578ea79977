/** The port in memory: the lists of PortLists hold the queue and the free list of the protocol of
    Messages, with the calls that its steps make, in every run. */
module PortRuns {
  import opened Messages
  import opened MessageInvariant
  import opened MessageRuns
  import opened MessageGlobals
  import opened MessageEffects
  import PortLists

  /** Where a step puts a message on a list, it is not on that list yet; a receiver past the gate finds one. */
  lemma CallsAllowed(p: Port, st: Step)
    requires PortInv(p) && Enabled(p, st)
    ensures Shaped(p)
    ensures st.Enq? ==> p.pcs[st.t].m !in p.queue
    ensures st.PutFree? ==> p.pcs[st.t].m !in p.freeList
    ensures st.TakeHead? ==> p.queue != []
    ensures st.Interrupt? && p.msgs[st.m].qref == 0 ==> st.m !in p.queue
  {
    match st
    case Enq(t) =>
      assert ThreadInv(p, t) && MessageInv(p, p.pcs[t].m);
    case PutFree(t) =>
      assert ThreadInv(p, t) && MessageInv(p, p.pcs[t].m);
    case TakeHead(t) => QueueNotEmpty(p, t);
    case Interrupt(m) => assert MessageInv(p, m);
    case _ =>
  }

  /** What a step makes of the queue and of the free list. */
  function QueueAfter(p: Port, st: Step): seq<Mid>
    requires Shaped(p) && Enabled(p, st)
  {
    match st
    case Enq(t) => p.queue + [p.pcs[t].m]
    case Interrupt(m) => if p.msgs[m].qref == 0 then p.queue + [m] else p.queue
    case TakeHead(_) => if p.queue == [] then [] else p.queue[1..]
    case _ => p.queue
  }

  function FreeAfter(p: Port, st: Step): seq<Mid>
    requires Shaped(p) && Enabled(p, st)
  {
    match st
    case GetFree(_) => if p.freeList == [] then [] else p.freeList[1..]
    case PutFree(t) => [p.pcs[t].m] + p.freeList
    case _ => p.freeList
  }

  lemma ListsAfter(p: Port, st: Step)
    requires PortInv(p) && Enabled(p, st)
    ensures var p' := Next(p, st);
            PortInv(p') && |p'.msgs| == |p.msgs| && p'.queue == QueueAfter(p, st) && p'.freeList == FreeAfter(p, st)
  {
    hide PortInv;
    Indices(p);
    ListsOf(p, st);
    NextKeepsInv(p, st);
  }

  lemma ListsOf(p: Port, st: Step)
    requires Shaped(p) && Enabled(p, st)
    ensures var p' := Next(p, st);
            |p'.msgs| == |p.msgs| && p'.queue == QueueAfter(p, st) && p'.freeList == FreeAfter(p, st)
  {
  }

  lemma Indices(p: Port)
    requires PortInv(p)
    ensures Shaped(p)
  {
  }

  ghost predicate Ids(q: seq<Mid>, n: nat) { forall i :: 0 <= i < |q| ==> q[i] < n }

  ghost predicate Different(at: seq<PortLists.Message>) {
    forall i, j :: 0 <= i < j < |at| ==> at[i] != at[j]
  }

  /** The messages with these ids. */
  ghost function On(at: seq<PortLists.Message>, q: seq<Mid>): (s: seq<PortLists.Message>)
    requires Ids(q, |at|)
    ensures |s| == |q| && forall i :: 0 <= i < |q| ==> s[i] == at[q[i]]
  {
    seq(|q|, i requires 0 <= i < |q| => at[q[i]])
  }

  lemma OnList(at: seq<PortLists.Message>, q: seq<Mid>, m: Mid)
    requires Ids(q, |at|) && m < |at| && Different(at)
    ensures On(at, q + [m]) == On(at, q) + [at[m]] && On(at, [m] + q) == [at[m]] + On(at, q)
    ensures m !in q ==> at[m] !in On(at, q)
    ensures q != [] ==> On(at, q[1..]) == On(at, q)[1..]
  {
  }

  class PortMemory {
    const at: seq<PortLists.Message>    // the messages by id
    const lists: PortLists.Lists
    var port: Port                      // all the rest; its queue and free list are what the lists hold

    ghost predicate ListsHold(q: seq<Mid>, f: seq<Mid>)
      reads lists, at
    {
      && Different(at) && Ids(q, |at|) && Ids(f, |at|)
      && lists.queue == On(at, q) && lists.free == On(at, f)
      && lists.Valid() && (lists.tail == null || lists.tail in at)
    }

    ghost predicate Valid()
      reads this, lists, at
    {
      PortInv(port) && |at| == |port.msgs| && ListsHold(port.queue, port.freeList)
    }

    /** A port as alloc_port leaves it, with its messages and those for interrupts. */
    constructor (ms: seq<PortLists.Message>, p: Port)
      requires Initial(p) && |ms| == |p.msgs| && Different(ms)
      modifies ms`nextFree
      ensures Valid() && at == ms && port == p
    {
      at, port := ms, p;
      lists := new PortLists.Lists();
      new;
      InitialInv(p);
      Indices(p);
      lists.Fill(ms[..8]);
    }

    method Enqueue(m: Mid, ghost q: seq<Mid>, ghost f: seq<Mid>)
      requires ListsHold(q, f) && m < |at| && m !in q
      modifies lists, at
      ensures ListsHold(q + [m], f) && lists.queue == old(lists.queue) + [at[m]]
    {
      OnList(at, q, m);
      lists.Enq(at[m]);
      assert lists.queue[|q|] == at[m];
    }

    method Release(m: Mid, ghost q: seq<Mid>, ghost f: seq<Mid>)
      requires ListsHold(q, f) && m < |at| && m !in f
      modifies lists, at
      ensures ListsHold(q, [m] + f) && lists.free == [at[m]] + old(lists.free)
    {
      OnList(at, f, m);
      lists.PutFree(at[m]);
    }

    method Take(ghost q: seq<Mid>, ghost f: seq<Mid>) returns (m: PortLists.Message?)
      requires ListsHold(q, f) && q != []
      modifies lists, at
      ensures ListsHold(q[1..], f) && q[0] < |at| && m == at[q[0]]
      ensures old(lists.queue) != [] && lists.queue == old(lists.queue)[1..]
    {
      OnList(at, q, q[0]);
      m := lists.TakeHead();
    }

    method Choose(ghost q: seq<Mid>, ghost f: seq<Mid>) returns (m: PortLists.Message?)
      requires ListsHold(q, f)
      modifies lists, at
      ensures ListsHold(q, if f == [] then [] else f[1..])
      ensures if f == [] then m == null else f[0] < |at| && m == at[f[0]]
      ensures f != [] ==> old(lists.free) != [] && lists.free == old(lists.free)[1..]
    {
      if f != [] { OnList(at, f, f[0]); }
      m := lists.GetFree();
    }

    /** Any step, with the list call it makes, if any; m is the message that a call returns. */
    method Do(st: Step) returns (m: PortLists.Message?)
      requires Valid() && Enabled(port, st)
      modifies this`port, lists, at
      ensures Valid() && port == Next(old(port), st)
      ensures st.TakeHead? ==>
                && old(port.queue) != [] && old(port.queue)[0] < |at| && m == at[old(port.queue)[0]]
                && old(lists.queue) != [] && lists.queue == old(lists.queue)[1..]
      ensures st.GetFree? ==>
                if old(port.freeList) == [] then m == null && port == old(port)
                else
                  && old(port.freeList)[0] < |at| && m == at[old(port.freeList)[0]]
                  && st.t < |port.pcs| && port.pcs[st.t] == Chosen(old(port.freeList)[0])
                  && old(lists.free) != [] && lists.free == old(lists.free)[1..]
      ensures st.Enq? && old(port).pcs[st.t].m < |at| ==>
                lists.queue == old(lists.queue) + [at[old(port).pcs[st.t].m]]
      ensures st.PutFree? && old(port).pcs[st.t].m < |at| ==>
                lists.free == [at[old(port).pcs[st.t].m]] + old(lists.free)
    {
      hide PortInv, Next, ListsHold, Ids, Different;
      CallsAllowed(port, st);
      ListsAfter(port, st);
      m := null;
      match st {
        case Enq(t) => Enqueue(port.pcs[t].m, port.queue, port.freeList);
        case PutFree(t) => Release(port.pcs[t].m, port.queue, port.freeList);
        case GetFree(t) =>
          GetFreeGets(port, t);
          m := Choose(port.queue, port.freeList);
        case TakeHead(_) => m := Take(port.queue, port.freeList);
        case Interrupt(i) =>
          if port.msgs[i].qref == 0 {
            Enqueue(i, port.queue, port.freeList);
          }
        case _ =>
      }
      port := Next(port, st);
    }

    /** A run. */
    method Play(steps: seq<Step>)
      requires Valid() && Runs(port, steps)
      modifies this`port, lists, at
      ensures Valid() && port == Run(old(port), steps)
    {
      hide PortInv, Next, ListsHold, Enabled;
      ghost var start := port;
      var k := 0;
      while k < |steps|
        invariant k <= |steps| && Valid()
        invariant Runs(port, steps[k..]) && Run(port, steps[k..]) == Run(start, steps)
      {
        Indices(port);
        assert steps[k..][1..] == steps[k + 1..];
        var m := Do(steps[k]);
        k := k + 1;
      }
    }
  }
}
