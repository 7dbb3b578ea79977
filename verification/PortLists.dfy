/** The two lists of a port as src/kernel/kern/msg.c links them: the message queue with its head
    and tail pointers and the free list. The tail pointer is never cleared when the queue empties. */
module PortLists {

  class Message {
    var next: Message?
    var nextFree: Message?

    constructor ()
      ensures next == null && nextFree == null
    {
      next, nextFree := null, null;
    }
  }

  class Lists {
    var head: Message?
    var tail: Message?
    var freeList: Message?
    ghost var queue: seq<Message>
    ghost var free: seq<Message>

    ghost predicate Valid()
      reads this, queue, free
    {
      && (forall i, j :: 0 <= i < j < |queue| ==> queue[i] != queue[j])
      && (forall i, j :: 0 <= i < j < |free| ==> free[i] != free[j])
      && head == (if queue == [] then null else queue[0])
      && (queue != [] ==> tail == queue[|queue| - 1])
      && (forall i {:trigger queue[i].next} :: 0 <= i < |queue| ==>
            queue[i].next == if i + 1 < |queue| then queue[i + 1] else null)
      && freeList == (if free == [] then null else free[0])
      && (forall i {:trigger free[i].nextFree} :: 0 <= i < |free| ==>
            free[i].nextFree == if i + 1 < |free| then free[i + 1] else null)
    }

    constructor ()
      ensures Valid() && queue == [] && free == [] && tail == null
    {
      head, tail, freeList := null, null, null;
      queue, free := [], [];
    }

    /** m_enq. A stale tail may be any message, m itself included, that is not in the queue. */
    method Enq(m: Message)
      requires Valid() && m !in queue
      modifies this`head, this`tail, this`queue, m`next, (if tail == null then {} else {tail})`next
      ensures Valid() && queue == old(queue) + [m] && free == old(free)
    {
      if tail != null {
        tail.next := m;
      }
      m.next := null;
      tail := m;
      if head == null {
        head := m;
      }
      queue := queue + [m];
    }

    /** The head taken off by m_receive; null stands for an empty queue. */
    method TakeHead() returns (m: Message?)
      requires Valid()
      modifies this`head, this`queue
      ensures Valid() && free == old(free)
      ensures if old(queue) == [] then m == null && queue == [] else m == old(queue)[0] && queue == old(queue)[1..]
    {
      m := head;
      if m == null {
        return;
      }
      head := m.next;
      assert queue[0].next == head;
      queue := queue[1..];
    }

    /** m_putfree. */
    method PutFree(m: Message)
      requires Valid() && m !in free
      modifies this`freeList, this`free, m`nextFree
      ensures Valid() && free == [m] + old(free) && queue == old(queue)
    {
      m.nextFree := freeList;
      freeList := m;
      free := [m] + free;
    }

    /** m_getfree. */
    method GetFree() returns (m: Message?)
      requires Valid()
      modifies this`freeList, this`free, free`nextFree
      ensures Valid() && queue == old(queue)
      ensures if old(free) == [] then m == null && free == [] else m == old(free)[0] && free == old(free)[1..]
    {
      m := freeList;
      if m != null {
        freeList := m.nextFree;
        assert free[0].nextFree == freeList;
        m.nextFree := null;
        free := free[1..];
      }
    }

    /** alloc_port's loop over free_list_size messages. */
    method Fill(ms: seq<Message>)
      requires Valid() && free == [] && forall i, j :: 0 <= i < j < |ms| ==> ms[i] != ms[j]
      modifies this`freeList, this`free, ms`nextFree
      ensures Valid() && queue == old(queue) && |free| == |ms|
      ensures forall i :: 0 <= i < |ms| ==> free[i] == ms[|ms| - 1 - i]
    {
      for c := 0 to |ms|
        invariant Valid() && queue == old(queue) && |free| == c
        invariant forall i :: 0 <= i < c ==> free[i] == ms[c - 1 - i]
      {
        PutFree(ms[c]);
      }
    }
  }
}
