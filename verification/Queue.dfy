/** The circular doubly linked queues of include/tinos/queue.h.

    The macros work on a head pointer and on two link fields of the elements; here the link
    fields are maps from an element to its neighbour and the null head is None. The ghost
    sequence q lists the elements of the ring from its head on. */
module Queue {
  import opened Common

  datatype Links<E> = Links(next: map<E, E>, prev: map<E, E>)

  function After(k: int, n: nat): int { if k + 1 == n then 0 else k + 1 }

  ghost predicate Linked<E>(l: Links<E>, x: E, y: E) {
    x in l.next && l.next[x] == y && y in l.prev && l.prev[y] == x
  }

  /** head and l form the ring whose elements are q in order. */
  ghost predicate Ring<E>(head: Option<E>, l: Links<E>, q: seq<E>) {
    && Distinct(q)
    && head == (if q == [] then None else Some(q[0]))
    && forall k :: 0 <= k < |q| ==> Linked(l, q[k], q[After(k, |q|)])
  }

  /** Links of elements outside q are the same. */
  ghost predicate SameOutside<E(!new)>(l: Links<E>, l': Links<E>, q: seq<E>) {
    && (forall x :: x !in q ==> (x in l.next <==> x in l'.next) && (x in l.prev <==> x in l'.prev))
    && (forall x :: x !in q && x in l.next ==> l'.next[x] == l.next[x])
    && (forall x :: x !in q && x in l.prev ==> l'.prev[x] == l.prev[x])
  }

  lemma RingOutside<E(!new)>(head: Option<E>, l: Links<E>, l': Links<E>, q: seq<E>, r: seq<E>)
    requires Ring(head, l, q) && SameOutside(l, l', r)
    requires forall k :: 0 <= k < |q| ==> q[k] !in r
    ensures Ring(head, l', q)
  {
    forall k | 0 <= k < |q| ensures Linked(l', q[k], q[After(k, |q|)]) {
      assert Linked(l, q[k], q[After(k, |q|)]);
    }
  }

  method Enqueue<E(==,!new)>(head: Option<E>, l: Links<E>, e: E, ghost q: seq<E>)
    returns (head': Option<E>, l': Links<E>)
    requires Ring(head, l, q) && e !in q
    ensures Ring(head', l', q + [e]) && SameOutside(l, l', q + [e])
  {
    if head == None {
      head' := Some(e);
      l' := Links(l.next[e := e], l.prev[e := e]);
    } else {
      head' := head;
      assert Linked(l, q[|q| - 1], q[After(|q| - 1, |q|)]);
      var last := l.prev[head.value];
      var next := l.next[e := head.value];
      var prev := l.prev[e := last];
      next := next[last := e];
      prev := prev[head.value := e];
      l' := Links(next, prev);
      forall k | 0 <= k < |q| + 1 ensures Linked(l', (q + [e])[k], (q + [e])[After(k, |q| + 1)]) {
        if k < |q| - 1 {
          assert Linked(l, q[k], q[After(k, |q|)]);
        }
      }
    }
  }

  method EnqueueBefore<E(==,!new)>(head: Option<E>, l: Links<E>, before: E, e: E, ghost q: seq<E>, ghost at: nat)
    returns (head': Option<E>, l': Links<E>)
    requires Ring(head, l, q) && e !in q && at < |q| && q[at] == before
    ensures Ring(head', l', q[..at] + [e] + q[at..])
    ensures SameOutside(l, l', q + [e])
  {
    ghost var pr := if at == 0 then |q| - 1 else at - 1;
    assert Linked(l, q[pr], q[After(pr, |q|)]);
    var next := l.next[e := before];
    var prev := l.prev[e := l.prev[before]];
    next := next[l.prev[before] := e];
    prev := prev[before := e];
    l' := Links(next, prev);
    head' := if Some(before) == head then Some(e) else head;
    ghost var q' := q[..at] + [e] + q[at..];
    forall k | 0 <= k < |q'| ensures Linked(l', q'[k], q'[After(k, |q'|)]) {
      if k < at - 1 {
        assert Linked(l, q[k], q[After(k, |q|)]);
      } else if k > at {
        assert Linked(l, q[k - 1], q[After(k - 1, |q|)]);
      }
    }
  }

  method Dequeue<E(==,!new)>(head: Option<E>, l: Links<E>, e: E, ghost q: seq<E>, ghost at: nat)
    returns (head': Option<E>, l': Links<E>)
    requires Ring(head, l, q) && at < |q| && q[at] == e
    ensures Ring(head', l', q[..at] + q[at + 1..])
    ensures SameOutside(l, l', q)
  {
    ghost var pr := if at == 0 then |q| - 1 else at - 1;
    assert Linked(l, q[pr], q[After(pr, |q|)]) && Linked(l, q[at], q[After(at, |q|)]);
    if l.next[e] == e {
      assert |q| == 1;
      head', l' := None, l;
    } else {
      var next, prev := l.next[e], l.prev[e];
      l' := Links(l.next[prev := next], l.prev[next := prev]);
      head' := if head == Some(e) then Some(next) else head;
      ghost var q' := q[..at] + q[at + 1..];
      forall k | 0 <= k < |q'| ensures Linked(l', q'[k], q'[After(k, |q'|)]) {
        if k < at {
          assert Linked(l, q[k], q[After(k, |q|)]);
        } else {
          assert Linked(l, q[k + 1], q[After(k + 1, |q|)]);
        }
      }
    }
  }

  /** unlink of src/kernel/kern/thread.c: as Dequeue, for an element that is never the head. */
  method Unlink<E(==,!new)>(l: Links<E>, e: E, ghost head: Option<E>, ghost q: seq<E>, ghost at: nat)
    returns (l': Links<E>)
    requires Ring(head, l, q) && 0 < at < |q| && q[at] == e
    ensures Ring(head, l', q[..at] + q[at + 1..])
    ensures SameOutside(l, l', q)
  {
    assert Linked(l, q[at - 1], q[After(at - 1, |q|)]) && Linked(l, q[at], q[After(at, |q|)]);
    var next, prev := l.next[e], l.prev[e];
    l' := Links(l.next[prev := next], l.prev[next := prev]);
    ghost var q' := q[..at] + q[at + 1..];
    forall k | 0 <= k < |q'| ensures Linked(l', q'[k], q'[After(k, |q'|)]) {
      if k < at {
        assert Linked(l, q[k], q[After(k, |q|)]);
      } else {
        assert Linked(l, q[k + 1], q[After(k + 1, |q|)]);
      }
    }
  }
}
