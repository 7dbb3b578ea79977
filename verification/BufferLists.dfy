/** The lists of the block buffer cache of src/kernel/dev/buf.c (the version without _HASH).

    Buffer headers are numbered as in the buffers[] page; a link field is a table from a header to
    the number of its neighbour, and NULL is -1. */
module BufferLists {
  import opened Common

  const NULL: int := -1

  ghost predicate InRange(q: seq<nat>, n: nat) {
    forall k :: 0 <= k < |q| ==> q[k] < n
  }

  function Without(q: seq<nat>, at: nat): seq<nat>
    requires at < |q|
  {
    q[..at] + q[at + 1..]
  }

  lemma InWithout(q: seq<nat>, at: nat, c: nat)
    requires at < |q|
    ensures c in q && c != q[at] ==> c in Without(q, at)
    ensures Distinct(q) ==> q[at] !in Without(q, at)
  {
    if c in q && c != q[at] {
      var k :| 0 <= k < |q| && q[k] == c;
      assert Without(q, at)[if k < at then k else k - 1] == c;
    }
  }

  lemma WithoutDistinct(q: seq<nat>, at: nat)
    requires Distinct(q) && at < |q|
    ensures Distinct(Without(q, at))
  {
    forall i, j | 0 <= i < j < |q| - 1 ensures Without(q, at)[i] != Without(q, at)[j] {
      assert q[if i < at then i else i + 1] != q[if j < at then j else j + 1];
    }
  }

  lemma WithoutTail(q: seq<nat>, at: nat)
    requires 0 < at < |q|
    ensures Without(q, at) != [] && Without(q, at)[0] == q[0] && Without(q, at)[1..] == Without(q[1..], at - 1)
  {
    assert q[..at][1..] == q[1..][..at - 1];
    assert q[1..][at..] == q[at + 1..];
  }

  function Last(q: seq<nat>): nat
    requires q != []
  {
    q[|q| - 1]
  }

  /** Element k of q links to its successor, the last one to end. */
  predicate ToNext(link: seq<int>, q: seq<nat>, k: nat, end: int) {
    k < |q| && q[k] < |link| && link[q[k]] == if k + 1 < |q| then q[k + 1] else end
  }

  /** Element k of q links to its predecessor, the first one to end. */
  predicate ToPrev(link: seq<int>, q: seq<nat>, k: nat, end: int) {
    k < |q| && q[k] < |link| && link[q[k]] == if k > 0 then q[k - 1] else end
  }

  // ----- the free ring, oldest release first

  /** prev_free is circular throughout; next_free ends in NULL until a buffer is first taken. */
  ghost predicate FreeRing(nf: seq<int>, pf: seq<int>, head: int, q: seq<nat>) {
    && |nf| == |pf| && q != [] && Distinct(q) && InRange(q, |nf|)
    && head == q[0]
    && (nf[Last(q)] == q[0] || (nf[Last(q)] == NULL && |q| == |nf|))
    && (forall k: nat :: k < |q| ==> ToNext(nf, q, k, nf[Last(q)]))
    && (forall k: nat :: k < |q| ==> ToPrev(pf, q, k, Last(q)))
  }

  lemma RingNeighbours(nf: seq<int>, pf: seq<int>, head: int, q: seq<nat>, at: nat)
    requires FreeRing(nf, pf, head, q) && at < |q|
    ensures pf[q[at]] == if at > 0 then q[at - 1] else Last(q)
    ensures at + 1 < |q| ==> nf[q[at]] == q[at + 1]
    ensures NULL <= nf[q[at]] < |nf| && NULL <= pf[q[at]] < |pf|
  {
    assert ToPrev(pf, q, at, Last(q)) && ToNext(nf, q, at, nf[Last(q)]);
  }

  /** buf_remove_free on the link tables. */
  function Unlinked(nf: seq<int>, pf: seq<int>, b: nat): (seq<int>, seq<int>)
    requires b < |nf| == |pf| && NULL <= nf[b] < |nf| && NULL <= pf[b] < |pf|
  {
    var pf1 := if nf[b] != NULL then pf[nf[b] := pf[b]] else pf;
    var nf1 := if pf1[b] != NULL then nf[pf1[b] := nf[b]] else nf;
    (nf1[b := NULL], pf1[b := NULL])
  }

  lemma UnlinkPrev(nf: seq<int>, pf: seq<int>, head: int, q: seq<nat>, at: nat, k: nat)
    requires FreeRing(nf, pf, head, q) && at < |q| && |q| >= 2 && k < |q| - 1
    requires at == 0 || nf[Last(q)] != NULL
    requires NULL <= nf[q[at]] < |nf| && NULL <= pf[q[at]] < |pf|
    ensures var q' := Without(q, at); ToPrev(Unlinked(nf, pf, q[at]).1, q', k, Last(q'))
  {
    RingNeighbours(nf, pf, head, q, at);
    RingNeighbours(nf, pf, head, q, if k < at then k else k + 1);
  }

  lemma UnlinkNext(nf: seq<int>, pf: seq<int>, head: int, q: seq<nat>, at: nat, k: nat)
    requires FreeRing(nf, pf, head, q) && at < |q| && |q| >= 2 && k < |q| - 1
    requires at == 0 || nf[Last(q)] != NULL
    requires NULL <= nf[q[at]] < |nf| && NULL <= pf[q[at]] < |pf|
    ensures var q' := Without(q, at); ToNext(Unlinked(nf, pf, q[at]).0, q', k, q'[0])
  {
    RingNeighbours(nf, pf, head, q, at);
    RingNeighbours(nf, pf, head, q, if k < at then k else k + 1);
    RingNeighbours(nf, pf, head, q, |q| - 1);
  }

  lemma UnlinkKeepsRing(nf: seq<int>, pf: seq<int>, head: int, q: seq<nat>, at: nat)
    requires FreeRing(nf, pf, head, q) && at < |q| && |q| >= 2
    requires at == 0 || nf[Last(q)] != NULL
    ensures NULL <= nf[q[at]] < |nf| && NULL <= pf[q[at]] < |pf|
    ensures var (nf', pf') := Unlinked(nf, pf, q[at]);
            FreeRing(nf', pf', if head == q[at] then nf[q[at]] else head, Without(q, at))
            && nf'[Last(Without(q, at))] != NULL
  {
    var q' := Without(q, at);
    RingNeighbours(nf, pf, head, q, at);
    forall k: nat | k < |q'| ensures ToPrev(Unlinked(nf, pf, q[at]).1, q', k, Last(q')) {
      UnlinkPrev(nf, pf, head, q, at, k);
    }
    forall k: nat | k < |q'| ensures ToNext(Unlinked(nf, pf, q[at]).0, q', k, q'[0]) {
      UnlinkNext(nf, pf, head, q, at, k);
    }
    assert ToNext(Unlinked(nf, pf, q[at]).0, q', |q'| - 1, q'[0]);
  }

  /** buf_insert_free on the link tables, the list not being empty. */
  function Appended(nf: seq<int>, pf: seq<int>, head: nat, b: nat): (seq<int>, seq<int>)
    requires b < |nf| == |pf| && head < |nf| && NULL <= pf[head] < |pf|
  {
    var nf1 := nf[b := head];
    var pf1 := pf[b := pf[head]];
    (if NULL < pf1[head] < |nf| then nf1[pf1[head] := b] else nf1, pf1[head := b])
  }

  lemma AppendKeepsRing(nf: seq<int>, pf: seq<int>, head: int, q: seq<nat>, b: nat)
    requires FreeRing(nf, pf, head, q) && b < |nf| && b !in q
    ensures 0 <= head < |nf| && NULL <= pf[head] < |pf|
    ensures var (nf', pf') := Appended(nf, pf, head, b);
            FreeRing(nf', pf', head, q + [b]) && nf'[b] != NULL
  {
    var q' := q + [b];
    RingNeighbours(nf, pf, head, q, 0);
    var (nf', pf') := Appended(nf, pf, head, b);
    forall k: nat | k < |q'| ensures ToPrev(pf', q', k, b) && ToNext(nf', q', k, head) {
      if k < |q| { RingNeighbours(nf, pf, head, q, k); }
    }
  }

  // ----- a hash chain, newest key first

  ghost predicate Chain(next: seq<int>, prev: seq<int>, head: int, c: seq<nat>) {
    && |next| == |prev| && Distinct(c) && InRange(c, |next|)
    && head == (if c == [] then NULL else c[0])
    && (forall k: nat :: k < |c| ==> ToNext(next, c, k, NULL))
    && (forall k: nat :: k < |c| ==> ToPrev(prev, c, k, NULL))
  }

  lemma ChainNeighbours(next: seq<int>, prev: seq<int>, head: int, c: seq<nat>, at: nat)
    requires Chain(next, prev, head, c) && at < |c|
    ensures next[c[at]] == if at + 1 < |c| then c[at + 1] else NULL
    ensures prev[c[at]] == if at > 0 then c[at - 1] else NULL
    ensures NULL <= next[c[at]] < |next| && NULL <= prev[c[at]] < |prev|
  {
    assert ToNext(next, c, at, NULL) && ToPrev(prev, c, at, NULL);
  }

  lemma ChainElsewhere(next: seq<int>, prev: seq<int>, next': seq<int>, prev': seq<int>, head: int, c: seq<nat>)
    requires Chain(next, prev, head, c) && |next'| == |prev'| == |next|
    requires forall k :: 0 <= k < |c| ==> next'[c[k]] == next[c[k]] && prev'[c[k]] == prev[c[k]]
    ensures Chain(next', prev', head, c)
  {
    forall k: nat | k < |c| ensures ToNext(next', c, k, NULL) && ToPrev(prev', c, k, NULL) {
      ChainNeighbours(next, prev, head, c, k);
    }
  }

  /** buf_remove_hash on the link tables. */
  function Unchained(next: seq<int>, prev: seq<int>, b: nat): (seq<int>, seq<int>)
    requires b < |next| == |prev| && NULL <= next[b] < |next| && NULL <= prev[b] < |prev|
  {
    var prev1 := if next[b] != NULL then prev[next[b] := prev[b]] else prev;
    var next1 := if prev1[b] != NULL then next[prev1[b] := next[b]] else next;
    (next1[b := NULL], prev1[b := NULL])
  }

  lemma UnchainKeepsChain(next: seq<int>, prev: seq<int>, head: int, c: seq<nat>, at: nat)
    requires Chain(next, prev, head, c) && at < |c|
    ensures NULL <= next[c[at]] < |next| && NULL <= prev[c[at]] < |prev|
    ensures var (next', prev') := Unchained(next, prev, c[at]);
            Chain(next', prev', if head == c[at] then next[c[at]] else head, Without(c, at))
  {
    var c' := Without(c, at);
    ChainNeighbours(next, prev, head, c, at);
    var (next', prev') := Unchained(next, prev, c[at]);
    forall k: nat | k < |c'| ensures ToNext(next', c', k, NULL) && ToPrev(prev', c', k, NULL) {
      ChainNeighbours(next, prev, head, c, if k < at then k else k + 1);
    }
  }

  /** Where buf_remove_hash writes: the buffer and its two neighbours in the chain. */
  lemma UnchainTouches(next: seq<int>, prev: seq<int>, head: int, c: seq<nat>, at: nat, b: nat)
    requires Chain(next, prev, head, c) && at < |c| && b < |next| && b !in c
    requires NULL <= next[c[at]] < |next| && NULL <= prev[c[at]] < |prev|
    ensures var (next', prev') := Unchained(next, prev, c[at]); next'[b] == next[b] && prev'[b] == prev[b]
  {
    ChainNeighbours(next, prev, head, c, at);
  }

  /** buf_insert_hash on the link tables; prev[b] is NULL already. */
  function Chained(next: seq<int>, prev: seq<int>, head: int, b: nat): (seq<int>, seq<int>)
    requires b < |next| == |prev| && NULL <= head < |prev|
  {
    (next[b := head], if head != NULL then prev[head := b] else prev)
  }

  lemma ChainInsert(next: seq<int>, prev: seq<int>, head: int, c: seq<nat>, b: nat)
    requires Chain(next, prev, head, c) && b < |next| && b !in c && prev[b] == NULL
    ensures NULL <= head < |prev|
    ensures var (next', prev') := Chained(next, prev, head, b); Chain(next', prev', b, [b] + c)
  {
    var (next', prev') := Chained(next, prev, head, b);
    forall k: nat | k < |c| + 1 ensures ToNext(next', [b] + c, k, NULL) && ToPrev(prev', [b] + c, k, NULL) {
      if k > 0 { ChainNeighbours(next, prev, head, c, k - 1); }
    }
  }
}
