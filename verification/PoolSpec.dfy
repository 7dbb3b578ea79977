/** Pools of equal chunks, one pool to a page (src/kernel/kern/pool.c): what one pool and one list of
    pools look like in memory. A pool is known by its page number, a chunk by its number in the page;
    addresses are byte addresses and 0 is the null chunk. */
module PoolSpec {
  import opened Common
  import opened BufferLists
  import opened Digits

  const PAGE: nat := 4096
  const HEADER: nat := 28   // sizeof(pool_desc_t): seven words

  datatype Desc = Desc(master: nat, refcnt: int, nfree: int, total: int, size: nat, free: nat, next: int)

  datatype Master = Master(pools: int, hint: int, count: int, size: nat)

  type Words = map<nat, nat>

  /** A chunk must hold a link, and one must fit in a page. */
  predicate SizeOk(size: nat) { 4 <= size <= PAGE - HEADER }

  function Total(size: nat): nat
    requires size > 0
  {
    Div(PAGE - HEADER, size)
  }

  function At(p: nat, size: nat, c: nat): nat { PAGE * p + HEADER + Times(size, c) }

  /** As many chunks as the page has room for behind the descriptor, and no more. */
  lemma TotalIsMost(size: nat, n: nat)
    requires SizeOk(size)
    ensures HEADER + size * n <= PAGE <==> n <= Total(size)
  {
    TimesIsProduct(size, n);
    DivMod(PAGE - HEADER, size);
    if n <= Total(size) {
      TimesSum(size, n, Total(size) - n);
    } else {
      TimesSum(size, Total(size) + 1, n - Total(size) - 1);
      TimesSum(size, Total(size), 1);
    }
  }

  lemma ChunkInPage(p: nat, size: nat, c: nat)
    requires SizeOk(size) && c < Total(size)
    ensures PAGE * p + HEADER <= At(p, size, c) && At(p, size, c) + size <= PAGE * p + PAGE
    ensures At(p, size, c) / PAGE == p && At(p, size, c) > 0
    ensures At(p, size, c) == 4096 * p + 28 + size * c
  {
    TimesIsProduct(size, c);
    DivMod(PAGE - HEADER, size);
    Below(size, c, size - 1, Total(size));
  }

  lemma ChunksApart(p: nat, size: nat, c: nat, d: nat)
    requires SizeOk(size) && c < d
    ensures At(p, size, c) + size <= At(p, size, d)
  {
    Below(size, c, size - 1, d);
  }

  lemma OtherAddress(p: nat, size: nat, c: nat, d: nat)
    requires SizeOk(size) && c != d
    ensures At(p, size, c) != At(p, size, d)
  {
    if c < d { ChunksApart(p, size, c, d); } else { ChunksApart(p, size, d, c); }
  }

  lemma SomeChunk(size: nat)
    requires SizeOk(size)
    ensures Total(size) > 0
  {
    DivMod(PAGE - HEADER, size);
  }

  // ----- the free chunks of a pool

  /** From address head the words link through the chunks q and end in 0. */
  ghost predicate FreeChain(word: Words, p: nat, size: nat, head: nat, q: seq<nat>)
    decreases |q|
  {
    if q == [] then head == 0
    else head == At(p, size, q[0]) && head in word && FreeChain(word, p, size, word[head], q[1..])
  }

  /** Nothing on page p is changed. */
  ghost predicate SamePage(word: Words, word': Words, p: nat) {
    forall a :: a in word && a / PAGE == p ==> a in word' && word'[a] == word[a]
  }

  lemma {:induction false} FreeChainSame(word: Words, word': Words, p: nat, size: nat, head: nat, q: seq<nat>)
    requires FreeChain(word, p, size, head, q) && SamePage(word, word', p)
    requires SizeOk(size) && InRange(q, Total(size))
    ensures FreeChain(word', p, size, head, q)
    decreases |q|
  {
    if q != [] {
      ChunkInPage(p, size, q[0]);
      FreeChainSame(word, word', p, size, word[head], q[1..]);
    }
  }

  /** A write elsewhere than at the free chunks of a page leaves its chain. */
  lemma {:induction false} FreeChainAway(word: Words, p: nat, size: nat, head: nat, q: seq<nat>, a: nat, to: nat)
    requires FreeChain(word, p, size, head, q) && forall k :: 0 <= k < |q| ==> At(p, size, q[k]) != a
    ensures FreeChain(word[a := to], p, size, head, q)
    decreases |q|
  {
    if q != [] {
      assert forall k :: 0 <= k < |q[1..]| ==> q[1..][k] == q[k + 1];
      FreeChainAway(word, p, size, word[head], q[1..], a, to);
    }
  }

  /** The words new_pool writes are the chain of all chunks in order. */
  lemma {:induction false} FreshChain(word: Words, p: nat, size: nat, c: nat, n: nat)
    requires c < n
    requires forall k: nat :: c <= k < n - 1 ==> At(p, size, k) in word && word[At(p, size, k)] == At(p, size, k) + size
    requires At(p, size, n - 1) in word && word[At(p, size, n - 1)] == 0
    ensures FreeChain(word, p, size, At(p, size, c), UpFrom(c, n))
    decreases n - c
  {
    var a := At(p, size, c);
    if c < n - 1 {
      FreshChain(word, p, size, c + 1, n);
      assert UpFrom(c, n)[1..] == UpFrom(c + 1, n);
      assert At(p, size, c + 1) == a + size;
    } else {
      assert UpFrom(c, n)[1..] == [];
    }
  }

  // ----- one pool

  /** Pool p has the free chunks q, in order, and the chunks s in use. */
  ghost predicate PoolOk(d: Desc, word: Words, p: nat, q: seq<nat>, s: set<nat>) {
    && SizeOk(d.size) && d.total == Total(d.size)
    && d.nfree == |q| && d.refcnt == |s| && d.nfree + d.refcnt == d.total
    && FreeChain(word, p, d.size, d.free, q)
    && Distinct(q) && InRange(q, Total(d.size))
    && (forall k :: 0 <= k < |q| ==> q[k] !in s)
    && (forall c :: c in s ==> c < Total(d.size))
    && (forall c: nat :: c < Total(d.size) ==> c in q || c in s)
  }

  lemma OtherPool(d: Desc, word: Words, word': Words, p: nat, q: seq<nat>, s: set<nat>)
    requires PoolOk(d, word, p, q, s) && SamePage(word, word', p)
    ensures PoolOk(d, word', p, q, s)
  {
    FreeChainSame(word, word', p, d.size, d.free, q);
  }

  /** Taking the first free chunk. */
  lemma TakeChunk(d: Desc, word: Words, p: nat, q: seq<nat>, s: set<nat>)
    requires PoolOk(d, word, p, q, s) && q != []
    ensures d.free == At(p, d.size, q[0]) && d.free in word && q[0] !in s
    ensures PoolOk(d.(free := word[d.free], refcnt := d.refcnt + 1, nfree := d.nfree - 1), word, p, q[1..], s + {q[0]})
  {
    forall c: nat | c < Total(d.size) ensures c in q[1..] || c in s + {q[0]} {
      if c in q && c != q[0] {
        var k :| 0 <= k < |q| && q[k] == c;
        assert q[1..][k - 1] == c;
      }
    }
  }

  /** Giving a chunk back. */
  lemma GiveChunk(d: Desc, word: Words, p: nat, q: seq<nat>, s: set<nat>, c: nat)
    requires PoolOk(d, word, p, q, s) && c in s
    ensures PoolOk(d.(free := At(p, d.size, c), refcnt := d.refcnt - 1, nfree := d.nfree + 1),
                   word[At(p, d.size, c) := d.free], p, [c] + q, s - {c})
  {
    var a := At(p, d.size, c);
    assert c !in q;
    forall k | 0 <= k < |q| ensures At(p, d.size, q[k]) != a { OtherAddress(p, d.size, q[k], c); }
    FreeChainAway(word, p, d.size, d.free, q, a, d.free);
    assert ([c] + q)[1..] == q;
    forall b: nat | b < Total(d.size) ensures b in [c] + q || b in s - {c} {
      if b in q {
        var k :| 0 <= k < |q| && q[k] == b;
        assert ([c] + q)[k + 1] == b;
      }
    }
  }

  lemma FreshPool(d: Desc, word: Words, p: nat)
    requires SizeOk(d.size) && d.total == d.nfree == Total(d.size) && d.refcnt == 0 && d.free == At(p, d.size, 0)
    requires FreeChain(word, p, d.size, d.free, UpFrom(0, Total(d.size)))
    ensures PoolOk(d, word, p, UpFrom(0, Total(d.size)), {})
  {
    forall c: nat | c < Total(d.size) ensures c in UpFrom(0, Total(d.size)) {
      assert UpFrom(0, Total(d.size))[c] == c;
    }
  }

  /** A pool without chunks in use has them all free; the counts tell. */
  lemma EmptyPool(d: Desc, word: Words, p: nat, q: seq<nat>, s: set<nat>)
    requires PoolOk(d, word, p, q, s)
    ensures d.refcnt == 0 <==> s == {}
    ensures d.free == 0 <==> q == []
    ensures d.free == 0 ==> s != {}
  {
    SomeChunk(d.size);
    if q != [] { ChunkInPage(p, d.size, q[0]); }
  }

  // ----- the list of pools of a master pool

  ghost predicate PoolList(desc: map<nat, Desc>, head: int, l: seq<nat>)
    decreases |l|
  {
    if l == [] then head == NULL else head == l[0] && l[0] in desc && PoolList(desc, desc[l[0]].next, l[1..])
  }

  ghost predicate SameNext(desc: map<nat, Desc>, desc': map<nat, Desc>, l: seq<nat>) {
    forall k :: 0 <= k < |l| && l[k] in desc ==> l[k] in desc' && desc'[l[k]].next == desc[l[k]].next
  }

  lemma {:induction false} PoolListSame(desc: map<nat, Desc>, desc': map<nat, Desc>, head: int, l: seq<nat>)
    requires PoolList(desc, head, l) && SameNext(desc, desc', l)
    ensures PoolList(desc', head, l)
    decreases |l|
  {
    if l != [] {
      assert forall k :: 0 <= k < |l[1..]| ==> l[1..][k] == l[k + 1];
      PoolListSame(desc, desc', desc[l[0]].next, l[1..]);
    }
  }

  lemma {:induction false} PoolListAt(desc: map<nat, Desc>, head: int, l: seq<nat>, k: nat)
    requires PoolList(desc, head, l) && k < |l|
    ensures l[k] in desc && desc[l[k]].next == if k + 1 < |l| then l[k + 1] else NULL
    ensures head == l[0]
    decreases |l|
  {
    if k > 0 {
      PoolListAt(desc, desc[l[0]].next, l[1..], k - 1);
    }
  }

  /** Unlinking element k + 1 by its predecessor. */
  lemma {:induction false} UnlinkPool(desc: map<nat, Desc>, head: int, l: seq<nat>, k: nat)
    requires PoolList(desc, head, l) && Distinct(l) && k + 1 < |l|
    ensures l[k] in desc && l[k + 1] in desc
    ensures PoolList(desc[l[k] := desc[l[k]].(next := desc[l[k + 1]].next)], head, Without(l, k + 1))
    decreases |l|
  {
    PoolListAt(desc, head, l, k);
    PoolListAt(desc, head, l, k + 1);
    var lp := l[k];
    var desc' := desc[lp := desc[lp].(next := desc[l[k + 1]].next)];
    var l' := Without(l, k + 1);
    if k == 0 {
      assert l[1..][1..] == l[2..] == l'[1..];
      assert forall j :: 0 <= j < |l[2..]| ==> l[2..][j] == l[j + 2];
      PoolListSame(desc, desc', desc[l[1]].next, l[2..]);
    } else {
      assert l[1..][k - 1] == l[k] && l[1..][k] == l[k + 1];
      UnlinkPool(desc, desc[l[0]].next, l[1..], k - 1);
      WithoutTail(l, k + 1);
    }
  }

  // ----- the scan of free_pool

  /** The loop of line 210 as it stands, n times round: lp never moves. */
  function ScanAsWritten(desc: map<nat, Desc>, lp: int, p: nat, n: nat): (found: bool) {
    n > 0 && lp >= 0 && lp in desc && (desc[lp].next == p || ScanAsWritten(desc, lp, p, n - 1))
  }

  /** So it finds a pool just when that is the second of the list, however long it runs. */
  lemma {:induction false} ScanAsWrittenFinds(desc: map<nat, Desc>, head: int, l: seq<nat>, at: nat, n: nat)
    requires PoolList(desc, head, l) && Distinct(l) && 0 < at < |l| && n > 0
    ensures ScanAsWritten(desc, head, l[at], n) <==> at == 1
    decreases n
  {
    PoolListAt(desc, head, l, 0);
    if n > 1 { ScanAsWrittenFinds(desc, head, l, at, n - 1); }
  }
}
