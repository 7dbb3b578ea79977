/** The physical page allocator: the page frame database and its free list (src/kernel/vm/page.c). */
module Pages {
  import opened Common
  import opened BufferLists

  const NPG_RESERVED: nat := 2
  const PAGESZ: nat := 4096

  const PGF_FREE: nat := 0
  const PGF_RESERVED: nat := 2
  const PGF_USED: nat := 4

  /** From head the links lead through q and end in NULL. */
  ghost predicate List(next: seq<int>, head: int, q: seq<nat>)
    decreases |q|
  {
    if q == [] then head == NULL else head == q[0] < |next| && List(next, next[q[0]], q[1..])
  }

  lemma {:induction false} ListElsewhere(next: seq<int>, head: int, q: seq<nat>, p: nat, to: int)
    requires List(next, head, q) && p !in q && p < |next|
    ensures List(next[p := to], head, q)
    decreases |q|
  {
    if q != [] { ListElsewhere(next, next[q[0]], q[1..], p, to); }
  }

  lemma {:induction false} RunLinks(next: seq<int>, s: nat, e: nat, q: seq<nat>)
    requires s < e <= |next| && List(next, next[e - 1], q)
    requires forall c: nat :: s <= c < e - 1 ==> next[c] == c + 1
    ensures List(next, s, UpFrom(s, e) + q)
    decreases e - s
  {
    var l := UpFrom(s, e) + q;
    if s + 1 < e {
      RunLinks(next, s + 1, e, q);
      assert l[1..] == UpFrom(s + 1, e) + q;
    } else {
      assert l[1..] == q;
    }
  }

  lemma TwoRunsList(next: seq<int>, s: nat, e: nat)
    requires NPG_RESERVED < s <= e < |next| && next[|next| - 1] == NULL && next[s - 1] == e
    requires forall c: nat :: NPG_RESERVED <= c < |next| - 1 && c != s - 1 ==> next[c] == c + 1
    ensures List(next, NPG_RESERVED, UpFrom(NPG_RESERVED, s) + UpFrom(e, |next|))
  {
    RunLinks(next, e, |next|, []);
    assert UpFrom(e, |next|) + [] == UpFrom(e, |next|);
    RunLinks(next, NPG_RESERVED, s, UpFrom(e, |next|));
  }

  lemma RunsHave(n: nat, s: nat, e: nat)
    requires NPG_RESERVED < s <= e < n
    ensures forall p: nat :: p < n ==>
              (p in UpFrom(NPG_RESERVED, n) <==> NPG_RESERVED <= p)
              && (p in UpFrom(NPG_RESERVED, s) + UpFrom(e, n) <==> NPG_RESERVED <= p < s || e <= p)
  {
    forall p: nat | NPG_RESERVED <= p < n ensures p in UpFrom(NPG_RESERVED, n) {
      assert UpFrom(NPG_RESERVED, n)[p - NPG_RESERVED] == p;
    }
    forall p: nat | NPG_RESERVED <= p < s ensures p in UpFrom(NPG_RESERVED, s) {
      assert UpFrom(NPG_RESERVED, s)[p - NPG_RESERVED] == p;
    }
    forall p: nat | e <= p < n ensures p in UpFrom(e, n) {
      assert UpFrom(e, n)[p - e] == p;
    }
  }

  class PageDb {
    var next: seq<int>
    var flags: seq<nat>
    var freePages: int
    var freeCount: int
    ghost var free: seq<nat>

    ghost predicate Valid()
      reads this
    {
      && List(next, freePages, free) && Distinct(free) && |flags| == |next|
      && freeCount == |free|
      && (forall k :: 0 <= k < |free| ==> NPG_RESERVED <= free[k] < |flags|)
      && (forall p: nat :: p < |flags| ==> (flags[p] == PGF_FREE <==> p in free))
    }

    /** init_pages: every page but the first two is free. */
    constructor (maxPages: nat)
      requires maxPages > NPG_RESERVED
      ensures Valid() && free == UpFrom(NPG_RESERVED, maxPages) && |flags| == maxPages
      ensures forall p: nat :: NPG_RESERVED <= p < maxPages - 1 ==> next[p] == p + 1
      ensures next[maxPages - 1] == NULL
    {
      next := seq(maxPages, c => if NPG_RESERVED <= c < maxPages - 1 then c + 1 else NULL);
      flags := seq(maxPages, c => if NPG_RESERVED <= c then PGF_FREE else PGF_RESERVED);
      freePages := NPG_RESERVED;
      freeCount := maxPages - NPG_RESERVED;
      free := UpFrom(NPG_RESERVED, maxPages);
      new;
      RunLinks(next, NPG_RESERVED, maxPages, []);
      assert UpFrom(NPG_RESERVED, maxPages) + [] == free;
      forall p: nat | NPG_RESERVED <= p < maxPages ensures p in free { assert free[p - NPG_RESERVED] == p; }
    }

    /** reserve_region on the database as init_pages leaves it: the list skips pages s to e. */
    method ReserveRegion(start: nat, end: nat)
      requires Valid() && |flags| > NPG_RESERVED && free == UpFrom(NPG_RESERVED, |flags|)
      requires forall p: nat :: NPG_RESERVED <= p < |flags| - 1 ==> next[p] == p + 1
      requires next[|flags| - 1] == NULL
      requires NPG_RESERVED < start / PAGESZ <= end / PAGESZ < |flags|
      modifies this
      ensures Valid() && |flags| == old(|flags|)
      ensures free == UpFrom(NPG_RESERVED, start / PAGESZ) + UpFrom(end / PAGESZ, |flags|)
    {
      var s, e := start / PAGESZ, end / PAGESZ;
      var c := s;
      while c < e
        invariant s <= c <= e && |flags| == old(|flags|) && unchanged(`next, `freeCount, `freePages)
        invariant forall p: nat :: p < |flags| ==> flags[p] == if s <= p < c then PGF_RESERVED else old(flags[p])
      {
        flags := flags[c := PGF_RESERVED];
        c := c + 1;
      }
      next := next[s - 1 := c];
      freeCount := freeCount - (e - s);
      free := UpFrom(NPG_RESERVED, s) + UpFrom(e, |flags|);
      TwoRunsList(next, s, e);
      RunsHave(|flags|, s, e);
    }

    /** alloc_page: the head of the free list, or 0 when there is none. */
    method AllocPage() returns (addr: nat)
      requires Valid()
      modifies this
      ensures Valid() && |flags| == old(|flags|)
      ensures old(free) == [] ==> addr == 0 && free == []
      ensures old(free) != [] ==> addr == PAGESZ * old(free)[0] && free == old(free)[1..] && addr > 0
    {
      var p := freePages;
      if p != NULL && flags[p] == PGF_FREE {
        ghost var was := free;
        freePages := next[freePages];
        freeCount := freeCount - 1;
        free := free[1..];
        ListElsewhere(next, freePages, free, p, NULL);
        next := next[p := NULL];
        flags := flags[p := PGF_USED];
        assert was == [p] + free;
        return PAGESZ * p;
      }
      return 0;
    }

    /** free_page: takes back any page above number 2. */
    method FreePage(addr: nat) returns (ok: bool)
      requires Valid() && (addr / PAGESZ < |flags| ==> addr / PAGESZ !in free)
      modifies this
      ensures Valid() && |flags| == old(|flags|)
      ensures ok <==> NPG_RESERVED < addr / PAGESZ < |flags|
      ensures free == if ok then [addr / PAGESZ] + old(free) else old(free)
    {
      var i := addr / PAGESZ;
      ok := NPG_RESERVED < i < |flags|;
      if ok {
        ListElsewhere(next, freePages, free, i, freePages);
        next := next[i := freePages];
        freePages := i;
        flags := flags[i := PGF_FREE];
        freeCount := freeCount + 1;
        free := [i] + free;
      }
    }
  }

  /** Page 2 starts out at the head of the free list, but free_page does not take it back. */
  method SecondReservedPageIsLost(maxPages: nat) returns (db: PageDb, addr: nat, ok: bool)
    requires maxPages > NPG_RESERVED
    ensures addr == PAGESZ * NPG_RESERVED && !ok && NPG_RESERVED !in db.free
  {
    db := new PageDb(maxPages);
    addr := db.AllocPage();
    ok := db.FreePage(addr);
  }
}
