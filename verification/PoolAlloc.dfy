/** init_pool, new_pool, alloc_pool and free_pool over the page allocator, each taken as one step, as
    the pool's semaphore makes it. */
module PoolAlloc {
  import opened Common
  import opened BufferLists
  import opened Digits
  import opened Pages
  import opened PoolSpec
  import opened PoolState

  function Hinted(st: State, m: nat, p: int): State
    requires m < |st.masters|
  {
    st.(masters := st.masters[m := st.masters[m].(hint := p)])
  }

  lemma HintInv(st: State, m: nat, p: nat, x: int)
    requires Inv(st, x) && m < |st.masters| == |st.lists| && p in st.lists[m]
    ensures Inv(Hinted(st, m, p), x)
  {
    hide Pools, PoolList;
    HintMasters(st.masters, st.desc, st.lists, m, p);
    HintPools(st, m, p);
  }

  lemma HintMasters(masters: seq<Master>, desc: map<nat, Desc>, lists: seq<seq<nat>>, m: nat, p: nat)
    requires Masters(masters, desc, lists) && m < |masters| && p in lists[m]
    ensures Masters(masters[m := masters[m].(hint := p)], desc, lists)
  {
  }

  lemma HintPools(st: State, m: nat, p: nat)
    requires Pools(st) && m < |st.masters|
    ensures Pools(Hinted(st, m, p))
  {
    hide PoolOk;
    forall q | q in st.desc ensures PoolAt(Hinted(st, m, p), q) { assert PoolAt(st, q); }
  }

  /** A step along the list of pools of master m. */
  lemma ListStep(st: State, m: nat, k: nat, x: int)
    requires Inv(st, x) && m < |st.masters|
    ensures m < |st.lists| && (st.masters[m].pools == if st.lists[m] == [] then NULL else st.lists[m][0])
    ensures k < |st.lists[m]| ==>
              && st.lists[m][k] in st.desc && st.lists[m][k] in st.chain
              && (st.desc[st.lists[m][k]].next == if k + 1 < |st.lists[m]| then st.lists[m][k + 1] else NULL)
              && (st.desc[st.lists[m][k]].free == 0 <==> st.chain[st.lists[m][k]] == [])
  {
    hide Pools, PoolOk, PoolAt;
    MasterAt(st.masters, st.desc, st.lists, m);
    var l := st.lists[m];
    if k < |l| {
      PoolListAt(st.desc, st.masters[m].pools, l, k);
      KnownPool(st, l[k], x);
      EmptyPool(st.desc[l[k]], st.word, l[k], st.chain[l[k]], st.live[l[k]]);
    }
  }

  lemma MasterSize(st: State, m: nat, x: int)
    requires Inv(st, x) && m < |st.masters|
    ensures |st.masters| == |st.lists| && SizeOk(st.masters[m].size) && Total(st.masters[m].size) > 0
  {
    MasterAt(st.masters, st.desc, st.lists, m);
    SomeChunk(st.masters[m].size);
  }

  lemma OtherWords(st: State, word: Words, p: nat)
    requires forall a :: a in st.word && a / PAGE != p ==> a in word && word[a] == st.word[a]
    ensures OtherPages(st, word, p)
  {
  }

  lemma AddedKeys(st: State, m: nat, p: nat, word: Words)
    requires m < |st.masters| == |st.lists| && st.masters[m].size > 0
    ensures var st' := Added(st, m, p, word);
            && st'.desc.Keys == st.desc.Keys + {p} && st'.live == st.live[p := {}]
            && |st'.masters| == |st'.lists| == |st.masters| && st'.masters[m].size == st.masters[m].size
  {
  }

  lemma AddedHas(st: State, m: nat, p: nat, word: Words)
    requires m < |st.masters| == |st.lists| && SizeOk(st.masters[m].size)
    ensures var st' := Added(st, m, p, word);
            && p in st'.desc && p in st'.chain && st'.chain[p] != []
            && p in st'.live && st'.live[p] == {} && p in st'.lists[m]
  {
    SomeChunk(st.masters[m].size);
    assert Added(st, m, p, word).lists[m][0] == p;
  }

  lemma HintStep(st: State, m: nat, x: int)
    requires Inv(st, x) && m < |st.masters| && st.masters[m].hint != NULL
    ensures var p := st.masters[m].hint;
            && |st.lists| == |st.masters| && p in st.lists[m] && p in st.desc && p in st.chain
            && (st.desc[p].free == 0 <==> st.chain[p] == [])
  {
    MasterAt(st.masters, st.desc, st.lists, m);
    var p := st.masters[m].hint;
    var k :| 0 <= k < |st.lists[m]| && st.lists[m][k] == p;
    ListStep(st, m, k, x);
  }

  /** A pool in the list of master m belongs to it. */
  lemma ListedOwned(st: State, m: nat, p: nat, x: int)
    requires Inv(st, x) && m < |st.masters| == |st.lists| && p in st.lists[m]
    ensures p in st.desc && st.desc[p].master == m && st.desc[p].size == st.masters[m].size
  {
    var k :| 0 <= k < |st.lists[m]| && st.lists[m][k] == p;
    assert MasterOk(st.masters[m], m, st.desc, st.lists[m]);
    assert Owned(st.desc, st.lists[m][k], m, st.masters[m].size);
  }

  /** No pool of master m has a free chunk. */
  ghost predicate AllFull(st: State, m: nat) {
    m < |st.lists| && forall k :: 0 <= k < |st.lists[m]| ==>
      st.lists[m][k] in st.chain && st.chain[st.lists[m][k]] == []
  }

  /** Pool p is the one at place k of the list of master m, and the first there with a free chunk. */
  ghost predicate FreeAt(st: State, m: nat, p: nat, k: nat) {
    && m < |st.lists| && k < |st.lists[m]| && st.lists[m][k] == p && p in st.desc && p in st.chain && st.chain[p] != []
    && forall j :: 0 <= j < k ==> st.lists[m][j] in st.chain && st.chain[st.lists[m][j]] == []
  }

  ghost predicate FirstFree(st: State, m: nat, p: nat) {
    exists k: nat :: FreeAt(st, m, p, k)
  }

  predicate HintServes(st: State, m: nat) {
    && m < |st.masters| && st.masters[m].hint != NULL && st.masters[m].hint in st.desc
    && st.desc[st.masters[m].hint].free != 0
  }

  /** Pool p of st' is new: all its chunks are free, and it heads the list of its master. */
  predicate AddedPool(st: State, st': State, m: nat, p: nat) {
    && m < |st.lists| && m < |st.masters| && p in st'.desc && p in st'.chain && p in st'.live
    && st'.lists == st.lists[m := [p] + st.lists[m]]
    && st'.desc.Keys == st.desc.Keys + {p} && st'.desc[p].master == m && st'.desc[p].size == st.masters[m].size
    && st'.desc[p].nfree == st'.desc[p].total == |st'.chain[p]| && st'.desc[p].refcnt == 0 && st'.live[p] == {}
  }

  lemma AddedIsPool(st: State, m: nat, p: nat, word: Words)
    requires m < |st.masters| == |st.lists| && st.masters[m].size > 0
    ensures AddedPool(st, Added(st, m, p, word), m, p)
  {
  }

  /** The pool alloc_pool turns to: the hint if it has a free chunk, else the first of the list that
      has one, else a new one. */
  ghost predicate Turned(st: State, m: nat, p: nat) {
    if HintServes(st, m) then p == st.masters[m].hint
    else if AllFull(st, m) then p !in st.desc
    else FirstFree(st, m, p)
  }

  /** The state in which pool p is the hint, added first if it is new. */
  function Picked(st: State, m: nat, p: nat, word: Words): State
    requires m < |st.masters| == |st.lists| && st.masters[m].size > 0
  {
    Hinted(if p in st.desc then st else Added(st, m, p, word), m, p)
  }

  predicate CanPick(st: State, m: nat) { m < |st.masters| == |st.lists| && st.masters[m].size > 0 }

  predicate CanTake(st: State, p: nat) {
    p in st.desc && p in st.chain && p in st.live && st.chain[p] != [] && st.desc[p].free in st.word
  }

  lemma PickedFacts(st: State, m: nat, p: nat, word: Words)
    requires CanPick(st, m)
    ensures var t := Picked(st, m, p, word);
            && |t.masters| == |st.masters| == |t.lists| && t.masters[m].size == st.masters[m].size
            && t.masters[m].hint == p
            && (p in st.desc ==> t.live == st.live && t.desc == st.desc && t.chain == st.chain)
            && (p !in st.desc ==> t.live == st.live[p := {}] && t.desc.Keys == st.desc.Keys + {p})
  {
    if p !in st.desc { AddedKeys(st, m, p, word); }
  }

  lemma TookFacts(st: State, p: nat)
    requires CanTake(st, p)
    ensures Took(st, p).desc.Keys == st.desc.Keys && Took(st, p).live == st.live[p := st.live[p] + {st.chain[p][0]}]
    ensures Took(st, p).chain == st.chain[p := st.chain[p][1..]] && Took(st, p).masters == st.masters
  {
  }

  lemma HintAgain(st: State, m: nat)
    requires m < |st.masters| && st.masters[m].hint >= 0
    ensures Hinted(st, m, st.masters[m].hint) == st
  {
    assert st.masters[m := st.masters[m].(hint := st.masters[m].hint)] == st.masters;
  }

  /** A free pool of a list is there for the taking. */
  lemma FreeListed(st: State, m: nat, p: nat)
    requires FirstFree(st, m, p)
    ensures m < |st.lists| && p in st.lists[m] && p in st.desc && p in st.chain && st.chain[p] != [] && !AllFull(st, m)
  {
    var k: nat :| FreeAt(st, m, p, k);
    assert st.lists[m][k] == p;
  }

  lemma ListDistinct(st: State, m: nat, at: nat, x: int)
    requires Inv(st, x) && m < |st.masters| && m < |st.lists| && at < |st.lists[m]|
    ensures forall k :: 0 <= k < |st.lists[m]| && k != at ==> st.lists[m][k] != st.lists[m][at]
  {
    assert MasterOk(st.masters[m], m, st.desc, st.lists[m]);
  }

  lemma NotLast(s: set<nat>, c: nat)
    requires c in s
    ensures s - {c} == {} <==> s == {c}
  {
    if s - {c} == {} { assert forall d :: d in s ==> d == c || d in s - {c}; }
  }

  lemma LastInUse(st: State, p: nat)
    requires Inv(st, p) && p in st.live && st.live[p] != {}
    ensures Inv(st, NULL)
  {
    hide Masters, Pools;
  }

  ghost predicate CanRemove(st: State, p: nat, at: nat) {
    && |st.masters| == |st.lists| && Listed(st, p, at)
    && (at > 0 ==> st.lists[st.desc[p].master][at - 1] in st.desc)
  }

  lemma RemovedKeys(st: State, p: nat, at: nat)
    requires |st.masters| == |st.lists| && Listed(st, p, at)
    requires at > 0 ==> st.lists[st.desc[p].master][at - 1] in st.desc
    ensures var st' := Removed(st, p, at);
            st'.desc.Keys == st.desc.Keys - {p} && st'.live == st.live - {p} && |st'.masters| == |st.masters|
  {
  }

  function Initialised(st: State, size: nat): State {
    st.(masters := st.masters + [Master(NULL, NULL, 0, size)], lists := st.lists + [[]])
  }

  lemma InitInv(st: State, size: nat)
    requires Inv(st, NULL) && SizeOk(size)
    ensures Inv(Initialised(st, size), NULL)
  {
    var st' := Initialised(st, size);
    forall m | 0 <= m < |st'.lists| ensures MasterOk(st'.masters[m], m, st'.desc, st'.lists[m]) {
      if m < |st.lists| { assert MasterOk(st.masters[m], m, st.desc, st.lists[m]); }
    }
    forall q | q in st'.desc ensures PoolAt(st', q) { assert PoolAt(st, q); }
  }

  ghost function PagesOf(pools: set<nat>, free: seq<nat>): set<nat> { pools + (set p | p in free) }

  lemma PageTaken(pools: set<nat>, free: seq<nat>, p: nat)
    ensures free != [] && p == free[0] ==> PagesOf(pools + {p}, free[1..]) == PagesOf(pools, free)
    ensures p in pools ==> pools + {p} == pools
  {
    if free != [] { assert free == [free[0]] + free[1..]; }
  }

  lemma PageReturned(pools: set<nat>, free: seq<nat>, p: nat)
    requires p in pools && p !in free
    ensures PagesOf(pools - {p}, [p] + free) == PagesOf(pools, free)
    ensures PagesOf(pools - {p}, free) == PagesOf(pools, free) - {p}
  {
  }

  class PoolMemory {
    const db: PageDb
    var masters: seq<Master>
    var desc: map<nat, Desc>
    var word: Words
    ghost var lists: seq<seq<nat>>
    ghost var chain: map<nat, seq<nat>>
    ghost var live: map<nat, set<nat>>

    ghost function St(): State
      reads this
    {
      State(masters, desc, word, lists, chain, live)
    }

    ghost predicate Valid()
      reads this, db
    {
      db.Valid() && Inv(St(), NULL) && Apart()
    }

    /** No page is both a pool and free. */
    ghost predicate Apart()
      reads this`desc, db
    {
      forall p :: p in desc ==> NPG_RESERVED <= p < |db.flags| && p !in db.free
    }

    constructor (db: PageDb)
      requires db.Valid()
      ensures Valid() && this.db == db && masters == []
    {
      this.db := db;
      masters, desc, word := [], map[], map[];
      lists, chain, live := [], map[], map[];
    }

    method InitPool(size: nat) returns (m: nat)
      requires Valid() && SizeOk(size)
      modifies this
      ensures Valid() && m == |old(masters)| && St() == Initialised(old(St()), size)
      ensures masters == old(masters) + [Master(NULL, NULL, 0, size)] && lists == old(lists) + [[]]
    {
      InitInv(St(), size);
      m := |masters|;
      masters := masters + [Master(NULL, NULL, 0, size)];
      lists := lists + [[]];
    }

    /** The loop of new_pool: every chunk links to the one after it. */
    method LinkChunks(p: nat, size: nat, n: nat)
      requires SizeOk(size) && n == Total(size)
      modifies this`word
      ensures FreeChain(word, p, size, At(p, size, 0), UpFrom(0, n))
      ensures forall a :: a in old(word) && a / PAGE != p ==> a in word && word[a] == old(word)[a]
    {
      var addr, c := At(p, size, 0), 0;
      SomeChunk(size);
      while c < n - 1
        invariant 0 <= c <= n - 1 && addr == At(p, size, c)
        invariant forall k: nat :: k < c ==> At(p, size, k) in word && word[At(p, size, k)] == At(p, size, k) + size
        invariant forall a :: a in old(word) && a / PAGE != p ==> a in word && word[a] == old(word)[a]
      {
        ChunkInPage(p, size, c);
        forall k: nat | k < c ensures At(p, size, k) != addr { ChunksApart(p, size, k, c); }
        word := word[addr := addr + size];
        addr := addr + size;
        c := c + 1;
      }
      ChunkInPage(p, size, c);
      forall k: nat | k < c ensures At(p, size, k) != addr { ChunksApart(p, size, k, c); }
      word := word[addr := 0];
      FreshChain(word, p, size, 0, n);
    }

    /** The descriptor and the links of a new pool on page p. */
    method Register(m: nat, p: nat)
      requires Inv(St(), NULL) && m < |masters| && p !in desc
      modifies this`masters, this`desc, this`word, this`lists, this`chain, this`live
      ensures m < |old(lists)| == |old(masters)| && SizeOk(old(masters[m].size))
      ensures St() == Added(old(St()), m, p, word) && Inv(St(), p)
    {
      hide Inv, FreeChain, OtherPages;
      MasterSize(St(), m, NULL);
      var size := masters[m].size;
      var n := Div(PAGE - HEADER, size);
      LinkChunks(p, size, n);
      OtherWords(old(St()), word, p);
      AddedInv(old(St()), m, p, word);
      desc := desc[p := Desc(m, 0, n, n, size, PAGE * p + HEADER, masters[m].pools)];
      masters := masters[m := masters[m].(pools := p, count := masters[m].count + 1)];
      lists, chain, live := lists[m := [p] + lists[m]], chain[p := UpFrom(0, n)], live[p := {}];
    }

    /** new_pool: a page for master pool m, or NULL when there is none. */
    method NewPool(m: nat) returns (p: int)
      requires Valid() && m < |masters|
      modifies this, db
      ensures db.Valid() && |db.flags| == old(|db.flags|) && m < |old(lists)| == |old(masters)|
      ensures old(db.free) == [] ==> p == NULL && db.free == [] && St() == old(St())
      ensures old(db.free) != [] ==>
                && p == old(db.free)[0] && db.free == old(db.free)[1..] && p !in old(desc) && Apart()
                && SizeOk(old(masters[m].size)) && St() == Added(old(St()), m, p, word) && Inv(St(), p)
                && AddedPool(old(St()), St(), m, p)
    {
      hide Inv, Added, List, AddedPool;
      MasterSize(St(), m, NULL);
      ghost var was := St();
      var page := db.AllocPage();
      if page == 0 {
        return NULL;
      }
      p := page / PAGE;
      Register(m, p);
      AddedKeys(was, m, p, word);
      AddedIsPool(was, m, p, word);
    }

    /** The walk of alloc_pool along the pools of a master, to one with a free chunk. */
    method FindFree(m: nat) returns (p: int)
      requires Inv(St(), NULL) && m < |masters|
      ensures p == NULL ==> AllFull(St(), m)
      ensures p != NULL ==> p >= 0 && FirstFree(St(), m, p)
    {
      hide Inv;
      ListStep(St(), m, 0, NULL);
      ghost var l, k := lists[m], 0;
      p := masters[m].pools;
      while p != NULL
        invariant 0 <= k <= |l| && (if k < |l| then p == l[k] else p == NULL)
        invariant forall j :: 0 <= j < k ==> l[j] in chain && chain[l[j]] == []
        decreases |l| - k
      {
        ListStep(St(), m, k, NULL);
        if desc[p].free != 0 {
          assert FreeAt(St(), m, p, k);
          return;
        }
        p := desc[p].next;
        k := k + 1;
      }
    }

    /** The pages of all pools and the free ones. */
    ghost function PagesHeld(): set<nat>
      reads this`desc, db
    {
      PagesOf(desc.Keys, db.free)
    }

    /** The chunk at the head of the free chain of pool p. */
    method TakeFrom(p: nat, ghost x: int) returns (addr: nat, ghost c: nat)
      requires Inv(St(), x) && p in desc && chain[p] != [] && (x == NULL || x == p)
      modifies this`desc, this`chain, this`live
      ensures Inv(St(), NULL) && CanTake(old(St()), p) && St() == Took(old(St()), p)
      ensures c == old(chain[p][0]) && c !in old(live[p]) && addr == At(p, old(desc[p].size), c)
    {
      hide Inv;
      KnownPool(St(), p, x);
      TookInv(St(), p, x);
      ghost var q := chain[p];
      c := q[0];
      addr := desc[p].free;
      desc := desc[p := desc[p].(free := word[addr], refcnt := desc[p].refcnt + 1, nfree := desc[p].nfree - 1)];
      chain, live := chain[p := q[1..]], live[p := live[p] + {c}];
    }

    /** The first half of alloc_pool: the pool to take a chunk from becomes the hint. */
    method Pick(m: nat) returns (p: nat)
      requires Valid() && m < |masters| && (AllFull(St(), m) ==> db.free != [])
      modifies this, db
      ensures db.Valid() && Apart()
      ensures CanPick(old(St()), m) && St() == Picked(old(St()), m, p, word) && Turned(old(St()), m, p)
      ensures p in desc && p in chain && chain[p] != [] && m < |masters| == |lists| && p in lists[m]
      ensures if p in old(desc) then Inv(St(), NULL) && db.free == old(db.free)
              else
                && AllFull(old(St()), m) && Inv(St(), p)
                && old(db.free) != [] && p == old(db.free)[0] && db.free == old(db.free)[1..]
    {
      hide Inv, Added, List, AllFull, Masters, Pools, PoolOk, PoolAt, MasterOk, FirstFree, Total;
      MasterSize(St(), m, NULL);
      ghost var was := St();
      var q := masters[m].hint;
      if q != NULL {
        HintStep(St(), m, NULL);
        HintAgain(was, m);
      }
      if q != NULL && desc[q].free != 0 {
        return q;
      }
      q := FindFree(m);
      if q != NULL {
        FreeListed(was, m, q);
        HintInv(St(), m, q, NULL);
      } else {
        q := NewPool(m);
        AddedHas(was, m, q, word);
        AddedKeys(was, m, q, word);
        HintInv(St(), m, q, q);
      }
      masters := masters[m := masters[m].(hint := q)];
      p := q;
    }

    /** alloc_pool: chunk c of pool p, which was not in use; a new page only when every pool is full. */
    method AllocPool(m: nat) returns (addr: nat, ghost p: nat, ghost c: nat)
      requires Valid() && m < |masters| && (AllFull(St(), m) ==> db.free != [])
      modifies this, db
      ensures Valid() && Turned(old(St()), m, p) && addr == At(p, old(masters[m].size), c)
      ensures CanPick(old(St()), m) && CanTake(Picked(old(St()), m, p, word), p)
      ensures St() == Took(Picked(old(St()), m, p, word), p)
      ensures p in old(desc) ==>
                && p in old(live) && c !in old(live[p])
                && live == old(live)[p := old(live[p]) + {c}] && db.free == old(db.free)
      ensures p !in old(desc) ==>
                && AllFull(old(St()), m) && old(db.free) != [] && p == old(db.free)[0]
                && live == old(live)[p := {c}] && db.free == old(db.free)[1..]
      ensures PagesHeld() == old(PagesHeld())
      ensures p in chain && m < |masters| == old(|masters|) && masters[m].hint == p
      ensures p in old(desc) ==>
                && p in old(chain) && old(chain[p]) != [] && c == old(chain[p])[0]
                && chain == old(chain)[p := old(chain[p])[1..]]
    {
      hide Inv, List, AllFull, PagesOf, Picked, Turned, At, Added, Took;
      ghost var was := St();
      ghost var free := db.free;
      var q := Pick(m);
      p := q;
      ghost var x: int := if p in was.desc then NULL else p;
      PickedFacts(was, m, p, word);
      ListedOwned(St(), m, p, x);
      ghost var picked := St();
      addr, c := TakeFrom(q, x);
      TookFacts(picked, p);
      assert {} + {c} == {c};
      assert desc.Keys == was.desc.Keys + {p};
      PageTaken(was.desc.Keys, free, p);
    }

    /** The owner of chunk c of pool q writes a word into it: no pool is disturbed. */
    method WriteChunk(addr: nat, to: nat, ghost q: nat, ghost c: nat)
      requires Valid() && q in desc && q in live && c in live[q]
      requires At(q, desc[q].size, c) <= addr < At(q, desc[q].size, c) + desc[q].size
      modifies this`word
      ensures Valid() && word == old(word)[addr := to]
    {
      hide Inv, At;
      UseInv(St(), q, c, addr, to);
      word := word[addr := to];
    }

    /** The scan for the predecessor of pool p, with the step lp = lp->next that line 210 leaves out. */
    method FindBefore(p: nat, ghost at: nat) returns (lp: int)
      requires Inv(St(), p) && Listed(St(), p, at) && at > 0 && desc[p].master < |masters|
      ensures lp >= 0 && lp == lists[desc[p].master][at - 1] && lp in desc
    {
      hide Inv;
      ghost var m, k := desc[p].master, 0;
      ListStep(St(), m, 0, p);
      ListDistinct(St(), m, at, p);
      ghost var l := lists[m];
      lp := masters[desc[p].master].pools;
      while lp != NULL
        invariant k < at && lp == l[k] && lp in desc
        decreases at - k
      {
        ListStep(St(), m, k, p);
        ListStep(St(), m, k + 1, p);
        if desc[lp].next == p {
          return;
        }
        lp := desc[lp].next;
        k := k + 1;
      }
    }

    /** Takes pool p, which has no chunk in use, out of its list and out of memory. */
    method Unlink(p: nat, ghost at: nat)
      requires Inv(St(), p) && Listed(St(), p, at) && |masters| == |lists|
      requires at > 0 ==> lists[desc[p].master][at - 1] in desc
      modifies this`masters, this`desc, this`lists, this`chain, this`live
      ensures St() == Removed(old(St()), p, at) && Inv(St(), NULL)
    {
      hide Inv;
      ghost var was := St();
      RemovedInv(St(), p, at);
      var m, nx := desc[p].master, desc[p].next;
      ListStep(St(), m, at, p);
      ListDistinct(St(), m, at, p);
      var mp := masters[m];
      if mp.hint == p {
        mp := mp.(hint := nx);
      }
      if mp.pools == p {
        mp := mp.(pools := nx);
      } else {
        var lp := FindBefore(p, at);
        desc := desc[lp := desc[lp].(next := nx)];
      }
      masters := masters[m := mp.(count := mp.count - 1)];
      desc := desc - {p};
      lists, chain, live := lists[m := Without(lists[m], at)], chain - {p}, live - {p};
    }

    /** free_pool before its check of the reference count. */
    method GiveBack(addr: nat, p: nat, ghost c: nat) returns (last: bool)
      requires Inv(St(), NULL) && p in desc && c in live[p] && addr == At(p, desc[p].size, c)
      modifies this`desc, this`word, this`chain, this`live
      ensures p in old(chain) && p in old(live) && St() == Gave(old(St()), p, c)
      ensures Inv(St(), p) && desc.Keys == old(desc.Keys) && live == old(live)[p := old(live[p]) - {c}]
      ensures chain == old(chain)[p := [c] + old(chain[p])]
      ensures last <==> live[p] == {}
    {
      hide Inv;
      KnownPool(St(), p, NULL);
      GaveInv(St(), p, c);
      word := word[addr := desc[p].free];
      desc := desc[p := desc[p].(free := addr, refcnt := desc[p].refcnt - 1, nfree := desc[p].nfree + 1)];
      chain, live := chain[p := [c] + chain[p]], live[p := live[p] - {c}];
      KnownPool(St(), p, p);
      EmptyPool(desc[p], word, p, chain[p], live[p]);
      last := desc[p].refcnt == 0;
    }

    /** The end of free_pool: pool p is unlinked, and its page goes back unless it is page 2. */
    method Retire(p: nat, ghost at: nat)
      requires db.Valid() && Apart() && Inv(St(), p) && Listed(St(), p, at) && |masters| == |lists|
      requires at > 0 ==> lists[desc[p].master][at - 1] in desc
      modifies this, db
      ensures Valid() && St() == Removed(old(St()), p, at)
      ensures desc.Keys == old(desc.Keys) - {p} && live == old(live) - {p}
      ensures db.free == if p > NPG_RESERVED then [p] + old(db.free) else old(db.free)
    {
      hide Inv, List, Removed, Listed;
      ghost var was := St();
      OnList(was, p, at);
      Unlink(p, at);
      RemovedKeys(was, p, at);
      var _ := db.FreePage(PAGE * p);
    }

    lemma OnList(st: State, p: nat, at: nat)
      requires Listed(st, p, at)
      ensures p in st.desc
    {
    }

    lemma DropUpdated(live: map<nat, set<nat>>, p: nat, s: set<nat>)
      ensures live[p := s] - {p} == live - {p}
    {
    }

    /** free_pool: the page goes back just when its last chunk does, unless it is page 2. */
    method FreePool(addr: nat, ghost q: nat, ghost c: nat) returns (ghost at: nat)
      requires Valid() && q in desc && q in live && c in live[q] && addr == At(q, desc[q].size, c)
      modifies this, db
      ensures Valid() && q in old(chain)
      ensures old(live[q]) != {c} ==>
                && St() == Gave(old(St()), q, c) && db.free == old(db.free)
                && live == old(live)[q := old(live[q]) - {c}] && chain == old(chain)[q := [c] + old(chain[q])]
      ensures old(live[q]) == {c} ==>
                && CanRemove(Gave(old(St()), q, c), q, at) && St() == Removed(Gave(old(St()), q, c), q, at)
                && live == old(live) - {q} && db.free == if q > NPG_RESERVED then [q] + old(db.free) else old(db.free)
      ensures PagesHeld() == old(PagesHeld()) - if old(live[q]) == {c} && q == NPG_RESERVED then {q} else {}
    {
      hide Inv, List, PagesOf, Removed, Listed, At, Gave;
      PageReturned(desc.Keys, db.free, q);
      KnownPool(St(), q, NULL);
      ChunkInPage(q, desc[q].size, c);
      var p := addr / PAGE;
      var last := GiveBack(addr, p, c);
      NotLast(old(live[q]), c);
      DropUpdated(old(live), q, {});
      at := 0;
      if last {
        at := ListedPlace(St(), p, p);
        Retire(p, at);
      } else {
        LastInUse(St(), p);
      }
    }
  }
}
