/** All pools of all master pools, and what taking, giving back, adding and removing keeps. */
module PoolState {
  import opened Common
  import opened BufferLists
  import opened PoolSpec

  datatype State = State(masters: seq<Master>, desc: map<nat, Desc>, word: Words,
                         lists: seq<seq<nat>>, chain: map<nat, seq<nat>>, live: map<nat, set<nat>>)

  /** Master pool m has the list of pools l. */
  ghost predicate MasterOk(mp: Master, m: nat, desc: map<nat, Desc>, l: seq<nat>) {
    && PoolList(desc, mp.pools, l) && Distinct(l) && mp.count == |l| && SizeOk(mp.size)
    && (mp.hint == NULL || mp.hint in l)
    && forall k :: 0 <= k < |l| ==> Owned(desc, l[k], m, mp.size)
  }

  predicate Owned(desc: map<nat, Desc>, p: nat, m: nat, size: nat) {
    p in desc && desc[p].master == m && desc[p].size == size
  }

  ghost predicate PoolAt(st: State, p: nat) {
    && p in st.desc && p in st.chain && p in st.live
    && st.desc[p].master < |st.lists| && p in st.lists[st.desc[p].master]
    && PoolOk(st.desc[p], st.word, p, st.chain[p], st.live[p])
  }

  ghost predicate Masters(masters: seq<Master>, desc: map<nat, Desc>, lists: seq<seq<nat>>) {
    && |masters| == |lists|
    && forall m :: 0 <= m < |lists| ==> MasterOk(masters[m], m, desc, lists[m])
  }

  ghost predicate Pools(st: State) {
    forall p :: p in st.desc ==> PoolAt(st, p)
  }

  /** Every pool is in order, and has a chunk in use except perhaps pool x. */
  ghost predicate Inv(st: State, x: int) {
    && Masters(st.masters, st.desc, st.lists)
    && st.desc.Keys == st.chain.Keys == st.live.Keys
    && Pools(st)
    && (forall p :: p in st.desc && p != x ==> st.live[p] != {})
  }

  /** Two chunks in use share no byte, and each lies within its page, past the descriptor. */
  lemma LiveChunksDisjoint(st: State, x: int, p: nat, c: nat, q: nat, d: nat)
    requires Inv(st, x) && p in st.desc && q in st.desc && c in st.live[p] && d in st.live[q] && (p, c) != (q, d)
    ensures var (a, b) := (At(p, st.desc[p].size, c), At(q, st.desc[q].size, d));
            && (a + st.desc[p].size <= b || b + st.desc[q].size <= a)
            && PAGE * p + HEADER <= a && a + st.desc[p].size <= PAGE * p + PAGE
  {
    assert PoolAt(st, p) && PoolAt(st, q);
    ChunkPairApart(st.desc[p], st.desc[q], st.word, p, st.chain[p], st.live[p], c, q, st.chain[q], st.live[q], d);
  }

  lemma ChunkPairApart(dp: Desc, dq: Desc, word: Words, p: nat, fp: seq<nat>, sp: set<nat>, c: nat,
                       q: nat, fq: seq<nat>, sq: set<nat>, d: nat)
    requires PoolOk(dp, word, p, fp, sp) && PoolOk(dq, word, q, fq, sq) && c in sp && d in sq && (p, c) != (q, d)
    requires p == q ==> dp == dq
    ensures var (a, b) := (At(p, dp.size, c), At(q, dq.size, d));
            && (a + dp.size <= b || b + dq.size <= a)
            && PAGE * p + HEADER <= a && a + dp.size <= PAGE * p + PAGE
  {
    ChunkInPage(p, dp.size, c);
    ChunkInPage(q, dq.size, d);
    if p == q {
      if c < d { ChunksApart(p, dp.size, c, d); } else { ChunksApart(p, dp.size, d, c); }
    }
  }

  // ----- a chunk taken, a chunk given back

  /** Pool p with another descriptor, free list and chunks in use. */
  function Changed(st: State, p: nat, d: Desc, word: Words, q: seq<nat>, s: set<nat>): State {
    st.(desc := st.desc[p := d], word := word, chain := st.chain[p := q], live := st.live[p := s])
  }

  function Took(st: State, p: nat): State
    requires p in st.desc && p in st.chain && p in st.live && st.chain[p] != [] && st.desc[p].free in st.word
  {
    var d, q := st.desc[p], st.chain[p];
    Changed(st, p, d.(free := st.word[d.free], refcnt := d.refcnt + 1, nfree := d.nfree - 1), st.word,
            q[1..], st.live[p] + {q[0]})
  }

  function Gave(st: State, p: nat, c: nat): State
    requires p in st.desc && p in st.chain && p in st.live
  {
    var d, a := st.desc[p], At(p, st.desc[p].size, c);
    Changed(st, p, d.(free := a, refcnt := d.refcnt - 1, nfree := d.nfree + 1), st.word[a := d.free],
            [c] + st.chain[p], st.live[p] - {c})
  }

  /** A change of counts and free chain in one descriptor leaves the lists as they are. */
  lemma MastersSame(masters: seq<Master>, desc: map<nat, Desc>, lists: seq<seq<nat>>, p: nat, d: Desc)
    requires Masters(masters, desc, lists) && p in desc
    requires d.next == desc[p].next && d.master == desc[p].master && d.size == desc[p].size
    ensures Masters(masters, desc[p := d], lists)
  {
    forall m | 0 <= m < |lists| ensures MasterOk(masters[m], m, desc[p := d], lists[m]) {
      assert MasterOk(masters[m], m, desc, lists[m]);
      PoolListSame(desc, desc[p := d], masters[m].pools, lists[m]);
      forall k | 0 <= k < |lists[m]| ensures Owned(desc[p := d], lists[m][k], m, masters[m].size) {
        assert Owned(desc, lists[m][k], m, masters[m].size);
      }
    }
  }

  ghost predicate OtherPages(st: State, word: Words, p: nat) {
    forall r :: r in st.desc && r != p ==> SamePage(st.word, word, r)
  }

  lemma ChangedPools(st: State, p: nat, d: Desc, word: Words, q: seq<nat>, s: set<nat>)
    requires Pools(st) && p in st.desc && OtherPages(st, word, p) && PoolOk(d, word, p, q, s)
    requires d.master == st.desc[p].master
    ensures Pools(Changed(st, p, d, word, q, s))
  {
    assert PoolAt(st, p);
    forall r | r in st.desc ensures PoolAt(Changed(st, p, d, word, q, s), r) {
      assert PoolAt(st, r);
      if r != p { OtherPool(st.desc[r], st.word, word, r, st.chain[r], st.live[r]); }
    }
  }

  lemma ChangedInv(st: State, p: nat, d: Desc, word: Words, q: seq<nat>, s: set<nat>, x: int, x': int)
    requires Inv(st, x) && p in st.desc && OtherPages(st, word, p) && PoolOk(d, word, p, q, s)
    requires d.next == st.desc[p].next && d.master == st.desc[p].master && d.size == st.desc[p].size
    requires (s != {} || x' == p) && (x == x' || x == p || x == NULL)
    ensures Inv(Changed(st, p, d, word, q, s), x')
  {
    hide Masters, Pools, PoolOk, OtherPages;
    MastersSame(st.masters, st.desc, st.lists, p, d);
    ChangedPools(st, p, d, word, q, s);
  }

  lemma WriteElsewhere(st: State, p: nat, a: nat, to: nat)
    requires a / PAGE == p
    ensures OtherPages(st, st.word[a := to], p)
  {
  }

  lemma KnownPool(st: State, p: nat, x: int)
    requires Inv(st, x) && p in st.desc
    ensures p in st.chain && p in st.live && PoolAt(st, p)
    ensures PoolOk(st.desc[p], st.word, p, st.chain[p], st.live[p])
    ensures SizeOk(st.desc[p].size) && forall c :: c in st.live[p] ==> c < Total(st.desc[p].size)
  {
    assert PoolAt(st, p);
  }

  lemma TookInv(st: State, p: nat, x: int)
    requires Inv(st, x) && p in st.desc && st.chain[p] != []
    ensures st.desc[p].free in st.word && Inv(Took(st, p), if x == p then NULL else x)
    ensures st.desc[p].free == At(p, st.desc[p].size, st.chain[p][0]) && st.chain[p][0] !in st.live[p]
  {
    hide Masters, Pools, PoolAt, PoolOk;
    KnownPool(st, p, x);
    var d, q, s := st.desc[p], st.chain[p], st.live[p];
    TakeChunk(d, st.word, p, q, s);
    assert q[0] in s + {q[0]};
    ChangedInv(st, p, d.(free := st.word[d.free], refcnt := d.refcnt + 1, nfree := d.nfree - 1), st.word,
               q[1..], s + {q[0]}, x, if x == p then NULL else x);
  }

  lemma GaveInv(st: State, p: nat, c: nat)
    requires Inv(st, NULL) && p in st.desc && c in st.live[p]
    ensures Inv(Gave(st, p, c), p)
  {
    hide Masters, Pools, PoolAt, PoolOk, OtherPages;
    KnownPool(st, p, NULL);
    var d, q, s, a := st.desc[p], st.chain[p], st.live[p], At(p, st.desc[p].size, c);
    GiveChunk(d, st.word, p, q, s, c);
    ChunkInPage(p, d.size, c);
    WriteElsewhere(st, p, a, d.free);
    ChangedInv(st, p, d.(free := a, refcnt := d.refcnt - 1, nfree := d.nfree + 1), st.word[a := d.free],
               [c] + q, s - {c}, NULL, p);
  }

  lemma UsedPool(d: Desc, word: Words, p: nat, q: seq<nat>, s: set<nat>, c: nat, a: nat, to: nat)
    requires PoolOk(d, word, p, q, s) && c in s && At(p, d.size, c) <= a < At(p, d.size, c) + d.size
    ensures PoolOk(d, word[a := to], p, q, s) && a / PAGE == p
  {
    ChunkInPage(p, d.size, c);
    forall k | 0 <= k < |q| ensures At(p, d.size, q[k]) != a {
      if q[k] < c { ChunksApart(p, d.size, q[k], c); } else { ChunksApart(p, d.size, c, q[k]); }
    }
    FreeChainAway(word, p, d.size, d.free, q, a, to);
  }

  /** What the owner of a chunk writes into it disturbs no pool. */
  lemma UseInv(st: State, p: nat, c: nat, a: nat, to: nat)
    requires Inv(st, NULL) && p in st.desc && c in st.live[p]
    requires At(p, st.desc[p].size, c) <= a < At(p, st.desc[p].size, c) + st.desc[p].size
    ensures Inv(st.(word := st.word[a := to]), NULL)
  {
    hide Masters, Pools, PoolAt, PoolOk, OtherPages;
    KnownPool(st, p, NULL);
    UsedPool(st.desc[p], st.word, p, st.chain[p], st.live[p], c, a, to);
    WriteElsewhere(st, p, a, to);
    ChangedInv(st, p, st.desc[p], st.word[a := to], st.chain[p], st.live[p], NULL, NULL);
    assert Changed(st, p, st.desc[p], st.word[a := to], st.chain[p], st.live[p]) == st.(word := st.word[a := to]);
  }

  // ----- a pool added, a pool removed

  /** new_pool: page p at the head of the list of master m, word being what it wrote there. */
  function Added(st: State, m: nat, p: nat, word: Words): State
    requires m < |st.masters| == |st.lists| && st.masters[m].size > 0
  {
    var mp := st.masters[m];
    var n := Total(mp.size);
    st.(masters := st.masters[m := mp.(pools := p, count := mp.count + 1)],
        desc := st.desc[p := Desc(m, 0, n, n, mp.size, At(p, mp.size, 0), mp.pools)], word := word,
        lists := st.lists[m := [p] + st.lists[m]], chain := st.chain[p := UpFrom(0, n)], live := st.live[p := {}])
  }

  lemma OtherMaster(mp: Master, m: nat, desc: map<nat, Desc>, desc': map<nat, Desc>, l: seq<nat>)
    requires MasterOk(mp, m, desc, l)
    requires forall k :: 0 <= k < |l| && l[k] in desc ==>
               l[k] in desc' && desc'[l[k]].(next := 0) == desc[l[k]].(next := 0)
    requires PoolList(desc', mp.pools, l)
    ensures MasterOk(mp, m, desc', l)
  {
    forall k | 0 <= k < |l| ensures Owned(desc', l[k], m, mp.size) {
      assert Owned(desc, l[k], m, mp.size);
      assert desc'[l[k]].(next := 0).master == m && desc'[l[k]].(next := 0).size == mp.size;
    }
  }

  lemma PushedMaster(mp: Master, m: nat, desc: map<nat, Desc>, l: seq<nat>, p: nat, d: Desc)
    requires MasterOk(mp, m, desc, l) && p !in desc && d.master == m && d.size == mp.size && d.next == mp.pools
    ensures MasterOk(mp.(pools := p, count := mp.count + 1), m, desc[p := d], [p] + l)
  {
    forall k | 0 <= k < |l| ensures l[k] != p { assert Owned(desc, l[k], m, mp.size); }
    PoolListSame(desc, desc[p := d], mp.pools, l);
    assert ([p] + l)[1..] == l;
    forall k | 0 <= k < |[p] + l| ensures Owned(desc[p := d], ([p] + l)[k], m, mp.size) {
      if k > 0 { assert Owned(desc, l[k - 1], m, mp.size); }
    }
  }

  lemma AddedMasters(masters: seq<Master>, desc: map<nat, Desc>, lists: seq<seq<nat>>, m: nat, p: nat, d: Desc)
    requires Masters(masters, desc, lists) && m < |masters| && p !in desc
    requires d.master == m && d.size == masters[m].size && d.next == masters[m].pools
    ensures Masters(masters[m := masters[m].(pools := p, count := masters[m].count + 1)], desc[p := d],
                    lists[m := [p] + lists[m]])
  {
    PushedMaster(masters[m], m, desc, lists[m], p, d);
    forall i | 0 <= i < |lists| && i != m ensures MasterOk(masters[i], i, desc[p := d], lists[i]) {
      assert MasterOk(masters[i], i, desc, lists[i]);
      forall k | 0 <= k < |lists[i]| ensures lists[i][k] != p { assert Owned(desc, lists[i][k], i, masters[i].size); }
      PoolListSame(desc, desc[p := d], masters[i].pools, lists[i]);
      OtherMaster(masters[i], i, desc, desc[p := d], lists[i]);
    }
  }

  lemma AddedPools(st: State, m: nat, p: nat, word: Words)
    requires Pools(st) && m < |st.masters| == |st.lists| && SizeOk(st.masters[m].size)
    requires p !in st.desc && OtherPages(st, word, p)
    requires FreeChain(word, p, st.masters[m].size, At(p, st.masters[m].size, 0), UpFrom(0, Total(st.masters[m].size)))
    ensures Pools(Added(st, m, p, word))
  {
    var st' := Added(st, m, p, word);
    FreshPool(st'.desc[p], word, p);
    forall r | r in st'.desc ensures PoolAt(st', r) {
      if r != p {
        assert PoolAt(st, r);
        OtherPool(st.desc[r], st.word, word, r, st.chain[r], st.live[r]);
      }
    }
  }

  lemma MasterAt(masters: seq<Master>, desc: map<nat, Desc>, lists: seq<seq<nat>>, m: nat)
    requires Masters(masters, desc, lists) && m < |masters|
    ensures m < |lists| && MasterOk(masters[m], m, desc, lists[m]) && SizeOk(masters[m].size)
  {
  }

  lemma AddedInv(st: State, m: nat, p: nat, word: Words)
    requires Inv(st, NULL) && m < |st.masters| == |st.lists| && SizeOk(st.masters[m].size)
    requires p !in st.desc && OtherPages(st, word, p)
    requires FreeChain(word, p, st.masters[m].size, At(p, st.masters[m].size, 0), UpFrom(0, Total(st.masters[m].size)))
    ensures Inv(Added(st, m, p, word), p)
  {
    hide Masters, Pools, OtherPages, FreeChain, SamePage;
    AddedMasters(st.masters, st.desc, st.lists, m, p, Added(st, m, p, word).desc[p]);
    AddedPools(st, m, p, word);
  }

  /** Where pool p is in its list. */
  ghost predicate Listed(st: State, p: nat, at: nat) {
    && p in st.desc && st.desc[p].master < |st.lists|
    && at < |st.lists[st.desc[p].master]| && st.lists[st.desc[p].master][at] == p
  }

  function Shrunk(mp: Master, p: nat, nx: int): Master {
    mp.(pools := if mp.pools == p then nx else mp.pools,
        hint := if mp.hint == p then nx else mp.hint,
        count := mp.count - 1)
  }

  function Bypassed(desc: map<nat, Desc>, l: seq<nat>, at: nat): (desc': map<nat, Desc>)
    requires at < |l| && l[at] in desc && (at > 0 ==> l[at - 1] in desc)
    ensures desc'.Keys == desc.Keys
  {
    if at == 0 then desc else desc[l[at - 1] := desc[l[at - 1]].(next := desc[l[at]].next)]
  }

  /** The end of free_pool: pool p, at place at of its list, is unlinked and forgotten. */
  function Removed(st: State, p: nat, at: nat): State
    requires |st.masters| == |st.lists| && Listed(st, p, at)
    requires at > 0 ==> st.lists[st.desc[p].master][at - 1] in st.desc
  {
    var m := st.desc[p].master;
    st.(masters := st.masters[m := Shrunk(st.masters[m], p, st.desc[p].next)],
        desc := Bypassed(st.desc, st.lists[m], at) - {p},
        lists := st.lists[m := Without(st.lists[m], at)],
        chain := st.chain - {p}, live := st.live - {p})
  }

  lemma ShrunkList(desc: map<nat, Desc>, head: int, l: seq<nat>, at: nat)
    requires PoolList(desc, head, l) && Distinct(l) && at < |l|
    ensures l[at] in desc && (at > 0 ==> l[at - 1] in desc)
    ensures PoolList(Bypassed(desc, l, at) - {l[at]}, if head == l[at] then desc[l[at]].next else head, Without(l, at))
  {
    PoolListAt(desc, head, l, at);
    var p, l' := l[at], Without(l, at);
    if at > 0 {
      PoolListAt(desc, head, l, at - 1);
      UnlinkPool(desc, head, l, at - 1);
    } else {
      assert l' == l[1..];
    }
    var d := Bypassed(desc, l, at);
    PoolListSame(d, d - {p}, if head == p then desc[p].next else head, l');
  }

  lemma ShrunkMaster(mp: Master, m: nat, desc: map<nat, Desc>, l: seq<nat>, at: nat)
    requires MasterOk(mp, m, desc, l) && at < |l|
    ensures l[at] in desc && (at > 0 ==> l[at - 1] in desc)
    ensures MasterOk(Shrunk(mp, l[at], desc[l[at]].next), m, Bypassed(desc, l, at) - {l[at]}, Without(l, at))
  {
    var p, l' := l[at], Without(l, at);
    ShrunkList(desc, mp.pools, l, at);
    PoolListAt(desc, mp.pools, l, at);
    WithoutDistinct(l, at);
    var desc' := Bypassed(desc, l, at) - {p};
    var nx := desc[p].next;
    if mp.hint == p {
      if nx != NULL { InWithout(l, at, l[at + 1]); }
    } else if mp.hint != NULL {
      InWithout(l, at, mp.hint);
    }
    forall k | 0 <= k < |l'| ensures Owned(desc', l'[k], m, mp.size) {
      assert Owned(desc, l[if k < at then k else k + 1], m, mp.size);
    }
  }

  lemma RemovedMasters(masters: seq<Master>, desc: map<nat, Desc>, lists: seq<seq<nat>>, m: nat, at: nat)
    requires Masters(masters, desc, lists) && m < |masters| && at < |lists[m]|
    ensures lists[m][at] in desc && (at > 0 ==> lists[m][at - 1] in desc)
    ensures Masters(masters[m := Shrunk(masters[m], lists[m][at], desc[lists[m][at]].next)],
                    Bypassed(desc, lists[m], at) - {lists[m][at]}, lists[m := Without(lists[m], at)])
  {
    assert MasterOk(masters[m], m, desc, lists[m]);
    ShrunkMaster(masters[m], m, desc, lists[m], at);
    var desc' := Bypassed(desc, lists[m], at) - {lists[m][at]};
    forall i | 0 <= i < |lists| && i != m ensures MasterOk(masters[i], i, desc', lists[i]) {
      assert MasterOk(masters[i], i, desc, lists[i]);
      forall k | 0 <= k < |lists[i]| ensures lists[i][k] in desc' && desc'[lists[i][k]] == desc[lists[i][k]] {
        NotInOther(masters, desc, lists, i, k, m, at);
        if at > 0 { NotInOther(masters, desc, lists, i, k, m, at - 1); }
      }
      PoolListSame(desc, desc', masters[i].pools, lists[i]);
      OtherMaster(masters[i], i, desc, desc', lists[i]);
    }
  }

  lemma NotInOther(masters: seq<Master>, desc: map<nat, Desc>, lists: seq<seq<nat>>, i: nat, k: nat, m: nat, j: nat)
    requires Masters(masters, desc, lists) && i < |masters| && m < |masters| && i != m
    requires k < |lists[i]| && j < |lists[m]|
    ensures lists[i][k] in desc && lists[i][k] != lists[m][j]
  {
    assert MasterOk(masters[i], i, desc, lists[i]) && MasterOk(masters[m], m, desc, lists[m]);
    assert Owned(desc, lists[i][k], i, masters[i].size) && Owned(desc, lists[m][j], m, masters[m].size);
  }

  /** Where a pool stands in its list says nothing of its chunks. */
  lemma NextIsFree(d: Desc, next: int, word: Words, p: nat, q: seq<nat>, live: set<nat>)
    requires PoolOk(d, word, p, q, live)
    ensures PoolOk(d.(next := next), word, p, q, live)
  {
  }

  lemma RemovedPools(st: State, p: nat, at: nat)
    requires Pools(st) && |st.masters| == |st.lists| && Listed(st, p, at)
    requires at > 0 ==> st.lists[st.desc[p].master][at - 1] in st.desc
    ensures Pools(Removed(st, p, at))
  {
    hide PoolOk;
    var st' := Removed(st, p, at);
    forall r | r in st'.desc ensures PoolAt(st', r) {
      assert PoolAt(st, r);
      InWithout(st.lists[st.desc[p].master], at, r);
      NextIsFree(st.desc[r], st'.desc[r].next, st.word, r, st.chain[r], st.live[r]);
    }
  }

  lemma ListedPlace(st: State, p: nat, x: int) returns (at: nat)
    requires Inv(st, x) && p in st.desc
    ensures Listed(st, p, at) && |st.masters| == |st.lists|
    ensures at > 0 ==> st.lists[st.desc[p].master][at - 1] in st.desc
  {
    assert PoolAt(st, p);
    var m := st.desc[p].master;
    var l := st.lists[m];
    at :| 0 <= at < |l| && l[at] == p;
    assert MasterOk(st.masters[m], m, st.desc, l);
    if at > 0 { assert Owned(st.desc, l[at - 1], m, st.masters[m].size); }
  }

  lemma RemovedInv(st: State, p: nat, at: nat)
    requires Inv(st, p) && Listed(st, p, at) && (at > 0 ==> st.lists[st.desc[p].master][at - 1] in st.desc)
    requires |st.masters| == |st.lists|
    ensures Inv(Removed(st, p, at), NULL)
  {
    hide Masters, Pools;
    RemovedMasters(st.masters, st.desc, st.lists, st.desc[p].master, at);
    RemovedPools(st, p, at);
  }
}
