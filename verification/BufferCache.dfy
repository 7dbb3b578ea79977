/** HASH_FUNC: exclusive or of device and block number, modulo the size of the table. */
module HashFunction {
  import opened CacheSpec

  const HASH_TABLE_SIZE: nat := 32

  /** Exclusive or of words of that many bits. */
  function Xor(x: nat, y: nat, bits: nat): nat {
    if bits == 0 then 0 else 2 * Xor(x / 2, y / 2, bits - 1) + (x + y) % 2
  }

  function HashOf(key: Key): (h: nat)
    ensures h < HASH_TABLE_SIZE
  {
    Xor(key.dev, key.blk, 32) % HASH_TABLE_SIZE
  }

  /** The low bits of a word. */
  function Low(v: nat, bits: nat): nat {
    if bits == 0 then 0 else 2 * Low(v / 2, bits - 1) + v % 2
  }

  lemma NoLow(v: nat)
    ensures Low(v, 0) == 0
  {
  }

  lemma LowStep(v: nat, bits: nat)
    requires bits > 0
    ensures Low(v, bits) == 2 * Low(v / 2, bits - 1) + v % 2
  {
  }

  /** One bit more of an exclusive or. */
  lemma XorStep(x: nat, y: nat, bits: nat, low: nat)
    requires 0 < low <= bits
    ensures Low(Xor(x, y, bits), low) == 2 * Low(Xor(x / 2, y / 2, bits - 1), low - 1) + (x + y) % 2
  {
    LowStep(Xor(x, y, bits), low);
    assert Xor(x, y, bits) / 2 == Xor(x / 2, y / 2, bits - 1);
  }

  lemma Halves(v: nat)
    ensures v == 2 * (v / 2) + v % 2
  {
  }

  lemma RemainderOf(v: nat, q: nat, r: nat)
    requires v == 32 * q + r && r < 32
    ensures v % 32 == r
  {
  }

  lemma Low5(v: nat)
    ensures Low(v, 5) == v % 32
  {
    hide Low;
    var a := v / 2;
    var b := a / 2;
    var c := b / 2;
    var d := c / 2;
    LowStep(v, 5);
    LowStep(a, 4);
    LowStep(b, 3);
    LowStep(c, 2);
    LowStep(d, 1);
    NoLow(d / 2);
    Halves(v);
    Halves(a);
    Halves(b);
    Halves(c);
    Halves(d);
    RemainderOf(v, d / 2, Low(v, 5));
  }

  lemma {:induction false} XorLow(d: nat, x: nat, y: nat, bits: nat, low: nat)
    requires low <= bits
    ensures Low(Xor(d, x, bits), low) == Low(Xor(d, y, bits), low) <==> Low(x, low) == Low(y, low)
  {
    hide Xor, Low;
    if low > 0 {
      XorLow(d / 2, x / 2, y / 2, bits - 1, low - 1);
      XorStep(d, x, bits, low);
      XorStep(d, y, bits, low);
      LowStep(x, low);
      LowStep(y, low);
    } else {
      NoLow(x);
      NoLow(y);
      NoLow(Xor(d, x, bits));
      NoLow(Xor(d, y, bits));
    }
  }

  lemma {:induction false} XorTurned(x: nat, y: nat, bits: nat)
    ensures Xor(x, y, bits) == Xor(y, x, bits) && (x == y ==> Xor(x, y, bits) == 0)
  {
    if bits > 0 { XorTurned(x / 2, y / 2, bits - 1); }
  }

  lemma HashOfOne()
    ensures HashOf(Key(0x301, 37)) == 4
  {
    hide Xor, Low;
    Low5(Xor(0x301, 37, 32));
    XorStep(0x301, 37, 32, 5);
    XorStep(0x180, 18, 31, 4);
    XorStep(0xc0, 9, 30, 3);
    XorStep(0x60, 4, 29, 2);
    XorStep(0x30, 2, 28, 1);
    NoLow(Xor(0x18, 1, 27));
  }

  /** Blocks of one device share a chain exactly if their numbers agree modulo 32, and so for devices. */
  lemma HashSpreads(d: Ulong, x: Ulong, y: Ulong)
    ensures HashOf(Key(d, x)) == HashOf(Key(d, y)) <==> x % 32 == y % 32
    ensures HashOf(Key(x, d)) == HashOf(Key(y, d)) <==> x % 32 == y % 32
    ensures HashOf(Key(x, x)) == 0 && HashOf(Key(0x301, 37)) == 4
  {
    hide Xor, Low;
    XorLow(d, x, y, 32, 5);
    XorTurned(d, x, 32);
    XorTurned(d, y, 32);
    XorTurned(x, x, 32);
    Low5(Xor(d, x, 32));
    Low5(Xor(d, y, 32));
    Low5(x);
    Low5(y);
    HashOfOne();
  }
}

/** The hash table of the buffer cache as a whole: 32 chains over shared link tables. */
module BufferHash {
  import opened Common
  import opened BufferLists
  import opened CacheSpec
  import opened HashFunction

  ghost predicate Linked(next: seq<int>, prev: seq<int>, table: seq<int>, chains: seq<seq<nat>>) {
    && |table| == |chains| == HASH_TABLE_SIZE && |next| == |prev|
    && forall h :: 0 <= h < HASH_TABLE_SIZE ==> Chain(next, prev, table[h], chains[h])
  }

  /** A buffer is on the chain of its key if it is hashed, else on none. */
  ghost predicate Members(chains: seq<seq<nat>>, keys: seq<Key>, hashed: seq<bool>) {
    && |chains| == HASH_TABLE_SIZE && |keys| == |hashed|
    && (forall h, k :: 0 <= h < HASH_TABLE_SIZE && 0 <= k < |chains[h]| ==> Member(chains[h][k], h, keys, hashed))
    && (forall b :: 0 <= b < |keys| && hashed[b] ==> b in chains[HashOf(keys[b])])
  }

  predicate Member(b: nat, h: nat, keys: seq<Key>, hashed: seq<bool>) {
    b < |keys| == |hashed| && hashed[b] && HashOf(keys[b]) == h
  }

  ghost predicate Detached(next: seq<int>, prev: seq<int>, hashed: seq<bool>) {
    && |next| == |prev| == |hashed|
    && forall b :: 0 <= b < |hashed| && !hashed[b] ==> next[b] == NULL && prev[b] == NULL
  }

  ghost predicate HashOk(next: seq<int>, prev: seq<int>, table: seq<int>, chains: seq<seq<nat>>,
                         keys: seq<Key>, hashed: seq<bool>)
  {
    Linked(next, prev, table, chains) && Members(chains, keys, hashed) && Detached(next, prev, hashed)
  }

  lemma RemoveMember(chains: seq<seq<nat>>, keys: seq<Key>, hashed: seq<bool>, b: nat, h: nat, at: nat)
    requires Members(chains, keys, hashed) && b < |keys| && hashed[b] && h == HashOf(keys[b])
    requires at < |chains[h]| && chains[h][at] == b && Distinct(chains[h])
    ensures Members(chains[h := Without(chains[h], at)], keys, hashed[b := false])
  {
    hide HashOf;
    var c' := Without(chains[h], at);
    var chains' := chains[h := c'];
    InWithout(chains[h], at, b);
    forall g, k | 0 <= g < HASH_TABLE_SIZE && 0 <= k < |chains'[g]|
      ensures Member(chains'[g][k], g, keys, hashed[b := false])
    {
      if g == h {
        assert Member(chains[h][if k < at then k else k + 1], h, keys, hashed);
        assert c'[k] in c';
      } else {
        assert Member(chains[g][k], g, keys, hashed);
      }
    }
    forall c | 0 <= c < |keys| && hashed[b := false][c] ensures c in chains[h := c'][HashOf(keys[c])] {
      InWithout(chains[h], at, c);
    }
  }

  lemma RemoveLinks(next: seq<int>, prev: seq<int>, table: seq<int>, chains: seq<seq<nat>>,
                    keys: seq<Key>, hashed: seq<bool>, b: nat, h: nat, at: nat)
    requires HashOk(next, prev, table, chains, keys, hashed) && b < |keys| && hashed[b]
    requires h == HashOf(keys[b]) && at < |chains[h]| && chains[h][at] == b
    ensures NULL <= next[b] < |next| && NULL <= prev[b] < |prev|
    ensures var (next', prev') := Unchained(next, prev, b);
            Linked(next', prev', table[h := if table[h] == b then next[b] else table[h]],
                   chains[h := Without(chains[h], at)])
  {
    hide HashOf;
    UnchainKeepsChain(next, prev, table[h], chains[h], at);
    var (next', prev') := Unchained(next, prev, b);
    forall g | 0 <= g < HASH_TABLE_SIZE && g != h ensures Chain(next', prev', table[g], chains[g]) {
      forall k | 0 <= k < |chains[g]|
        ensures next'[chains[g][k]] == next[chains[g][k]] && prev'[chains[g][k]] == prev[chains[g][k]]
      {
        assert Member(chains[g][k], g, keys, hashed);
        NotOnOtherChain(chains, keys, hashed, g, k, h);
        UnchainTouches(next, prev, table[h], chains[h], at, chains[g][k]);
      }
      ChainElsewhere(next, prev, next', prev', table[g], chains[g]);
    }
  }

  lemma NotOnOtherChain(chains: seq<seq<nat>>, keys: seq<Key>, hashed: seq<bool>, g: nat, k: nat, h: nat)
    requires Members(chains, keys, hashed) && g < HASH_TABLE_SIZE && h < HASH_TABLE_SIZE && g != h && k < |chains[g]|
    ensures chains[g][k] !in chains[h]
  {
    assert Member(chains[g][k], g, keys, hashed);
    forall j | 0 <= j < |chains[h]| ensures chains[h][j] != chains[g][k] {
      assert Member(chains[h][j], h, keys, hashed);
    }
  }

  lemma UnhashedOnNoChain(chains: seq<seq<nat>>, keys: seq<Key>, hashed: seq<bool>, b: nat, h: nat)
    requires Members(chains, keys, hashed) && b < |keys| && !hashed[b] && h < HASH_TABLE_SIZE
    ensures b !in chains[h]
  {
    forall j | 0 <= j < |chains[h]| ensures chains[h][j] != b {
      assert Member(chains[h][j], h, keys, hashed);
    }
  }

  lemma RemoveHashed(next: seq<int>, prev: seq<int>, table: seq<int>, chains: seq<seq<nat>>,
                     keys: seq<Key>, hashed: seq<bool>, b: nat, h: nat, at: nat)
    requires HashOk(next, prev, table, chains, keys, hashed) && b < |keys| && hashed[b]
    requires h == HashOf(keys[b]) && at < |chains[h]| && chains[h][at] == b
    ensures NULL <= next[b] < |next| && NULL <= prev[b] < |prev|
    ensures var (next', prev') := Unchained(next, prev, b);
            HashOk(next', prev', table[h := if table[h] == b then next[b] else table[h]],
                   chains[h := Without(chains[h], at)], keys, hashed[b := false])
  {
    RemoveLinks(next, prev, table, chains, keys, hashed, b, h, at);
    RemoveMember(chains, keys, hashed, b, h, at);
    var (next', prev') := Unchained(next, prev, b);
    forall c | 0 <= c < |keys| && !hashed[b := false][c] ensures next'[c] == NULL && prev'[c] == NULL {
      if c != b {
        UnhashedOnNoChain(chains, keys, hashed, c, h);
        UnchainTouches(next, prev, table[h], chains[h], at, c);
      }
    }
  }

  lemma RemoveUnhashed(next: seq<int>, prev: seq<int>, table: seq<int>, chains: seq<seq<nat>>,
                       keys: seq<Key>, hashed: seq<bool>, b: nat, h: nat)
    requires HashOk(next, prev, table, chains, keys, hashed) && b < |keys| && !hashed[b] && h < HASH_TABLE_SIZE
    ensures NULL <= next[b] < |next| && NULL <= prev[b] < |prev|
    ensures Unchained(next, prev, b) == (next, prev) && table[h] != b
  {
    assert next[b := NULL] == next && prev[b := NULL] == prev;
    UnhashedOnNoChain(chains, keys, hashed, b, h);
    if chains[h] != [] { assert chains[h][0] == table[h]; }
  }

  lemma RemoveAny(next: seq<int>, prev: seq<int>, table: seq<int>, chains: seq<seq<nat>>,
                  keys: seq<Key>, hashed: seq<bool>, b: nat, h: nat) returns (chains': seq<seq<nat>>)
    requires HashOk(next, prev, table, chains, keys, hashed) && b < |keys| && h == HashOf(keys[b])
    ensures NULL <= next[b] < |next| && NULL <= prev[b] < |prev|
    ensures var (next', prev') := Unchained(next, prev, b);
            HashOk(next', prev', table[h := if table[h] == b then next[b] else table[h]],
                   chains', keys, hashed[b := false])
  {
    chains' := chains;
    if hashed[b] {
      var at := IndexOf(chains[h], b);
      RemoveHashed(next, prev, table, chains, keys, hashed, b, h, at);
      chains' := chains[h := Without(chains[h], at)];
    } else {
      RemoveUnhashed(next, prev, table, chains, keys, hashed, b, h);
      assert hashed[b := false] == hashed && table[h := table[h]] == table;
    }
  }

  lemma InsertMember(chains: seq<seq<nat>>, keys: seq<Key>, hashed: seq<bool>, b: nat, key: Key, h: nat)
    requires Members(chains, keys, hashed) && b < |keys| && !hashed[b] && h == HashOf(key)
    ensures Members(chains[h := [b] + chains[h]], keys[b := key], hashed[b := true])
  {
    hide HashOf;
    var chains' := chains[h := [b] + chains[h]];
    forall g, k | 0 <= g < HASH_TABLE_SIZE && 0 <= k < |chains'[g]|
      ensures Member(chains'[g][k], g, keys[b := key], hashed[b := true])
    {
      if g != h {
        assert Member(chains[g][k], g, keys, hashed);
      } else if k > 0 {
        assert Member(chains[h][k - 1], h, keys, hashed);
      }
    }
  }

  lemma InsertHashed(next: seq<int>, prev: seq<int>, table: seq<int>, chains: seq<seq<nat>>,
                     keys: seq<Key>, hashed: seq<bool>, b: nat, key: Key, h: nat)
    requires HashOk(next, prev, table, chains, keys, hashed) && b < |keys| && !hashed[b] && h == HashOf(key)
    ensures NULL <= table[h] < |prev|
    ensures var (next', prev') := Chained(next, prev, table[h], b);
            HashOk(next', prev', table[h := b], chains[h := [b] + chains[h]], keys[b := key], hashed[b := true])
  {
    UnhashedOnNoChain(chains, keys, hashed, b, h);
    ChainInsert(next, prev, table[h], chains[h], b);
    InsertMember(chains, keys, hashed, b, key, h);
    InsertLinks(next, prev, table, chains, keys, hashed, b, h);
    if chains[h] != [] { assert Member(chains[h][0], h, keys, hashed); }
  }

  lemma InsertLinks(next: seq<int>, prev: seq<int>, table: seq<int>, chains: seq<seq<nat>>,
                    keys: seq<Key>, hashed: seq<bool>, b: nat, h: nat)
    requires HashOk(next, prev, table, chains, keys, hashed) && b < |keys| && !hashed[b] && h < HASH_TABLE_SIZE
    requires NULL <= table[h] < |prev|
    requires var (next', prev') := Chained(next, prev, table[h], b); Chain(next', prev', b, [b] + chains[h])
    ensures var (next', prev') := Chained(next, prev, table[h], b);
            Linked(next', prev', table[h := b], chains[h := [b] + chains[h]])
  {
    hide HashOf;
    var (next', prev') := Chained(next, prev, table[h], b);
    forall g | 0 <= g < HASH_TABLE_SIZE && g != h ensures Chain(next', prev', table[g], chains[g]) {
      forall k | 0 <= k < |chains[g]|
        ensures next'[chains[g][k]] == next[chains[g][k]] && prev'[chains[g][k]] == prev[chains[g][k]]
      {
        assert Member(chains[g][k], g, keys, hashed);
        NotOnOtherChain(chains, keys, hashed, g, k, h);
        if chains[h] != [] { assert table[h] in chains[h]; }
      }
      ChainElsewhere(next, prev, next', prev', table[g], chains[g]);
    }
  }
}

/** The buffer cache itself: bread and brelse over header fields, hash chains and the free ring. */
module BufferCache {
  import opened Common
  import opened BufferLists
  import opened CacheSpec
  import opened HashFunction
  import opened BufferHash

  type Block = seq<int>

  /** The state buf_init leaves on n zeroed headers. */
  lemma InitialRing(n: nat, nf: seq<int>, pf: seq<int>)
    requires n >= 2 && nf == seq(n, i => if i + 1 < n then i + 1 else NULL)
    requires pf == seq(n, i => if i > 0 then i - 1 else n - 1)
    ensures FreeRing(nf, pf, 0, Start(n).v.free)
  {
    var q := Start(n).v.free;
    forall k: nat | k < n ensures ToNext(nf, q, k, nf[Last(q)]) && ToPrev(pf, q, k, Last(q)) { }
  }

  lemma InitialHash(n: nat)
    ensures HashOk(seq(n, _ => NULL), seq(n, _ => NULL), seq(HASH_TABLE_SIZE, _ => NULL),
                   seq(HASH_TABLE_SIZE, _ => []), Start(n).v.keys, Start(n).v.hashed)
  {
  }

  /** The chain of a key decides the lookup. */
  lemma FoundOnChain(v: CacheView, chains: seq<seq<nat>>, key: Key, k: nat)
    requires ViewInv(v) && Members(chains, v.keys, v.hashed)
    requires var c := chains[HashOf(key)];
             && k <= |c| && InRange(c, |v.keys|)
             && (forall i :: 0 <= i < k ==> v.keys[c[i]] != key) && (k < |c| ==> v.keys[c[k]] == key)
    ensures Lookup(v, key) == if k < |chains[HashOf(key)]| then chains[HashOf(key)][k] else NULL
  {
    hide HashOf;
    var c := chains[HashOf(key)];
    assert forall b :: 0 <= b < |v.keys| && v.hashed[b] && v.keys[b] == key ==> b in c;
    if k < |c| {
      assert Member(c[k], HashOf(key), v.keys, v.hashed);
    }
  }

  lemma TakenFree(v: CacheView, b: nat)
    requires b in v.free && Distinct(v.free)
    ensures forall c :: c in Taken(v, b).free <==> c in v.free && c != b
  {
    forall c ensures c in v.free && c != b ==> c in Taken(v, b).free {
      InWithout(v.free, IndexOf(v.free, b), c);
    }
    InWithout(v.free, IndexOf(v.free, b), b);
  }

  class Cache {
    const disk: Key -> Block      // devblk_read: what the device holds
    var dev: seq<Ulong>
    var blk: seq<Ulong>
    var flags: seq<nat>
    var data: seq<Block>
    var next: seq<int>
    var prev: seq<int>
    var nextFree: seq<int>
    var prevFree: seq<int>
    var hashTable: seq<int>
    var freeList: int
    ghost var view: CacheView
    ghost var chains: seq<seq<nat>>

    ghost predicate Valid()
      reads this
    {
      && ViewInv(view)
      && Fields()
      && HashOk(next, prev, hashTable, chains, view.keys, view.hashed)
      && RingOk()
      && DataOk()
    }

    ghost predicate Fields()
      reads this`dev, this`blk, this`flags, this`data, this`view
    {
      && |dev| == |blk| == |flags| == |data| == |view.keys| >= 2
      && forall b :: 0 <= b < |dev| ==> view.keys[b] == Key(dev[b], blk[b])
    }

    ghost predicate RingOk()
      reads this`nextFree, this`prevFree, this`freeList, this`view
    {
      && |nextFree| == |view.keys| == |view.hashed|
      && FreeRing(nextFree, prevFree, freeList, view.free)
      && (nextFree[Last(view.free)] == NULL ==> forall b :: 0 <= b < |view.keys| ==> !view.hashed[b])
    }

    /** What is marked as read is what the disk holds; a buffer in use has been read. */
    ghost predicate DataOk()
      reads this`flags, this`data, this`view
    {
      && |flags| == |data| == |view.keys|
      && (forall b :: 0 <= b < |flags| && flags[b] != 0 ==> data[b] == disk(view.keys[b]))
      && (forall b :: 0 <= b < |flags| && b !in view.free ==> flags[b] != 0)
    }

    /** buf_init: zeroed headers, all on the free list, next_free ending in NULL. */
    constructor (n: nat, disk: Key -> Block)
      requires n >= 2
      ensures Valid() && view == Start(n).v && this.disk == disk
    {
      StartInv(n);
      this.disk := disk;
      dev, blk, flags := seq(n, _ => 0), seq(n, _ => 0), seq(n, _ => 0);
      data := seq(n, _ => []);
      next, prev := seq(n, _ => NULL), seq(n, _ => NULL);
      nextFree := seq(n, i => if i + 1 < n then i + 1 else NULL);
      prevFree := seq(n, i => if i > 0 then i - 1 else n - 1);
      hashTable := seq(HASH_TABLE_SIZE, _ => NULL);
      freeList := 0;
      view := Start(n).v;
      chains := seq(HASH_TABLE_SIZE, _ => []);
      new;
      InitialRing(n, nextFree, prevFree);
      InitialHash(n);
      forall b | 0 <= b < n ensures b in view.free { assert view.free[b] == b; }
    }

    /** As DataOk, while the data of buffer x is still to be read. */
    ghost predicate DataBut(x: nat)
      reads this`flags, this`data, this`view
    {
      && |flags| == |data| == |view.keys|
      && (forall b :: 0 <= b < |flags| && flags[b] != 0 ==> data[b] == disk(view.keys[b]))
      && (forall b :: 0 <= b < |flags| && b != x && b !in view.free ==> flags[b] != 0)
    }

    /** The loop of buf_get_hash along chain c. */
    method WalkChain(key: Key, head: int, ghost c: seq<nat>) returns (bh: int, ghost k: nat)
      requires Fields() && Chain(next, prev, head, c) && |next| == |dev|
      ensures k <= |c| && bh == if k < |c| then c[k] else NULL
      ensures forall i :: 0 <= i < k ==> view.keys[c[i]] != key
      ensures k < |c| ==> view.keys[c[k]] == key
    {
      bh, k := head, 0;
      while bh != NULL && !(dev[bh] == key.dev && blk[bh] == key.blk)
        invariant k <= |c| && bh == if k < |c| then c[k] else NULL
        invariant forall i :: 0 <= i < k ==> view.keys[c[i]] != key
        decreases |c| - k
      {
        ChainNeighbours(next, prev, head, c, k);
        bh := next[bh];
        k := k + 1;
      }
    }

    /** buf_get_hash. */
    method GetHash(key: Key, ihash: nat) returns (bh: int)
      requires ViewInv(view) && Fields() && HashOk(next, prev, hashTable, chains, view.keys, view.hashed)
      requires ihash == HashOf(key)
      ensures bh == Lookup(view, key)
    {
      ghost var c, k := chains[ihash], 0;
      assert Chain(next, prev, hashTable[ihash], c);
      bh, k := WalkChain(key, hashTable[ihash], c);
      FoundOnChain(view, chains, key, k);
    }

    /** buf_remove_free. */
    method RemoveFree(b: nat, ghost at: nat)
      requires FreeRing(nextFree, prevFree, freeList, view.free) && at < |view.free| && view.free[at] == b
      requires |view.free| >= 2 && (at == 0 || nextFree[Last(view.free)] != NULL)
      modifies this`nextFree, this`prevFree, this`freeList
      ensures FreeRing(nextFree, prevFree, freeList, Without(view.free, at))
      ensures nextFree[Last(Without(view.free, at))] != NULL && |nextFree| == old(|nextFree|)
    {
      UnlinkKeepsRing(nextFree, prevFree, freeList, view.free, at);
      RingNeighbours(nextFree, prevFree, freeList, view.free, at);
      ghost var ring, first := Unlinked(nextFree, prevFree, b), if freeList == b then nextFree[b] else freeList;
      if nextFree[b] != NULL {
        prevFree := prevFree[nextFree[b] := prevFree[b]];
      }
      if prevFree[b] != NULL {
        nextFree := nextFree[prevFree[b] := nextFree[b]];
      }
      if freeList == b {
        freeList := nextFree[b];
      }
      nextFree, prevFree := nextFree[b := NULL], prevFree[b := NULL];
      assert (nextFree, prevFree) == ring && freeList == first;
    }

    /** buf_insert_free. */
    method InsertFree(b: nat)
      requires FreeRing(nextFree, prevFree, freeList, view.free) && b < |nextFree| && b !in view.free
      modifies this`nextFree, this`prevFree
      ensures FreeRing(nextFree, prevFree, freeList, view.free + [b])
      ensures nextFree[b] != NULL && |nextFree| == old(|nextFree|)
    {
      AppendKeepsRing(nextFree, prevFree, freeList, view.free, b);
      RingNeighbours(nextFree, prevFree, freeList, view.free, 0);
      ghost var ring := Appended(nextFree, prevFree, freeList, b);
      nextFree := nextFree[b := freeList];
      if freeList != NULL {
        prevFree := prevFree[b := prevFree[freeList]];
        if prevFree[freeList] != NULL {
          nextFree := nextFree[prevFree[freeList] := b];
        }
        prevFree := prevFree[freeList := b];
      }
      assert (nextFree, prevFree) == ring;
    }

    /** buf_remove_hash, also called for a buffer that was never hashed. */
    method RemoveHash(b: nat)
      requires Fields() && HashOk(next, prev, hashTable, chains, view.keys, view.hashed) && b < |view.keys|
      modifies this`next, this`prev, this`hashTable, this`chains
      ensures HashOk(next, prev, hashTable, chains, view.keys, view.hashed[b := false])
    {
      var ihash := HashOf(Key(dev[b], blk[b]));
      ghost var chains' := RemoveAny(next, prev, hashTable, chains, view.keys, view.hashed, b, ihash);
      Unchain(b, ihash);
      chains := chains';
    }

    method Unchain(b: nat, ihash: nat)
      requires b < |next| == |prev| && NULL <= next[b] < |next| && NULL <= prev[b] < |prev| && ihash < |hashTable|
      modifies this`next, this`prev, this`hashTable
      ensures (next, prev) == Unchained(old(next), old(prev), b)
      ensures hashTable == old(hashTable[ihash := if hashTable[ihash] == b then next[b] else hashTable[ihash]])
    {
      if next[b] != NULL {
        prev := prev[next[b] := prev[b]];
      }
      if prev[b] != NULL {
        next := next[prev[b] := next[b]];
      }
      if hashTable[ihash] == b {
        hashTable := hashTable[ihash := next[b]];
      }
      next, prev := next[b := NULL], prev[b := NULL];
    }

    /** buf_insert_hash at the head of the chain. */
    method InsertHash(b: nat, key: Key, ihash: nat)
      requires HashOk(next, prev, hashTable, chains, view.keys, view.hashed)
      requires b < |view.keys| && !view.hashed[b] && ihash == HashOf(key)
      modifies this`next, this`prev, this`hashTable, this`chains
      ensures HashOk(next, prev, hashTable, chains, view.keys[b := key], view.hashed[b := true])
    {
      InsertHashed(next, prev, hashTable, chains, view.keys, view.hashed, b, key, ihash);
      EnchainHead(b, ihash);
      chains := chains[ihash := [b] + chains[ihash]];
    }

    method EnchainHead(b: nat, ihash: nat)
      requires b < |next| == |prev| && ihash < |hashTable| && NULL <= hashTable[ihash] < |prev|
      modifies this`next, this`prev, this`hashTable
      ensures (next, prev) == Chained(old(next), old(prev), old(hashTable[ihash]), b)
      ensures hashTable == old(hashTable)[ihash := b]
    {
      next := next[b := hashTable[ihash]];
      hashTable := hashTable[ihash := b];
      if next[b] != NULL {
        prev := prev[next[b] := b];
      }
    }

    /** The middle of buf_getblk: buffer b leaves its old chain for that of key. */
    method Rekey(b: nat, key: Key, ihash: nat)
      requires Fields() && HashOk(next, prev, hashTable, chains, view.keys, view.hashed)
      requires b < |view.keys| && ihash == HashOf(key)
      modifies this`dev, this`blk, this`flags, this`next, this`prev, this`hashTable, this`chains, this`view
      ensures view == Rekeyed(old(view), b, key)
      ensures old(DataBut(b)) ==> DataBut(b)
      ensures b < |old(flags)| && flags == old(flags)[b := 0]
      ensures Fields() && HashOk(next, prev, hashTable, chains, view.keys, view.hashed)
    {
      hide HashOf;
      RemoveHash(b);
      view := view.(hashed := view.hashed[b := false]);
      dev, blk, flags := dev[b := key.dev], blk[b := key.blk], flags[b := 0];
      InsertHash(b, key, ihash);
      view := view.(keys := view.keys[b := key], hashed := view.hashed[b := true]);
    }

    /** Takes buffer b off the free list. */
    method Take(b: nat)
      requires ViewInv(view) && RingOk() && |view.free| >= 2 && b in view.free
      requires b == view.free[0] || (b < |view.keys| && view.hashed[b])
      modifies this`nextFree, this`prevFree, this`freeList, this`view
      ensures view == Taken(old(view), b) && RingOk() && nextFree[Last(view.free)] != NULL
      ensures old(DataOk()) ==> DataBut(b)
    {
      TakenFree(view, b);
      RemoveFree(b, IndexOf(view.free, b));
      view := Taken(view, b);
    }

    ghost predicate LinksOk()
      reads this
    {
      Fields() && HashOk(next, prev, hashTable, chains, view.keys, view.hashed)
    }

    /** The first half of buf_getblk: look the block up and take a buffer off the free list. */
    method Claim(key: Key, ihash: nat) returns (bh: nat, hit: bool)
      requires Valid() && MayRead(view, key) && ihash == HashOf(key)
      modifies this`nextFree, this`prevFree, this`freeList, this`view
      ensures bh == Chosen(old(view), key) && view == Taken(old(view), bh)
      ensures hit <==> Lookup(old(view), key) != NULL
      ensures LinksOk() && RingOk() && nextFree[Last(view.free)] != NULL && DataBut(bh)
    {
      var found := GetHash(key, ihash);
      hit := found != NULL;
      bh := if hit then found else freeList;
      Take(bh);
    }

    /** buf_getblk: the buffer for a block, its data perhaps still to be read. */
    method Getblk(key: Key) returns (bh: nat)
      requires Valid() && MayRead(view, key)
      modifies this
      ensures bh == Chosen(old(view), key) && view == Read(old(view), key)
      ensures LinksOk() && RingOk() && DataBut(bh)
    {
      hide HashOf, HashOk, FreeRing, Without, IndexOf, Distinct;
      var ihash := HashOf(key);
      var hit;
      bh, hit := Claim(key, ihash);
      if hit || (dev[bh] == key.dev && blk[bh] == key.blk) {
        return;
      }
      Rekey(bh, key, ihash);
    }

    /** devblk_read and the mark that the data is there. */
    method Fetch(bh: nat, key: Key)
      requires Fields() && DataBut(bh) && bh < |view.keys| && view.keys[bh] == key
      modifies this`data, this`flags
      ensures Fields() && DataOk() && data[bh] == disk(key)
      ensures bh < |old(flags)| == |old(data)|
      ensures old(flags[bh]) != 0 ==> data == old(data) && flags == old(flags)
      ensures old(flags[bh]) == 0 ==> data == old(data)[bh := disk(key)] && flags == old(flags)[bh := 1]
    {
      if flags[bh] == 0 {
        data := data[bh := disk(key)];
        flags := flags[bh := 1];
      }
    }

    /** bread: a buffer with the block's data, whatever was read and released before. */
    method Bread(key: Key) returns (bh: nat)
      requires Valid() && MayRead(view, key)
      modifies this
      ensures Valid() && bh == Chosen(old(view), key) && view == Read(old(view), key)
      ensures bh < |data| && data[bh] == disk(key) && bh !in view.free
      ensures bh < |old(view.keys)| && view.keys == old(view.keys)[bh := key]
      ensures forall b :: b in view.free <==> b in old(view.free) && b != bh
    {
      hide HashOf, HashOk, FreeRing, Distinct, Without, IndexOf;
      ReadKeepsInv(view, key);
      ReadChanges(view, key);
      bh := Getblk(key);
      Fetch(bh, key);
    }

    /** brelse. */
    method Brelse(bh: nat)
      requires Valid() && bh < |view.keys| && bh !in view.free
      modifies this
      ensures Valid() && view == Release(old(view), bh)
      ensures view.keys == old(view.keys) && view.hashed == old(view.hashed) && view.free == old(view.free) + [bh]
    {
      hide HashOf;
      InsertFree(bh);
      view := Release(view, bh);
    }
  }
}
