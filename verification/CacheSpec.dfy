/** What the buffer cache does, without its links: which block each buffer stands for, which buffers
    can be found by their block, and the free buffers from the least recently released on. */
module CacheSpec {
  import opened Common
  import opened BufferLists

  type Ulong = x: int | 0 <= x < 0x1_0000_0000

  datatype Key = Key(dev: Ulong, blk: Ulong)

  const ZERO: Key := Key(0, 0)

  datatype CacheView = CacheView(keys: seq<Key>, hashed: seq<bool>, free: seq<nat>)

  ghost predicate ViewInv(v: CacheView) {
    && |v.keys| == |v.hashed| && Distinct(v.free) && InRange(v.free, |v.keys|)
    && (forall b :: 0 <= b < |v.keys| && !v.hashed[b] ==> v.keys[b] == ZERO)
    && (forall a, b :: 0 <= a < b < |v.keys| && v.hashed[a] && v.hashed[b] ==> v.keys[a] != v.keys[b])
  }

  /** The hashed buffer among the first n that stands for key, or NULL. */
  function Find(v: CacheView, key: Key, n: nat): (b: int)
    requires n <= |v.keys| == |v.hashed|
    ensures b == NULL || (0 <= b < n && v.hashed[b] && v.keys[b] == key)
    ensures b == NULL ==> forall i :: 0 <= i < n && v.hashed[i] ==> v.keys[i] != key
  {
    if n == 0 then NULL
    else if v.hashed[n - 1] && v.keys[n - 1] == key then n - 1
    else Find(v, key, n - 1)
  }

  function Lookup(v: CacheView, key: Key): (b: int)
    requires |v.keys| == |v.hashed|
    ensures b == NULL || (0 <= b < |v.keys| && v.hashed[b] && v.keys[b] == key)
    ensures b == NULL ==> forall i :: 0 <= i < |v.keys| && v.hashed[i] ==> v.keys[i] != key
  {
    Find(v, key, |v.keys|)
  }

  function IndexOf(q: seq<nat>, b: nat): (k: nat)
    requires b in q
    ensures k < |q| && q[k] == b
  {
    if q[0] == b then 0 else 1 + IndexOf(q[1..], b)
  }

  /** A read may be made when a buffer can be spared and the block is not in use already. */
  ghost predicate MayRead(v: CacheView, key: Key) {
    && |v.keys| == |v.hashed| && |v.free| >= 2 && InRange(v.free, |v.keys|)
    && (Lookup(v, key) != NULL ==> Lookup(v, key) in v.free)
  }

  /** The buffer a read hands out: the one that has the block, else the least recently released. */
  function Chosen(v: CacheView, key: Key): (b: nat)
    requires MayRead(v, key)
    ensures b < |v.keys| && b in v.free
  {
    if Lookup(v, key) != NULL then Lookup(v, key) else v.free[0]
  }

  /** The free list after buffer b has been taken from it. */
  function Taken(v: CacheView, b: nat): CacheView
    requires b in v.free
  {
    v.(free := Without(v.free, IndexOf(v.free, b)))
  }

  /** Buffer b given to another block. */
  function Rekeyed(v: CacheView, b: nat, key: Key): CacheView
    requires b < |v.keys| == |v.hashed|
  {
    v.(keys := v.keys[b := key], hashed := v.hashed[b := true])
  }

  function Read(v: CacheView, key: Key): CacheView
    requires MayRead(v, key)
  {
    var b := Chosen(v, key);
    if Lookup(v, key) != NULL || v.keys[b] == key then Taken(v, b) else Rekeyed(Taken(v, b), b, key)
  }

  function Release(v: CacheView, b: nat): CacheView {
    v.(free := v.free + [b])
  }

  lemma ReadKeepsInv(v: CacheView, key: Key)
    requires ViewInv(v) && MayRead(v, key)
    ensures ViewInv(Read(v, key)) && Read(v, key).keys[Chosen(v, key)] == key && Chosen(v, key) !in Read(v, key).free
  {
  }

  /** The buffer that has the block is handed out, else the head of the free list; it leaves the list, the
      others keep their order, and no other buffer's block changes. */
  lemma ReadChanges(v: CacheView, key: Key)
    requires ViewInv(v) && MayRead(v, key)
    ensures var (w, b) := (Read(v, key), Chosen(v, key));
            && (forall c :: 0 <= c < |v.keys| && v.hashed[c] && v.keys[c] == key ==> c == b)
            && ((exists c :: 0 <= c < |v.keys| && v.hashed[c] && v.keys[c] == key) || b == v.free[0])
            && w.keys == v.keys[b := key] && |w.hashed| == |v.hashed| && (w.hashed[b] || key == ZERO)
            && (forall c :: 0 <= c < |v.hashed| && c != b ==> w.hashed[c] == v.hashed[c])
            && (exists k :: 0 <= k < |v.free| && v.free[k] == b && w.free == v.free[..k] + v.free[k + 1..])
            && forall c :: c in w.free <==> c in v.free && c != b
  {
    var b := Chosen(v, key);
    var k := IndexOf(v.free, b);
    assert v.free[k] == b && Without(v.free, k) == v.free[..k] + v.free[k + 1..];
    forall c ensures c in Without(v.free, k) <==> c in v.free && c != b { InWithout(v.free, k, c); }
  }

  /** A block other than (0, 0) is in at most one buffer. */
  lemma OneBufferPerBlock(v: CacheView, a: nat, b: nat)
    requires ViewInv(v) && a < |v.keys| && b < |v.keys| && v.keys[a] == v.keys[b] != ZERO
    ensures a == b
  {
  }

  /** A block read again after its release comes back in the same buffer, exactly unless the first
      read went through the shortcut of line 296, which leaves the buffer unhashed. */
  lemma RereadSameBuffer(v: CacheView, key: Key)
    requires ViewInv(v) && MayRead(v, key)
    ensures var b := Chosen(v, key); var w := Release(Read(v, key), b);
            MayRead(w, key) && (Chosen(w, key) == b <==> !Shortcut(v, key))
    ensures Shortcut(v, key) ==> key == ZERO
  {
    ReadKeepsInv(v, key);
  }

  predicate Shortcut(v: CacheView, key: Key)
    requires MayRead(v, key)
  {
    Lookup(v, key) == NULL && v.keys[v.free[0]] == key
  }

  /** The shortcut is taken: in a cache fresh from buf_init, block (0, 0) read twice ends up in two buffers. */
  lemma ZeroBlockTwice(v: CacheView)
    requires ViewInv(v) && |v.free| >= 2 && forall b :: 0 <= b < |v.hashed| ==> !v.hashed[b]
    ensures MayRead(v, ZERO) && Shortcut(v, ZERO)
    ensures var w := Release(Read(v, ZERO), Chosen(v, ZERO));
            MayRead(w, ZERO) && Chosen(w, ZERO) != Chosen(v, ZERO)
            && w.keys[Chosen(w, ZERO)] == w.keys[Chosen(v, ZERO)] == ZERO
  {
    RereadSameBuffer(v, ZERO);
  }

  // ----- runs, with the time of each buffer's last release

  datatype Op = OpRead(key: Key) | OpRelease(b: nat)

  datatype Timed = Timed(v: CacheView, stamp: seq<int>, clock: int)

  ghost predicate Allowed(v: CacheView, op: Op) {
    match op
    case OpRead(key) => MayRead(v, key)
    case OpRelease(b) => b < |v.keys| && b !in v.free
  }

  function Apply(t: Timed, op: Op): Timed
    requires Allowed(t.v, op) && |t.stamp| == |t.v.keys|
  {
    match op
    case OpRead(key) => t.(v := Read(t.v, key), clock := t.clock + 1)
    case OpRelease(b) => Timed(Release(t.v, b), t.stamp[b := t.clock], t.clock + 1)
  }

  ghost predicate TimedInv(t: Timed) {
    && ViewInv(t.v) && |t.stamp| == |t.v.keys|
    && (forall b :: 0 <= b < |t.stamp| ==> t.stamp[b] < t.clock)
    && (forall i, j :: 0 <= i < j < |t.v.free| ==> t.stamp[t.v.free[i]] < t.stamp[t.v.free[j]])
  }

  ghost predicate Runs(t: Timed, ops: seq<Op>)
    decreases |ops|
  {
    ops != [] ==> |t.stamp| == |t.v.keys| && Allowed(t.v, ops[0]) && Runs(Apply(t, ops[0]), ops[1..])
  }

  ghost function Run(t: Timed, ops: seq<Op>): Timed
    requires Runs(t, ops)
    decreases |ops|
  {
    if ops == [] then t else Run(Apply(t, ops[0]), ops[1..])
  }

  lemma WithoutKeepsOrder(q: seq<nat>, at: nat, stamp: seq<int>)
    requires at < |q| && InRange(q, |stamp|)
    requires forall i, j :: 0 <= i < j < |q| ==> stamp[q[i]] < stamp[q[j]]
    ensures InRange(Without(q, at), |stamp|)
    ensures forall i, j :: 0 <= i < j < |q| - 1 ==> stamp[Without(q, at)[i]] < stamp[Without(q, at)[j]]
  {
  }

  lemma ApplyKeepsInv(t: Timed, op: Op)
    requires TimedInv(t) && Allowed(t.v, op)
    ensures TimedInv(Apply(t, op))
  {
    match op
    case OpRead(key) =>
      ReadKeepsInv(t.v, key);
      WithoutKeepsOrder(t.v.free, IndexOf(t.v.free, Chosen(t.v, key)), t.stamp);
    case OpRelease(b) =>
  }

  lemma {:induction false} RunKeepsInv(t: Timed, ops: seq<Op>)
    requires TimedInv(t) && Runs(t, ops)
    ensures TimedInv(Run(t, ops))
    decreases |ops|
  {
    if ops != [] {
      ApplyKeepsInv(t, ops[0]);
      RunKeepsInv(Apply(t, ops[0]), ops[1..]);
    }
  }

  /** n buffers as buf_init leaves them: no block in any, all free in order. */
  function Start(n: nat): Timed {
    Timed(CacheView(seq(n, _ => ZERO), seq(n, _ => false), seq(n, i => i)), seq(n, i => i), n)
  }

  lemma StartInv(n: nat)
    ensures TimedInv(Start(n))
  {
  }

  lemma ChosenIsOldest(t: Timed, key: Key, k: nat)
    requires TimedInv(t) && MayRead(t.v, key) && Lookup(t.v, key) == NULL && 0 < k < |t.v.free|
    ensures t.stamp[Chosen(t.v, key)] < t.stamp[t.v.free[k]]
  {
  }

  /** In every run, a block that is not cached replaces the one whose buffer was released longest ago. */
  lemma LeastRecentlyReleased(n: nat, ops: seq<Op>, key: Key, k: nat)
    requires Runs(Start(n), ops)
    requires var t := Run(Start(n), ops); MayRead(t.v, key) && Lookup(t.v, key) == NULL && 0 < k < |t.v.free|
    ensures var t := Run(Start(n), ops);
            TimedInv(t) && t.stamp[Chosen(t.v, key)] < t.stamp[t.v.free[k]]
  {
    StartInv(n);
    RunKeepsInv(Start(n), ops);
    ChosenIsOldest(Run(Start(n), ops), key, k);
  }
}
