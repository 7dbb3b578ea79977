/** What a read of a file delivers: the bytes of its blocks. */
module Ext2Bytes {
  import opened Common
  import opened CacheSpec
  import opened Digits
  import opened Ext2Blocks

  const WRAP: int := 0x1_0000_0000

  // ----- what a read delivers

  /** The bytes a read of count at pos is due: none at or past the end of the file. */
  function Wanted(size: nat, pos: nat, count: nat): nat {
    if pos >= size then 0 else if pos + count > size then size - pos else count
  }

  /** They are the most that count and the file allow. */
  lemma WantedIsMost(size: nat, pos: nat, count: nat, n: nat)
    ensures var w := Wanted(size, pos, count); w <= count && (w > 0 ==> pos + w <= size)
    ensures n <= count && (n > 0 ==> pos + n <= size) ==> n <= Wanted(size, pos, count)
  {
  }

  /** cb of ext2fs_read: unsigned arithmetic stored in an int. */
  function Adjusted(size: Ulong, pos: Ulong, count: Ulong): int {
    var n := if (pos + count) % WRAP > size then (size - pos) % WRAP else count;
    if n < 0x8000_0000 then n else n - WRAP
  }

  /** The count is right unless it does not fit an int: too many bytes are left, or pos is too far
      past the end. */
  lemma AdjustedIsWanted(size: Ulong, pos: Ulong, count: Ulong)
    requires pos + count < WRAP
    ensures Due(size, pos, count) == Wanted(size, pos, count)
            <==> Wanted(size, pos, count) < 0x8000_0000 && pos - size <= 0x8000_0000
  {
    assert (pos + count) % WRAP == pos + count;
    if pos <= size {
      assert (size - pos) % WRAP == size - pos;
    } else {
      assert (size - pos) % WRAP == size - pos + WRAP;
    }
  }

  /** The bytes asked for: none if cb is not positive. */
  function Due(size: Ulong, pos: Ulong, count: Ulong): nat {
    if Adjusted(size, pos, count) > 0 then Adjusted(size, pos, count) else 0
  }

  /** The lookup of block index q gives a block. */
  ghost predicate Found(f: File, q: nat)
    requires FileOk(f)
  {
    GetBlockSpec(f, q) != None && GetBlockSpec(f, q).value != 0
  }

  function FoundData(f: File, q: nat): (data: Block)
    requires FileOk(f) && Found(f, q)
    ensures BlockOk(data, f.e)
  {
    f.disk(Key(f.dev, GetBlockSpec(f, q).value))
  }

  /** Byte o of the blocks looked up is b. */
  ghost predicate FindsByte(f: File, o: nat, b: int)
    requires FileOk(f)
  {
    Found(f, Div(o, 4 * f.e)) && b == FoundData(f, Div(o, 4 * f.e))[ModOf(o, 4 * f.e)]
  }

  function ModOf(x: nat, e: nat): (r: nat)
    requires e > 0
    ensures r < e
  {
    DivMod(x, e);
    Mod(x, e)
  }

  /** The lookup of every byte's block stays inside the indirect blocks. */
  ghost predicate InReach(f: File, pos: nat, n: int)
    requires FileOk(f)
  {
    forall o: nat :: pos <= o < pos + n ==> GetBlockSpec(f, Div(o, 4 * f.e)) != None
  }

  /** The first n bytes of buf are those of the blocks looked up, from pos on. */
  ghost predicate Copied(f: File, pos: nat, buf: seq<int>, n: nat)
    requires FileOk(f)
  {
    n <= |buf| && forall k :: 0 <= k < n ==> FindsByte(f, pos + k, buf[k])
  }

  /** What ext2fs_read returns when good of cb bytes come before a lookup that gives no block: the count if
      there is none, -1 if that block is a whole one of the request, 0 if it is a part of one. */
  ghost predicate Stopped(f: File, pos: nat, cb: nat, good: nat, ret: int)
    requires FileOk(f)
  {
    && good <= cb && (good < cb ==> !Found(f, Div(pos + good, 4 * f.e)))
    && ret == if good == cb then cb else if Mod(pos + good, 4 * f.e) == 0 && good + 4 * f.e <= cb then -1 else 0
  }

  /** With the usual operators. */
  lemma StoppedMeans(f: File, pos: nat, cb: nat, good: nat, ret: int)
    requires FileOk(f) && Stopped(f, pos, cb, good, ret)
    ensures good <= cb && (good == cb ==> ret == cb)
    ensures good < cb ==> ret == if (pos + good) % (4 * f.e) == 0 && good + 4 * f.e <= cb then -1 else 0
  {
    AreOperators(pos + good, 4 * f.e);
  }

  lemma NextTimes(e: nat, n: nat)
    ensures Times(e, n + 1) == Times(e, n) + e
  {
  }

  lemma NoTimes(e: nat)
    ensures Times(e, 0) == 0
  {
  }

  lemma WholeStopped(f: File, pos: nat, cb: nat)
    requires FileOk(f)
    ensures Stopped(f, pos, cb, cb, cb)
  {
  }

  /** A block reached at its start, which the lookup does not give. */
  lemma HoleAt(f: File, pos: nat, cb: nat, at: nat, block: nat)
    requires FileOk(f) && pos + at == Times(4 * f.e, block) && at < cb && !Found(f, block)
    ensures Stopped(f, pos, cb, at, if at + 4 * f.e <= cb then -1 else 0)
  {
    OnlyDigits(4 * f.e, block, 0);
  }

  lemma ReachAt(f: File, pos: nat, cb: nat, at: nat, block: nat)
    requires FileOk(f) && pos + at == Times(4 * f.e, block) && at < cb && InReach(f, pos, cb)
    ensures GetBlockSpec(f, block) != None
  {
    OnlyDigits(4 * f.e, block, 0);
  }

  /** One more byte, which is byte from of block q. */
  lemma ByteInBlock(f: File, o: nat, q: nat, from: nat)
    requires FileOk(f) && from < 4 * f.e && o == Times(4 * f.e, q) + from && Found(f, q)
    ensures FindsByte(f, o, FoundData(f, q)[from])
  {
    OnlyDigits(4 * f.e, q, from);
  }

  /** A stretch of one block, from byte q * 4e + from of the file on. */
  lemma StretchCopied(f: File, pos: nat, was: seq<int>, buf: seq<int>, at: nat, q: nat, from: nat, n: nat)
    requires FileOk(f) && Copied(f, pos, was, at) && at + n <= |buf| && from + n <= 4 * f.e
    requires pos + at == Times(4 * f.e, q) + from && Found(f, q)
    requires buf[..at] == was[..at] && buf[at..at + n] == FoundData(f, q)[from..from + n]
    ensures Copied(f, pos, buf, at + n)
  {
    forall k | 0 <= k < at + n ensures FindsByte(f, pos + k, buf[k]) {
      if k < at {
        assert buf[k] == buf[..at][k] == was[k];
      } else {
        assert buf[k] == buf[at..at + n][k - at] == FoundData(f, q)[from + (k - at)];
        ByteInBlock(f, pos + k, q, from + (k - at));
      }
    }
  }

  // ----- what the file holds

  /** Byte o of the file is b. */
  ghost predicate IsByte(f: File, o: nat, b: int)
    requires FileOk(f)
  {
    var q := Div(o, 4 * f.e);
    && FileBlock(f, q) != 0 && BlockOk(f.disk(Key(f.dev, FileBlock(f, q))), f.e)
    && b == f.disk(Key(f.dev, FileBlock(f, q)))[ModOf(o, 4 * f.e)]
  }

  /** The first n bytes of buf are the file's from pos on. */
  ghost predicate Delivered(f: File, pos: nat, buf: seq<int>, n: nat)
    requires FileOk(f)
  {
    n <= |buf| && forall k :: 0 <= k < n ==> IsByte(f, pos + k, buf[k])
  }

  /** With the usual operators: byte o is byte o % 4e of block o / 4e, which is not a hole. */
  lemma ByteMeans(f: File, o: nat, b: int)
    requires FileOk(f)
    ensures var data := f.disk(Key(f.dev, FileBlock(f, o / (4 * f.e))));
            |data| == 4 * f.e && (IsByte(f, o, b) <==> FileBlock(f, o / (4 * f.e)) != 0 && data[o % (4 * f.e)] == b)
  {
    hide FileBlock;
    AreOperators(o, 4 * f.e);
    assert BlockOk(f.disk(Key(f.dev, FileBlock(f, o / (4 * f.e)))), f.e);
  }

  /** The block of byte o is a hole of the file. */
  predicate InHole(f: File, o: nat)
    requires FileOk(f)
  {
    FileBlock(f, Div(o, 4 * f.e)) == 0
  }

  /** What a read should return when good of cb bytes come before the first hole of the file. */
  ghost predicate Outcome(f: File, pos: nat, cb: nat, good: nat, ret: int)
    requires FileOk(f)
  {
    && good <= cb && (good < cb ==> InHole(f, pos + good))
    && ret == if good == cb then cb else if Mod(pos + good, 4 * f.e) == 0 && good + 4 * f.e <= cb then -1 else 0
  }

  ghost predicate NoHole(f: File, pos: nat, n: nat)
    requires FileOk(f)
  {
    forall o: nat :: pos <= o < pos + n ==> !InHole(f, o)
  }

  predicate RightAt(f: File, o: nat)
    requires FileOk(f)
  {
    LookupRight(f, Div(o, 4 * f.e))
  }

  /** The lookups up to and including the first hole of the range are right. */
  ghost predicate LookupsRight(f: File, pos: nat, cb: nat)
    requires FileOk(f)
  {
    forall o: nat :: pos <= o < pos + cb && NoHole(f, pos, o - pos) ==> RightAt(f, o)
  }

  lemma RightByte(f: File, o: nat, b: int)
    requires FileOk(f) && FindsByte(f, o, b)
    ensures !InHole(f, o) ==> IsByte(f, o, b) && RightAt(f, o)
    ensures RightAt(f, o) ==> !InHole(f, o)
  {
    var q := Div(o, 4 * f.e);
    LookupExact(f, q);
    if FileBlock(f, q) != 0 { BothBlocks(f, q); }
  }

  lemma RightHole(f: File, o: nat)
    requires FileOk(f) && !Found(f, Div(o, 4 * f.e)) && GetBlockSpec(f, Div(o, 4 * f.e)) != None
    ensures RightAt(f, o) <==> InHole(f, o)
  {
    LookupExact(f, Div(o, 4 * f.e));
  }

  lemma {:induction false} NoHoleBefore(f: File, pos: nat, buf: seq<int>, cb: nat, good: nat, n: nat)
    requires FileOk(f) && Copied(f, pos, buf, good) && LookupsRight(f, pos, cb) && n <= good <= cb
    ensures NoHole(f, pos, n)
  {
    if n > 0 {
      NoHoleBefore(f, pos, buf, cb, good, n - 1);
      assert RightAt(f, pos + (n - 1)) by { assert NoHole(f, pos, pos + (n - 1) - pos); }
      assert FindsByte(f, pos + (n - 1), buf[n - 1]);
      RightByte(f, pos + (n - 1), buf[n - 1]);
    }
  }

  /** A read delivers the file's bytes up to its first hole, and returns what it should, exactly when the
      lookups up to that hole are right. */
  lemma ReadRight(f: File, pos: nat, buf: seq<int>, cb: nat, good: nat, ret: int)
    requires FileOk(f) && Copied(f, pos, buf, good) && Stopped(f, pos, cb, good, ret) && InReach(f, pos, cb)
    ensures Delivered(f, pos, buf, good) && Outcome(f, pos, cb, good, ret) <==> LookupsRight(f, pos, cb)
  {
    hide LookupRight, FileBlock, GetBlockSpec, Found, FoundData;
    if LookupsRight(f, pos, cb) {
      NoHoleBefore(f, pos, buf, cb, good, good);
      forall k | 0 <= k < good ensures IsByte(f, pos + k, buf[k]) {
        assert !InHole(f, pos + k);
        RightByte(f, pos + k, buf[k]);
      }
      if good < cb {
        assert RightAt(f, pos + good) by { assert NoHole(f, pos, pos + good - pos); }
        RightHole(f, pos + good);
      }
    }
    if Delivered(f, pos, buf, good) && Outcome(f, pos, cb, good, ret) {
      forall o: nat | pos <= o < pos + cb && NoHole(f, pos, o - pos) ensures RightAt(f, o) {
        var k := o - pos;
        if k < good {
          assert IsByte(f, pos + k, buf[k]) && FindsByte(f, pos + k, buf[k]);
          RightByte(f, pos + k, buf[k]);
        } else if k == good {
          RightHole(f, pos + k);
        }
      }
    }
  }

  /** The file has a block for each byte of the range, counted in i_blocks and reached by the lookup. */
  ghost predicate AllThere(f: File, pos: nat, n: nat)
    requires FileOk(f)
  {
    forall o: nat :: pos <= o < pos + n ==> IsThere(f, o)
  }

  predicate IsThere(f: File, o: nat)
    requires FileOk(f)
  {
    var q := Div(o, 4 * f.e);
    FileBlock(f, q) != 0 && q < f.inode.blocks && Reached(f, q)
  }

  lemma ThereInReach(f: File, pos: nat, n: nat)
    requires FileOk(f) && AllThere(f, pos, n)
    ensures InReach(f, pos, n) && LookupsRight(f, pos, n)
  {
    forall o: nat | pos <= o < pos + n
      ensures RightAt(f, o) && GetBlockSpec(f, Div(o, 4 * f.e)) != None
    {
      assert IsThere(f, o);
      BlockFound(f, Div(o, 4 * f.e));
    }
  }

  /** A read of a part of the file without holes returns the bytes due, and they are the file's. */
  lemma WholeRead(f: File, pos: Ulong, count: Ulong, buf: seq<int>, good: nat, ret: int)
    requires FileOk(f) && pos + count < WRAP && Wanted(f.inode.size, pos, count) < 0x8000_0000
    requires pos - f.inode.size <= 0x8000_0000 && AllThere(f, pos, Wanted(f.inode.size, pos, count))
    requires Copied(f, pos, buf, good)
    requires Stopped(f, pos, Due(f.inode.size, pos, count), good, ret)
    ensures ret == good == Wanted(f.inode.size, pos, count) && Delivered(f, pos, buf, good)
  {
    var n := Wanted(f.inode.size, pos, count);
    AdjustedIsWanted(f.inode.size, pos, count);
    ThereInReach(f, pos, n);
    ReadRight(f, pos, buf, n, good, ret);
    assert good < n ==> IsThere(f, pos + good);
  }

  // ----- chunked reads

  function Concat(bufs: seq<seq<int>>): seq<int> { if bufs == [] then [] else bufs[0] + Concat(bufs[1..]) }

  function Sum(counts: seq<nat>): nat { if counts == [] then 0 else counts[0] + Sum(counts[1..]) }

  /** What reads of the given counts, one after the other from pos on, have returned. */
  ghost predicate ReadInChunks(f: File, pos: nat, counts: seq<nat>, bufs: seq<seq<int>>)
    requires FileOk(f)
    decreases |counts|
  {
    && |bufs| == |counts|
    && (counts != [] ==>
          && |bufs[0]| == Wanted(f.inode.size, pos, counts[0]) && Delivered(f, pos, bufs[0], |bufs[0]|)
          && ReadInChunks(f, pos + |bufs[0]|, counts[1..], bufs[1..]))
  }

  /** The first chunk and the others are parts of the whole range. */
  lemma FirstChunk(f: File, pos: nat, counts: seq<nat>)
    requires FileOk(f) && counts != [] && AllThere(f, pos, Wanted(f.inode.size, pos, Sum(counts)))
    ensures var n := Wanted(f.inode.size, pos, counts[0]);
            && n + Wanted(f.inode.size, pos + n, Sum(counts[1..])) == Wanted(f.inode.size, pos, Sum(counts))
            && AllThere(f, pos, n) && AllThere(f, pos + n, Wanted(f.inode.size, pos + n, Sum(counts[1..])))
  {
  }

  lemma DeliveredPrefix(f: File, pos: nat, buf: seq<int>, n: nat)
    requires FileOk(f) && Delivered(f, pos, buf, n)
    ensures Delivered(f, pos, buf[..n], n)
  {
  }

  lemma DeliveredJoins(f: File, pos: nat, a: seq<int>, b: seq<int>)
    requires FileOk(f) && Delivered(f, pos, a, |a|) && Delivered(f, pos + |a|, b, |b|)
    ensures Delivered(f, pos, a + b, |a + b|)
  {
    forall k | 0 <= k < |a + b| ensures IsByte(f, pos + k, (a + b)[k]) {
      if k >= |a| {
        assert (a + b)[k] == b[k - |a|] && pos + k == pos + |a| + (k - |a|);
      }
    }
  }

  lemma {:induction false} ChunksDeliver(f: File, pos: nat, counts: seq<nat>, bufs: seq<seq<int>>)
    requires FileOk(f) && ReadInChunks(f, pos, counts, bufs)
    ensures |Concat(bufs)| == Wanted(f.inode.size, pos, Sum(counts))
    ensures Delivered(f, pos, Concat(bufs), |Concat(bufs)|)
    decreases |counts|
  {
    if counts != [] {
      ChunksDeliver(f, pos + |bufs[0]|, counts[1..], bufs[1..]);
      DeliveredJoins(f, pos, bufs[0], Concat(bufs[1..]));
    }
  }

  /** Consecutive reads concatenate to the one large read. */
  lemma ChunksConcatenate(f: File, pos: nat, counts: seq<nat>, bufs: seq<seq<int>>, whole: seq<int>)
    requires FileOk(f) && ReadInChunks(f, pos, counts, bufs)
    requires |whole| == Wanted(f.inode.size, pos, Sum(counts)) && Delivered(f, pos, whole, |whole|)
    ensures Concat(bufs) == whole
  {
    ChunksDeliver(f, pos, counts, bufs);
    forall k | 0 <= k < |whole| ensures Concat(bufs)[k] == whole[k] {
      assert IsByte(f, pos + k, whole[k]) && IsByte(f, pos + k, Concat(bufs)[k]);
    }
  }
}

/** ext2fs_get_block and ext2fs_read over the buffer cache (src/kernel/dev/ext2fs.c). */
module Ext2Read {
  import opened Common
  import opened BufferLists
  import opened CacheSpec
  import opened Digits
  import opened Ext2Blocks
  import opened Ext2Bytes
  import opened BufferCache

  /** No buffer is in use. */
  ghost predicate IdleView(v: CacheView) {
    && |v.free| >= 2 && |v.keys| == |v.hashed| && InRange(v.free, |v.keys|)
    && forall b :: 0 <= b < |v.keys| ==> b in v.free
  }

  lemma ReadAndRelease(v: CacheView, key: Key)
    requires ViewInv(v) && IdleView(v)
    ensures MayRead(v, key) && IdleView(Release(Read(v, key), Chosen(v, key)))
  {
    var b := Chosen(v, key);
    TakenFree(v, b);
    var q := Taken(v, b).free;
    assert Read(v, key).free == q;
    forall c | 0 <= c < |v.keys| ensures c in q + [b] { }
  }

  class Ext2 {
    const cache: Cache
    const dev: Ulong
    const e: nat              // block_size / 4

    constructor (cache: Cache, dev: Ulong, e: nat)
      ensures this.cache == cache && this.dev == dev && this.e == e
    {
      this.cache, this.dev, this.e := cache, dev, e;
    }

    ghost function Of(inode: Inode): File { File(e, dev, cache.disk, inode) }

    /** The cache is in order and no buffer is in use. */
    ghost predicate Idle()
      reads cache
    {
      cache.Valid() && IdleView(cache.view)
    }

    /** bread, look at the data, brelse. */
    method BlockOf(blk: Ulong) returns (data: Block)
      requires Idle()
      modifies cache
      ensures Idle() && data == cache.disk(Key(dev, blk))
    {
      ReadAndRelease(cache.view, Key(dev, blk));
      var bh := cache.Bread(Key(dev, blk));
      data := cache.data[bh];
      cache.Brelse(bh);
    }

    method ReadEntry(blk: Ulong, i: nat, ghost inode: Inode) returns (r: Option<Ulong>)
      requires Idle() && FileOk(Of(inode))
      modifies cache
      ensures Idle() && r == Down(Of(inode), blk, i)
      ensures i < e ==> forall w: Ulong :: Holds(Of(inode), blk, i, w) ==> r == Some(w)
    {
      var data := BlockOf(blk);
      if i >= e { return None; }
      forall w: Ulong | Holds(Of(inode), blk, i, w) ensures Entry(Of(inode), blk, i) == w {
        EntryIs(Of(inode), blk, i, w);
      }
      assert Entry(Of(inode), blk, i) == Word(data, i);
      r := Some(Word(data, i));
    }

    method GetDouble(inode: Inode, x: nat) returns (r: Option<Ulong>)
      requires Idle() && FileOk(Of(inode))
      modifies cache
      ensures Idle() && r == Down2(Of(inode), Down(Of(inode), inode.block[13], Div(x, e)), Mod(x, e))
    {
      r := ReadEntry(inode.block[13], Div(x, e), inode);
      if r == None { return; }
      r := ReadEntry(r.value, Mod(x, e), inode);
    }

    method GetTriple(inode: Inode, x: nat) returns (r: Option<Ulong>)
      requires Idle() && FileOk(Of(inode)) && Times(e, e) > 0
      modifies cache
      ensures Idle()
      ensures r == Down2(Of(inode), Down2(Of(inode), Down(Of(inode), inode.block[14], Div(x, Times(e, e))),
                                          Div(x, e)), Mod(x, e))
    {
      r := ReadEntry(inode.block[14], Div(x, Times(e, e)), inode);
      if r == None { return; }
      r := ReadEntry(r.value, Div(x, e), inode);
      if r == None { return; }
      r := ReadEntry(r.value, Mod(x, e), inode);
    }

    /** ext2fs_get_block. */
    method GetBlock(inode: Inode, index: nat) returns (r: Option<Ulong>)
      requires Idle() && FileOk(Of(inode))
      modifies cache
      ensures Idle() && r == GetBlockSpec(Of(inode), index)
    {
      hide Times, Div, Mod, Entry, Word;
      if index >= inode.blocks {
        return Some(0);
      }
      if index < NDIR {
        return Some(inode.block[index]);
      }
      if index < SingleMax(e) {
        if inode.block[12] == 0 { return Some(0); }
        r := ReadEntry(inode.block[12], index - NDIR, inode);
      } else if index < DoubleMax(e) {
        if inode.block[13] == 0 { return Some(0); }
        r := GetDouble(inode, index - SingleMax(e));
      } else {
        if inode.block[14] == 0 { return Some(0); }
        DivideTwice(e, index - DoubleMax(e));
        r := GetTriple(inode, index - DoubleMax(e));
      }
    }

    /** Looks one block up and copies n bytes of it to buf[at..], which are the file's next bytes;
        false if the file has no such block. */
    method CopyFrom(inode: Inode, block: nat, from: nat, buf: array<int>, at: nat, n: nat, ghost pos: nat)
      returns (ok: bool)
      requires Idle() && FileOk(Of(inode)) && GetBlockSpec(Of(inode), block) != None
      requires at + n <= buf.Length && from + n <= 4 * e
      requires pos + at == Times(4 * e, block) + from && Copied(Of(inode), pos, buf[..], at)
      modifies cache, buf
      ensures Idle() && ok == Found(Of(inode), block)
      ensures forall k :: at + n <= k < buf.Length ==> buf[k] == old(buf[k])
      ensures Copied(Of(inode), pos, buf[..], if ok then at + n else at)
      ensures !ok ==> buf[..] == old(buf[..])
    {
      hide Times, GetBlockSpec, Copied;
      ghost var was := buf[..];
      var blk := GetBlock(inode, block);
      ok := blk.value != 0;
      if ok {
        var data := BlockOf(blk.value);
        assert data == FoundData(Of(inode), block);
        forall k | 0 <= k < n { buf[at + k] := data[from + k]; }
        StretchCopied(Of(inode), pos, was, buf[..], at, block, from, n);
      }
    }

    /** The whole blocks from buf[at..] on, then the tail. */
    method ReadBlocks(inode: Inode, pos: Ulong, buf: array<int>, at0: nat, total: nat, block0: nat)
      returns (ret: int, ghost good: nat)
      requires Idle() && FileOk(Of(inode)) && at0 <= total <= buf.Length
      requires InReach(Of(inode), pos, total) && Copied(Of(inode), pos, buf[..], at0)
      requires pos + at0 == Times(4 * e, block0)
      modifies cache, buf
      ensures Idle() && Copied(Of(inode), pos, buf[..], good) && Stopped(Of(inode), pos, total, good, ret)
      ensures forall k :: total <= k < buf.Length ==> buf[k] == old(buf[k])
    {
      hide Times, GetBlockSpec, FoundData;
      hide Times, Copied, Stopped, InReach;
      var bs := 4 * e;
      NoTimes(bs);
      var block: nat, at: nat, cb: nat := block0, at0, total - at0;
      var bcnt, res := Div(cb, bs), Mod(cb, bs);
      DivMod(cb, bs);
      while bcnt > 0
        invariant Idle() && at + cb == total && cb == Times(bs, bcnt) + res
        invariant pos + at == Times(bs, block) && Copied(Of(inode), pos, buf[..], at)
        invariant forall k :: total <= k < buf.Length ==> buf[k] == old(buf[k])
      {
        NextTimes(bs, bcnt - 1);
        NextTimes(bs, block);
        ReachAt(Of(inode), pos, total, at, block);
        var ok := CopyFrom(inode, block, 0, buf, at, bs, pos);
        if !ok {
          HoleAt(Of(inode), pos, total, at, block);
          return -1, at;
        }
        block, at, cb, bcnt := block + 1, at + bs, cb - bs, bcnt - 1;
      }
      if res != 0 {
        ReachAt(Of(inode), pos, total, at, block);
        var ok := CopyFrom(inode, block, 0, buf, at, res, pos);
        if !ok {
          HoleAt(Of(inode), pos, total, at, block);
          return 0, at;
        }
        at, cb := at + res, cb - res;
      }
      ret, good := at, at;
      WholeStopped(Of(inode), pos, total);
    }

    /** The body of ext2fs_read, an inode being there already: good counts the bytes copied. */
    method ReadFound(inode: Inode, pos: Ulong, buf: array<int>, count: Ulong) returns (ret: int, ghost good: nat)
      requires Idle() && FileOk(Of(inode))
      requires Adjusted(inode.size, pos, count) <= buf.Length
      requires InReach(Of(inode), pos, Adjusted(inode.size, pos, count))
      modifies cache, buf
      ensures Idle() && Copied(Of(inode), pos, buf[..], good)
      ensures Stopped(Of(inode), pos, Due(inode.size, pos, count), good, ret)
      ensures forall k :: Due(inode.size, pos, count) <= k < buf.Length ==> buf[k] == old(buf[k])
    {
      var cb := Adjusted(inode.size, pos, count);
      good := 0;
      if cb <= 0 {
        return 0, 0;
      }
      var bs := 4 * e;
      var block, res, at: nat := Div(pos, bs), Mod(pos, bs), 0;
      DivMod(pos, bs);
      if res != 0 {
        var left := if bs - res > cb then cb else bs - res;
        var ok := CopyFrom(inode, block, res, buf, 0, left, pos);
        if !ok {
          return 0, 0;
        }
        at := left;
        if cb - left <= 0 {
          return at, at;
        }
        block := block + 1;
      }
      ret, good := ReadBlocks(inode, pos, buf, at, cb, block);
    }

    /** ext2fs_read: what it copies and returns is the file's bytes up to its first hole, and what that
        calls for, exactly when the lookups up to there are right. */
    method Read(inode: Inode, pos: Ulong, buf: array<int>, count: Ulong) returns (ret: int, ghost good: nat)
      requires Idle() && FileOk(Of(inode))
      requires Adjusted(inode.size, pos, count) <= buf.Length
      requires InReach(Of(inode), pos, Adjusted(inode.size, pos, count))
      modifies cache, buf
      ensures Idle() && Copied(Of(inode), pos, buf[..], good)
      ensures Stopped(Of(inode), pos, Due(inode.size, pos, count), good, ret)
      ensures forall k :: Due(inode.size, pos, count) <= k < buf.Length ==> buf[k] == old(buf[k])
      ensures Delivered(Of(inode), pos, buf[..], good)
              && Outcome(Of(inode), pos, Due(inode.size, pos, count), good, ret)
              <==> LookupsRight(Of(inode), pos, Due(inode.size, pos, count))
      ensures var cb := Due(inode.size, pos, count);
              && good <= cb && (good == cb ==> ret == cb)
              && (good < cb ==> ret == if (pos + good) % (4 * e) == 0 && good + 4 * e <= cb then -1 else 0)
    {
      ret, good := ReadFound(inode, pos, buf, count);
      StoppedMeans(Of(inode), pos, Due(inode.size, pos, count), good, ret);
      ReadRight(Of(inode), pos, buf[..], Due(inode.size, pos, count), good, ret);
    }

    /** A caller that reads a part of the file without holes in chunks: together they are that part. */
    method ReadChunks(inode: Inode, pos: nat, counts: seq<nat>) returns (bufs: seq<seq<int>>)
      requires Idle() && FileOk(Of(inode)) && pos + Sum(counts) < WRAP && pos - inode.size <= 0x8000_0000
      requires Wanted(inode.size, pos, Sum(counts)) < 0x8000_0000
      requires AllThere(Of(inode), pos, Wanted(inode.size, pos, Sum(counts)))
      modifies cache
      ensures Idle() && ReadInChunks(Of(inode), pos, counts, bufs)
      ensures |Concat(bufs)| == Wanted(inode.size, pos, Sum(counts))
      ensures Delivered(Of(inode), pos, Concat(bufs), |Concat(bufs)|)
      decreases |counts|
    {
      hide Delivered, AllThere, Copied, Stopped, LookupsRight, InReach;
      bufs := [];
      if counts != [] {
        ghost var f, n := Of(inode), Wanted(inode.size, pos, counts[0]);
        FirstChunk(f, pos, counts);
        AdjustedIsWanted(inode.size, pos, counts[0]);
        ThereInReach(f, pos, n);
        var buf := new int[counts[0]];
        var ret, good := Read(inode, pos, buf, counts[0]);
        WholeRead(f, pos, counts[0], buf[..], good, ret);
        DeliveredPrefix(f, pos, buf[..], ret);
        var rest := ReadChunks(inode, pos + ret, counts[1..]);
        bufs := [buf[..ret]] + rest;
      }
      ChunksDeliver(Of(inode), pos, counts, bufs);
    }
  }
}
