/** Where a file's blocks are: the direct, single, double and triple indirect blocks of an ext2 inode
    (ext2fs_get_block of src/kernel/dev/ext2fs.c). A file is read with e block numbers of 4 bytes in
    an indirect block. */
module Ext2Blocks {
  import opened CacheSpec
  import opened Common
  import opened Digits

  type Block = seq<int>

  /** i_block has 12 direct blocks, then the single, double and triple indirect ones. */
  datatype Inode = Inode(size: Ulong, blocks: Ulong, block: seq<Ulong>)

  datatype File = File(e: nat, dev: Ulong, disk: Key -> Block, inode: Inode)

  const NDIR: nat := 12

  predicate Byte(x: int) { 0 <= x < 256 }

  ghost predicate BlockOk(data: Block, e: nat) {
    |data| == 4 * e && forall i :: 0 <= i < |data| ==> Byte(data[i])
  }

  /** Blocks have up to 4096 bytes. */
  ghost predicate FileOk(f: File) {
    && 0 < f.e <= 1024 && |f.inode.block| == 15
    && forall key :: BlockOk(f.disk(key), f.e)
  }

  /** Entry i of an indirect block: a little-endian word. */
  function Word(data: Block, i: nat): (w: int)
    requires 4 * i + 3 < |data|
  {
    data[4 * i] + 0x100 * data[4 * i + 1] + 0x1_0000 * data[4 * i + 2] + 0x100_0000 * data[4 * i + 3]
  }

  function Entry(f: File, b: Ulong, i: nat): Ulong
    requires FileOk(f) && i < f.e
  {
    var data := f.disk(Key(f.dev, b));
    assert BlockOk(data, f.e);
    assert Byte(data[4 * i]) && Byte(data[4 * i + 1]) && Byte(data[4 * i + 2]) && Byte(data[4 * i + 3]);
    Word(data, i)
  }

  function SingleMax(e: nat): nat { NDIR + e }
  function DoubleMax(e: nat): nat { SingleMax(e) + Times(e, e) }
  function TripleMax(e: nat): nat { DoubleMax(e) + Times(Times(e, e), e) }

  // ----- paths through the trees

  datatype Path = Direct(i: nat) | Single(i: nat) | Double(i: nat, j: nat) | Triple(i: nat, j: nat, k: nat)

  predicate PathOk(e: nat, p: Path) {
    match p
    case Direct(i) => i < NDIR
    case Single(i) => i < e
    case Double(i, j) => i < e && j < e
    case Triple(i, j, k) => i < e && j < e && k < e
  }

  /** The path for a block index, with the remainder that line 442 leaves out. */
  function PathOf(e: nat, index: nat): Path
    requires e > 0
  {
    if index < NDIR then Direct(index)
    else if index < SingleMax(e) then Single(index - NDIR)
    else if index < DoubleMax(e) then
      var x := index - SingleMax(e); Double(Div(x, e), Mod(x, e))
    else
      var x := index - DoubleMax(e);
      assert Times(e, e) > 0 by { DivideTwice(e, x); }
      Triple(Div(x, Times(e, e)), Mod(Div(x, e), e), Mod(x, e))
  }

  function IndexOf(e: nat, p: Path): nat {
    match p
    case Direct(i) => i
    case Single(i) => NDIR + i
    case Double(i, j) => SingleMax(e) + (Times(e, i) + j)
    case Triple(i, j, k) => DoubleMax(e) + (Times(Times(e, e), i) + (Times(e, j) + k))
  }

  /** Every index of the largest file has an in-range path, and its index is that index. */
  lemma PathThenIndex(e: nat, index: nat)
    requires e > 0 && index < TripleMax(e)
    ensures PathOk(e, PathOf(e, index)) && IndexOf(e, PathOf(e, index)) == index
  {
    if SingleMax(e) <= index < DoubleMax(e) {
      var x := index - SingleMax(e);
      Above(e, x, e);
      DivMod(x, e);
    } else if DoubleMax(e) <= index {
      var x := index - DoubleMax(e);
      DivideTwice(e, x);
      Above(Times(e, e), x, e);
      DivMod(x, e);
      DivMod(Div(x, e), e);
    }
  }

  /** Every in-range path has an index of the largest file, and its path is that path. */
  lemma IndexThenPath(e: nat, p: Path)
    requires e > 0 && PathOk(e, p)
    ensures IndexOf(e, p) < TripleMax(e) && PathOf(e, IndexOf(e, p)) == p
  {
    match p
    case Direct(i) =>
    case Single(i) =>
    case Double(i, j) =>
      Below(e, i, j, e);
      OnlyDigits(e, i, j);
    case Triple(i, j, k) => TriplePath(e, i, j, k);
  }

  lemma TriplePath(e: nat, i: nat, j: nat, k: nat)
    requires i < e && j < e && k < e
    ensures var p := Triple(i, j, k); IndexOf(e, p) < TripleMax(e) && PathOf(e, IndexOf(e, p)) == p
  {
    var r := Times(e, j) + k;
    var x := Times(Times(e, e), i) + r;
    Below(e, j, k, e);
    Below(Times(e, e), i, r, e);
    OnlyDigits(Times(e, e), i, r);
    TimesTwice(e, e, i);
    TimesSum(e, Times(e, i), j);
    OnlyDigits(e, Times(e, i) + j, k);
    OnlyDigits(e, i, j);
  }

  // ----- the file as one list of blocks

  function Pow(e: nat, level: nat): nat { if level == 0 then 1 else Times(Pow(e, level - 1), e) }

  lemma Powers(e: nat)
    ensures Pow(e, 0) == 1 && Pow(e, 1) == e && Pow(e, 2) == Times(e, e) && Pow(e, 3) == Times(Times(e, e), e)
  {
    TimesOne(e);
  }

  /** The data blocks below pointer b, left to right; a null pointer stands for a hole. */
  function Leaves(f: File, level: nat, b: Ulong): seq<Ulong>
    requires FileOk(f)
    decreases level, f.e + 1
  {
    if level == 0 then [b]
    else if b == 0 then seq(Pow(f.e, level), _ => 0)
    else LeavesOf(f, level, b, f.e)
  }

  /** Those below the first n entries of indirect block b. */
  function LeavesOf(f: File, level: nat, b: Ulong, n: nat): seq<Ulong>
    requires FileOk(f) && level > 0 && n <= f.e
    decreases level, n
  {
    if n == 0 then [] else LeavesOf(f, level, b, n - 1) + Leaves(f, level - 1, Entry(f, b, n - 1))
  }

  function Flat(f: File): seq<Ulong>
    requires FileOk(f)
  {
    f.inode.block[..NDIR]
    + Leaves(f, 1, f.inode.block[12]) + Leaves(f, 2, f.inode.block[13]) + Leaves(f, 3, f.inode.block[14])
  }

  lemma {:induction false} LeavesLength(f: File, level: nat, b: Ulong)
    requires FileOk(f)
    ensures |Leaves(f, level, b)| == Pow(f.e, level)
    decreases level, f.e + 1
  {
    if level > 0 && b != 0 { LeavesOfLength(f, level, b, f.e); }
  }

  lemma {:induction false} LeavesOfLength(f: File, level: nat, b: Ulong, n: nat)
    requires FileOk(f) && level > 0 && n <= f.e
    ensures |LeavesOf(f, level, b, n)| == Times(Pow(f.e, level - 1), n)
    decreases level, n
  {
    if n > 0 {
      LeavesOfLength(f, level, b, n - 1);
      LeavesLength(f, level - 1, Entry(f, b, n - 1));
    }
  }

  lemma {:induction false} LeavesOfAt(f: File, level: nat, b: Ulong, n: nat, i: nat, r: nat)
    requires FileOk(f) && level > 0 && i < n <= f.e && r < Pow(f.e, level - 1)
    ensures var at := Times(Pow(f.e, level - 1), i) + r;
            && at < |LeavesOf(f, level, b, n)| && r < |Leaves(f, level - 1, Entry(f, b, i))|
            && LeavesOf(f, level, b, n)[at] == Leaves(f, level - 1, Entry(f, b, i))[r]
    decreases n
  {
    LeavesOfLength(f, level, b, n - 1);
    LeavesLength(f, level - 1, Entry(f, b, n - 1));
    if i < n - 1 {
      LeavesOfAt(f, level, b, n - 1, i, r);
    }
  }

  /** What the tree below a non-null pointer has at position e^(level-1) * i + r. */
  lemma LeafAt(f: File, level: nat, b: Ulong, i: nat, r: nat)
    requires FileOk(f) && level > 0 && b != 0 && i < f.e && r < Pow(f.e, level - 1)
    ensures var at := Times(Pow(f.e, level - 1), i) + r;
            && at < |Leaves(f, level, b)| && r < |Leaves(f, level - 1, Entry(f, b, i))|
            && Leaves(f, level, b)[at] == Leaves(f, level - 1, Entry(f, b, i))[r]
  {
    LeavesOfAt(f, level, b, f.e, i, r);
  }

  // ----- ext2fs_get_block

  /** One step down: the entry of an indirect block, or None past the block's end. */
  function Down(f: File, b: Ulong, i: nat): Option<Ulong>
    requires FileOk(f)
  {
    if i < f.e then Some(Entry(f, b, i)) else None
  }

  function Down2(f: File, b: Option<Ulong>, i: nat): Option<Ulong>
    requires FileOk(f)
  {
    if b == None then None else Down(f, b.value, i)
  }

  /** The block ext2fs_get_block returns for a file block index, 0 for none; None where it reads past
      an indirect block. The second index of the triple tree has no remainder (line 442). */
  function GetBlockSpec(f: File, index: nat): Option<Ulong>
    requires FileOk(f)
  {
    var e, top := f.e, f.inode.block;
    if index >= f.inode.blocks then Some(0)
    else if index < NDIR then Some(top[index])
    else if index < SingleMax(e) then
      if top[12] == 0 then Some(0) else Down(f, top[12], index - NDIR)
    else if index < DoubleMax(e) then
      var x := index - SingleMax(e);
      if top[13] == 0 then Some(0) else Down2(f, Down(f, top[13], Div(x, e)), Mod(x, e))
    else
      var x := index - DoubleMax(e);
      assert Times(e, e) > 0 by { DivideTwice(e, x); }
      if top[14] == 0 then Some(0)
      else Down2(f, Down2(f, Down(f, top[14], Div(x, Times(e, e))), Div(x, e)), Mod(x, e))
  }

  /** No null pointer inside the trees on the way to a block: the code checks only the inode's own. */
  predicate NoInnerHole(f: File, p: Path)
    requires FileOk(f) && PathOk(f.e, p)
  {
    match p
    case Direct(_) => true
    case Single(_) => true
    case Double(i, _) => f.inode.block[13] != 0 ==> Entry(f, f.inode.block[13], i) != 0
    case Triple(i, j, _) =>
      f.inode.block[14] != 0 ==>
        Entry(f, f.inode.block[14], i) != 0 && Entry(f, Entry(f, f.inode.block[14], i), j) != 0
  }

  lemma Joined(a: seq<Ulong>, b: seq<Ulong>, c: seq<Ulong>, d: seq<Ulong>, k: nat)
    ensures var s := a + b + c + d;
            && |s| == |a| + |b| + |c| + |d|
            && (k < |b| ==> s[|a| + k] == b[k])
            && (k < |c| ==> s[|a| + |b| + k] == c[k])
            && (k < |d| ==> s[|a| + |b| + |c| + k] == d[k])
  {
  }

  lemma TreeLengths(f: File)
    requires FileOk(f)
    ensures |Leaves(f, 1, f.inode.block[12])| == f.e && |Leaves(f, 2, f.inode.block[13])| == Times(f.e, f.e)
    ensures |Leaves(f, 3, f.inode.block[14])| == Times(Times(f.e, f.e), f.e) && |Flat(f)| == TripleMax(f.e)
  {
    Powers(f.e);
    LeavesLength(f, 1, f.inode.block[12]);
    LeavesLength(f, 2, f.inode.block[13]);
    LeavesLength(f, 3, f.inode.block[14]);
  }

  lemma FlatJoined(f: File, k: nat)
    requires FileOk(f)
    ensures var (b, c, d) := (Leaves(f, 1, f.inode.block[12]), Leaves(f, 2, f.inode.block[13]),
                              Leaves(f, 3, f.inode.block[14]));
            && |Flat(f)| == NDIR + |b| + |c| + |d|
            && (k < |b| ==> Flat(f)[NDIR + k] == b[k])
            && (k < |c| ==> Flat(f)[NDIR + |b| + k] == c[k])
            && (k < |d| ==> Flat(f)[NDIR + |b| + |c| + k] == d[k])
  {
    var top := f.inode.block;
    Joined(top[..NDIR], Leaves(f, 1, top[12]), Leaves(f, 2, top[13]), Leaves(f, 3, top[14]), k);
  }

  lemma FlatTree1(f: File, at: nat)
    requires FileOk(f) && at < |Leaves(f, 1, f.inode.block[12])|
    ensures NDIR + at < |Flat(f)| && Flat(f)[NDIR + at] == Leaves(f, 1, f.inode.block[12])[at]
  {
    TreeLengths(f);
    FlatJoined(f, at);
  }

  lemma FlatTree2(f: File, at: nat)
    requires FileOk(f) && at < |Leaves(f, 2, f.inode.block[13])|
    ensures SingleMax(f.e) + at < |Flat(f)| && Flat(f)[SingleMax(f.e) + at] == Leaves(f, 2, f.inode.block[13])[at]
  {
    TreeLengths(f);
    FlatJoined(f, at);
  }

  lemma FlatTree3(f: File, at: nat)
    requires FileOk(f) && at < |Leaves(f, 3, f.inode.block[14])|
    ensures DoubleMax(f.e) + at < |Flat(f)| && Flat(f)[DoubleMax(f.e) + at] == Leaves(f, 3, f.inode.block[14])[at]
  {
    TreeLengths(f);
    FlatJoined(f, at);
  }

  lemma FlatSingle(f: File, i: nat)
    requires FileOk(f) && i < f.e
    ensures NDIR + i < |Flat(f)| && Flat(f)[NDIR + i] == SingleEntry(f, f.inode.block[12], i)
  {
    hide Flat, Leaves, Entry, SingleEntry;
    TreeSingle(f, f.inode.block[12], i);
    FlatTree1(f, i);
  }

  function SingleEntry(f: File, b: Ulong, i: nat): Ulong
    requires FileOk(f) && i < f.e
  {
    if b == 0 then 0 else Entry(f, b, i)
  }

  function DoubleEntry(f: File, b: Ulong, i: nat, j: nat): Ulong
    requires FileOk(f) && i < f.e && j < f.e
  {
    if b == 0 then 0 else Entry(f, Entry(f, b, i), j)
  }

  function TripleEntry(f: File, b: Ulong, i: nat, j: nat, k: nat): Ulong
    requires FileOk(f) && i < f.e && j < f.e && k < f.e
  {
    if b == 0 then 0 else Entry(f, Entry(f, Entry(f, b, i), j), k)
  }

  lemma TreeSingle(f: File, b: Ulong, i: nat)
    requires FileOk(f) && i < f.e
    ensures i < |Leaves(f, 1, b)| && Leaves(f, 1, b)[i] == SingleEntry(f, b, i)
  {
    Powers(f.e);
    LeavesLength(f, 1, b);
    TimesOne(i);
    if b != 0 { LeafAt(f, 1, b, i, 0); }
  }

  lemma TreeDouble(f: File, b: Ulong, i: nat, j: nat)
    requires FileOk(f) && i < f.e && j < f.e && (b != 0 ==> Entry(f, b, i) != 0)
    ensures var at := Times(f.e, i) + j;
            at < |Leaves(f, 2, b)| && Leaves(f, 2, b)[at] == DoubleEntry(f, b, i, j)
  {
    Powers(f.e);
    LeavesLength(f, 2, b);
    Below(f.e, i, j, f.e);
    if b != 0 {
      LeafAt(f, 2, b, i, j);
      TreeSingle(f, Entry(f, b, i), j);
    }
  }

  lemma TreeTriple(f: File, b: Ulong, i: nat, j: nat, k: nat)
    requires FileOk(f) && i < f.e && j < f.e && k < f.e
    requires b != 0 ==> Entry(f, b, i) != 0 && Entry(f, Entry(f, b, i), j) != 0
    ensures var at := Times(Times(f.e, f.e), i) + (Times(f.e, j) + k);
            at < |Leaves(f, 3, b)| && Leaves(f, 3, b)[at] == TripleEntry(f, b, i, j, k)
  {
    hide Entry, Times;
    var r := Times(f.e, j) + k;
    Powers(f.e);
    LeavesLength(f, 3, b);
    Below(f.e, j, k, f.e);
    Below(Times(f.e, f.e), i, r, f.e);
    if b != 0 {
      LeafAt(f, 3, b, i, r);
      TreeDouble(f, Entry(f, b, i), j, k);
    }
  }

  lemma FlatDouble(f: File, i: nat, j: nat)
    requires FileOk(f) && i < f.e && j < f.e && NoInnerHole(f, Double(i, j))
    ensures var at := IndexOf(f.e, Double(i, j));
            at < |Flat(f)| && Flat(f)[at] == DoubleEntry(f, f.inode.block[13], i, j)
  {
    hide Flat, Leaves, Entry, DoubleEntry;
    TreeDouble(f, f.inode.block[13], i, j);
    FlatTree2(f, Times(f.e, i) + j);
  }

  lemma FlatTriple(f: File, i: nat, j: nat, k: nat)
    requires FileOk(f) && i < f.e && j < f.e && k < f.e && NoInnerHole(f, Triple(i, j, k))
    ensures var at := IndexOf(f.e, Triple(i, j, k));
            at < |Flat(f)| && Flat(f)[at] == TripleEntry(f, f.inode.block[14], i, j, k)
  {
    hide Flat, Leaves, Entry, TripleEntry;
    TreeTriple(f, f.inode.block[14], i, j, k);
    FlatTree3(f, Times(Times(f.e, f.e), i) + (Times(f.e, j) + k));
  }

  /** Without the remainder the second index stays in its block just for the first e * e indices. */
  lemma TripleReach(e: nat, x: nat)
    requires e > 0
    ensures Times(e, e) > 0 && (Div(x, e) < e <==> x < Times(e, e))
    ensures x < Times(e, e) ==> Mod(Div(x, e), e) == Div(x, e) && Div(x, Times(e, e)) == 0
  {
    DivideTwice(e, x);
    Above(e, x, e);
  }

  predicate Reached(f: File, index: nat)
    requires FileOk(f)
  {
    index < DoubleMax(f.e) + Times(f.e, f.e) || f.inode.block[14] == 0
  }

  lemma LookupInTriple(f: File, i: nat, j: nat, k: nat)
    requires FileOk(f) && i < f.e && j < f.e && k < f.e && NoInnerHole(f, Triple(i, j, k))
    requires IndexOf(f.e, Triple(i, j, k)) < f.inode.blocks
    requires PathOf(f.e, IndexOf(f.e, Triple(i, j, k))) == Triple(i, j, k)
    ensures var index := IndexOf(f.e, Triple(i, j, k));
            && index < |Flat(f)|
            && GetBlockSpec(f, index) == if Reached(f, index) then Some(Flat(f)[index]) else None
  {
    hide Flat, Leaves, Entry, Word, Times, Div, Mod;
    FlatTriple(f, i, j, k);
    TripleReach(f.e, IndexOf(f.e, Triple(i, j, k)) - DoubleMax(f.e));
  }

  lemma LookupInDouble(f: File, i: nat, j: nat)
    requires FileOk(f) && i < f.e && j < f.e && NoInnerHole(f, Double(i, j))
    requires IndexOf(f.e, Double(i, j)) < f.inode.blocks
    requires PathOf(f.e, IndexOf(f.e, Double(i, j))) == Double(i, j)
    ensures var index := IndexOf(f.e, Double(i, j));
            index < |Flat(f)| && GetBlockSpec(f, index) == Some(Flat(f)[index]) && Reached(f, index)
  {
    hide Flat, Leaves, Entry, Word, Times, Div, Mod;
    FlatDouble(f, i, j);
  }

  /** A lookup is the flat list's entry at that index, exactly up to the end of the part of the triple
      tree that one entry of its top block covers; past it the second index leaves its block. */
  lemma LookupIsFlat(f: File, index: nat)
    requires FileOk(f) && index < f.inode.blocks && index < TripleMax(f.e)
    requires PathOk(f.e, PathOf(f.e, index)) && NoInnerHole(f, PathOf(f.e, index))
    ensures |Flat(f)| == TripleMax(f.e)
    ensures GetBlockSpec(f, index) == Some(Flat(f)[index]) <==> Reached(f, index)
    ensures GetBlockSpec(f, index) == None <==> !Reached(f, index)
  {
    hide Leaves, Entry;
    var p := PathOf(f.e, index);
    PathThenIndex(f.e, index);
    TreeLengths(f);
    match p
    case Direct(i) =>
    case Single(i) => FlatSingle(f, i);
    case Double(i, j) => LookupInDouble(f, i, j);
    case Triple(i, j, k) => LookupInTriple(f, i, j, k);
  }

  /** The block at the end of a path. */
  function Walk(f: File, p: Path): Ulong
    requires FileOk(f) && PathOk(f.e, p)
  {
    var top := f.inode.block;
    match p
    case Direct(i) => top[i]
    case Single(i) => SingleEntry(f, top[12], i)
    case Double(i, j) => DoubleEntry(f, top[13], i, j)
    case Triple(i, j, k) => TripleEntry(f, top[14], i, j, k)
  }

  /** With the remainder in place, every lookup is an index into the flat list. */
  lemma WalkIsFlat(f: File, index: nat)
    requires FileOk(f) && index < TripleMax(f.e)
    requires PathOk(f.e, PathOf(f.e, index)) && NoInnerHole(f, PathOf(f.e, index))
    ensures |Flat(f)| == TripleMax(f.e) && Walk(f, PathOf(f.e, index)) == Flat(f)[index]
  {
    PathThenIndex(f.e, index);
    TreeLengths(f);
    match PathOf(f.e, index)
    case Direct(i) =>
    case Single(i) => FlatSingle(f, i);
    case Double(i, j) => FlatDouble(f, i, j);
    case Triple(i, j, k) => FlatTriple(f, i, j, k);
  }

  // ----- null pointers inside the trees

  lemma NullLeaves(f: File, level: nat, b: Ulong, i: nat, r: nat)
    requires FileOk(f) && level > 1 && b != 0 && i < f.e && Entry(f, b, i) == 0 && r < Pow(f.e, level - 1)
    ensures var at := Times(Pow(f.e, level - 1), i) + r; at < |Leaves(f, level, b)| && Leaves(f, level, b)[at] == 0
  {
    LeafAt(f, level, b, i, r);
  }

  /** A null pointer in the double indirect block: the file has a hole there, but the lookup reads block
      0 of the device as an indirect block. */
  lemma HoleInDouble(f: File, i: nat, j: nat)
    requires FileOk(f) && i < f.e && j < f.e && f.inode.block[13] != 0 && Entry(f, f.inode.block[13], i) == 0
    requires IndexOf(f.e, Double(i, j)) < f.inode.blocks
    ensures var index := IndexOf(f.e, Double(i, j));
            && index < |Flat(f)| && Flat(f)[index] == 0 && GetBlockSpec(f, index) == Some(Entry(f, 0, j))
  {
    hide Flat, Leaves, Entry, Pow, Word, Times, Div, Mod;
    Powers(f.e);
    IndexThenPath(f.e, Double(i, j));
    NullLeaves(f, 2, f.inode.block[13], i, j);
    FlatTree2(f, Times(f.e, i) + j);
  }

  /** What a lookup in the first e * e blocks of the triple tree reads, null pointers or not. */
  lemma ReadInTriple(f: File, j: nat, k: nat)
    requires FileOk(f) && j < f.e && k < f.e && f.inode.block[14] != 0
    requires IndexOf(f.e, Triple(0, j, k)) < f.inode.blocks
    ensures GetBlockSpec(f, IndexOf(f.e, Triple(0, j, k)))
         == Some(Entry(f, Entry(f, Entry(f, f.inode.block[14], 0), j), k))
  {
    hide Entry;
    var r := Times(f.e, j) + k;
    Below(f.e, j, k, f.e);
    OnlyDigits(f.e, j, k);
    TripleReach(f.e, r);
    IndexThenPath(f.e, Triple(0, j, k));
  }

  /** The same in the first or second level of the triple indirect tree, as far as lookups reach. */
  lemma HoleInTriple(f: File, j: nat, k: nat)
    requires FileOk(f) && j < f.e && k < f.e && f.inode.block[14] != 0
    requires var b := Entry(f, f.inode.block[14], 0); b == 0 || Entry(f, b, j) == 0
    requires IndexOf(f.e, Triple(0, j, k)) < f.inode.blocks
    ensures var (index, b) := (IndexOf(f.e, Triple(0, j, k)), Entry(f, f.inode.block[14], 0));
            && index < |Flat(f)| && Flat(f)[index] == 0
            && GetBlockSpec(f, index) == Some(Entry(f, Entry(f, b, j), k))
  {
    hide Flat, Leaves, Entry, Pow, GetBlockSpec;
    var b := Entry(f, f.inode.block[14], 0);
    var r := Times(f.e, j) + k;
    Powers(f.e);
    Below(f.e, j, k, f.e);
    ReadInTriple(f, j, k);
    if b == 0 {
      NullLeaves(f, 3, f.inode.block[14], 0, r);
    } else {
      LeafAt(f, 3, f.inode.block[14], 0, r);
      NullLeaves(f, 2, b, j, k);
    }
    FlatTree3(f, Times(Times(f.e, f.e), 0) + r);
  }

  // ----- when a lookup is right

  /** The file's block with index q, 0 for none: its place in the flat list. */
  function FileBlock(f: File, q: nat): Ulong
    requires FileOk(f)
  {
    if q < |Flat(f)| then Flat(f)[q] else 0
  }

  /** What a lookup past a null pointer inside a tree ends up reading. */
  function Stray(f: File, p: Path): Ulong
    requires FileOk(f) && PathOk(f.e, p)
  {
    match p
    case Direct(_) => 0
    case Single(_) => 0
    case Double(_, j) => Entry(f, 0, j)
    case Triple(_, j, k) => Entry(f, Entry(f, Entry(f, f.inode.block[14], 0), j), k)
  }

  /** An index past i_blocks must have no block; any other must be reached, and not lead through a null
      pointer inside a tree, unless what is read there instead is 0 as well. */
  predicate LookupRight(f: File, q: nat)
    requires FileOk(f)
  {
    if q >= f.inode.blocks then FileBlock(f, q) == 0
    else
      Reached(f, q)
      && (PathOk(f.e, PathOf(f.e, q)) ==> NoInnerHole(f, PathOf(f.e, q)) || Stray(f, PathOf(f.e, q)) == 0)
  }

  lemma PastTriple(f: File, q: nat)
    requires FileOk(f) && TripleMax(f.e) <= q < f.inode.blocks
    ensures GetBlockSpec(f, q) == if f.inode.block[14] == 0 then Some(0) else None
  {
    hide Flat, Entry, Word, Pow;
    var x := q - DoubleMax(f.e);
    DivideTwice(f.e, x);
    Above(Times(f.e, f.e), x, f.e);
  }

  lemma PastEveryPath(e: nat, q: nat)
    requires e > 0 && q >= TripleMax(e)
    ensures !PathOk(e, PathOf(e, q))
  {
    if PathOk(e, PathOf(e, q)) {
      var x := q - DoubleMax(e);
      DivideTwice(e, x);
      Above(Times(e, e), x, e);
    }
  }

  lemma NotReached(f: File, q: nat)
    requires FileOk(f) && q < f.inode.blocks && q < TripleMax(f.e) && !Reached(f, q)
    ensures GetBlockSpec(f, q) == None
  {
    TripleReach(f.e, q - DoubleMax(f.e));
  }

  lemma WithoutHole(f: File, q: nat)
    requires FileOk(f) && q < f.inode.blocks && q < TripleMax(f.e)
    requires PathOk(f.e, PathOf(f.e, q)) && NoInnerHole(f, PathOf(f.e, q))
    ensures GetBlockSpec(f, q) == Some(FileBlock(f, q)) <==> Reached(f, q)
  {
    LookupIsFlat(f, q);
  }

  /** Behind a null pointer inside a tree the file has a hole, and a lookup that reaches it reads a stray
      entry. */
  lemma InnerHole(f: File, q: nat)
    requires FileOk(f) && q < f.inode.blocks && q < TripleMax(f.e) && Reached(f, q)
    requires PathOk(f.e, PathOf(f.e, q)) && !NoInnerHole(f, PathOf(f.e, q))
    ensures FileBlock(f, q) == 0 && GetBlockSpec(f, q) == Some(Stray(f, PathOf(f.e, q)))
  {
    PathThenIndex(f.e, q);
    match PathOf(f.e, q)
    case Double(i, j) => HoleInDouble(f, i, j);
    case Triple(i, j, k) =>
      TripleReach(f.e, q - DoubleMax(f.e));
      ReadInTriple(f, j, k);
      HoleInTriple(f, j, k);
  }

  /** A lookup gives the file's block, or 0 for none, exactly when LookupRight says so, for every index. */
  lemma LookupExact(f: File, q: nat)
    requires FileOk(f)
    ensures GetBlockSpec(f, q) == Some(FileBlock(f, q)) <==> LookupRight(f, q)
  {
    hide Flat, Entry, NoInnerHole;
    TreeLengths(f);
    if q >= f.inode.blocks {
    } else if q >= TripleMax(f.e) {
      PastTriple(f, q);
      PastEveryPath(f.e, q);
    } else {
      PathThenIndex(f.e, q);
      if !Reached(f, q) {
        NotReached(f, q);
      } else if NoInnerHole(f, PathOf(f.e, q)) {
        WithoutHole(f, q);
      } else {
        InnerHole(f, q);
      }
    }
  }

  /** Where the file has a block and the lookup finds one, it is the same. */
  lemma BothBlocks(f: File, q: nat)
    requires FileOk(f) && FileBlock(f, q) != 0
    requires GetBlockSpec(f, q) != None && GetBlockSpec(f, q) != Some(0)
    ensures GetBlockSpec(f, q) == Some(FileBlock(f, q))
  {
    LookupExact(f, q);
    TreeLengths(f);
    if !LookupRight(f, q) {
      PathThenIndex(f.e, q);
      if !Reached(f, q) { NotReached(f, q); } else { InnerHole(f, q); }
    }
  }

  /** A block of the file that is within i_blocks and reached is found. */
  lemma BlockFound(f: File, q: nat)
    requires FileOk(f) && q < f.inode.blocks && Reached(f, q) && FileBlock(f, q) != 0
    ensures LookupRight(f, q) && GetBlockSpec(f, q) == Some(FileBlock(f, q))
  {
    LookupExact(f, q);
    TreeLengths(f);
    PathThenIndex(f.e, q);
    if !NoInnerHole(f, PathOf(f.e, q)) { InnerHole(f, q); }
  }

  /** A file of 1024-byte blocks whose double indirect block, 5, is all null, on a device of ones. */
  function StrayFile(): File {
    File(256, 1, (key: Key) => seq(1024, _ => if key.blk == 5 then 0 else 1),
         Inode(0x10_0000, 2048, seq(15, i => if i == 13 then 5 else 0)))
  }

  /** The lookup of its first block in the double tree gives a block, though the file has none there. */
  lemma StrayRead()
    ensures FileOk(StrayFile()) && FileBlock(StrayFile(), SingleMax(256)) == 0
    ensures GetBlockSpec(StrayFile(), SingleMax(256)) == Some(0x101_0101) && !LookupRight(StrayFile(), SingleMax(256))
  {
    var f := StrayFile();
    assert FileOk(f) by {
      forall key: Key ensures BlockOk(f.disk(key), f.e) { }
    }
    StrayEntries(f);
    assert IndexOf(256, Double(0, 0)) == SingleMax(256);
    HoleInDouble(f, 0, 0);
    LookupExact(f, SingleMax(256));
  }

  lemma StrayEntries(f: File)
    requires f == StrayFile() && FileOk(f)
    ensures Entry(f, 5, 0) == 0 && Entry(f, 0, 0) == 0x101_0101
  {
  }

  /** A file of 1024-byte blocks with block 1 for all its pointers, on a device of ones. */
  function FarFile(): File {
    File(256, 1, (key: Key) => seq(1024, _ => 1), Inode(0x4000_0000, 0x10_0000, seq(15, _ => 1)))
  }

  /** It has the first block that line 442's second index does not reach, but its lookup leaves the
      indirect block. */
  lemma FarRead()
    ensures var (f, q) := (FarFile(), DoubleMax(256) + Times(256, 256));
            && FileOk(f) && q < f.inode.blocks && FileBlock(f, q) == 0x101_0101
            && GetBlockSpec(f, q) == None && !LookupRight(f, q)
  {
    hide Flat, PathOf, GetBlockSpec, Entry;
    var f, q := FarFile(), DoubleMax(256) + Times(256, 256);
    FarEntries(f);
    TimesIsProduct(256, 256);
    assert IndexOf(256, Triple(1, 0, 0)) == q;
    IndexThenPath(256, Triple(1, 0, 0));
    FlatTriple(f, 1, 0, 0);
    NotReached(f, q);
  }

  lemma FarEntries(f: File)
    requires f == FarFile()
    ensures FileOk(f) && Entry(f, 1, 1) == Entry(f, 0x101_0101, 0) == 0x101_0101
  {
    forall key: Key ensures BlockOk(f.disk(key), f.e) { }
  }

  // ----- lookups by the bytes on the device

  /** Bytes 4i to 4i + 3 of device block b are w, the least significant first. */
  predicate Holds(f: File, b: Ulong, i: nat, w: Ulong)
    requires FileOk(f) && i < f.e
  {
    var data := f.disk(Key(f.dev, b));
    assert BlockOk(data, f.e);
    && data[4 * i] == w % 256 && data[4 * i + 1] == w / 0x100 % 256
    && data[4 * i + 2] == w / 0x1_0000 % 256 && data[4 * i + 3] == w / 0x100_0000
  }

  lemma WordIs(data: Block, i: nat, w: Ulong)
    requires 4 * i + 3 < |data|
    requires data[4 * i] == w % 256 && data[4 * i + 1] == w / 0x100 % 256
    requires data[4 * i + 2] == w / 0x1_0000 % 256 && data[4 * i + 3] == w / 0x100_0000
    ensures Word(data, i) == w
  {
    var x, y := w / 0x100, w / 0x1_0000;
    assert w == 0x100 * x + w % 0x100;
    assert y == x / 0x100 && x == 0x100 * y + x % 0x100;
    assert w / 0x100_0000 == y / 0x100 && y == 0x100 * (y / 0x100) + y % 0x100;
  }

  /** An entry is the word its four bytes hold. */
  lemma EntryIs(f: File, b: Ulong, i: nat, w: Ulong)
    requires FileOk(f) && i < f.e && Holds(f, b, i, w)
    ensures Entry(f, b, i) == w
  {
    hide Word;
    var data := f.disk(Key(f.dev, b));
    assert BlockOk(data, f.e);
    WordIs(data, i, w);
  }

  /** Block 12 + i is what entry i of the single indirect block says. */
  lemma SingleByBytes(f: File, i: nat, w: Ulong)
    requires FileOk(f) && i < f.e && f.inode.block[12] != 0 && Holds(f, f.inode.block[12], i, w)
    requires 12 + i < f.inode.blocks
    ensures GetBlockSpec(f, 12 + i) == Some(w) && FileBlock(f, 12 + i) == w
  {
    hide Entry, Holds, Flat, Leaves;
    EntryIs(f, f.inode.block[12], i, w);
    FlatSingle(f, i);
  }

  /** Block 12 + e + e * i + j is what entry j of the block says that entry i of the double indirect one names. */
  lemma DoubleByBytes(f: File, i: nat, j: nat, u: Ulong, w: Ulong)
    requires FileOk(f) && i < f.e && j < f.e && f.inode.block[13] != 0 && Holds(f, f.inode.block[13], i, u)
    requires u != 0 && Holds(f, u, j, w) && 12 + f.e + f.e * i + j < f.inode.blocks
    ensures var q := 12 + f.e + f.e * i + j; GetBlockSpec(f, q) == Some(w) && FileBlock(f, q) == w
  {
    hide Entry, Holds, Flat, Leaves;
    EntryIs(f, f.inode.block[13], i, u);
    EntryIs(f, u, j, w);
    TimesIsProduct(f.e, i);
    IndexThenPath(f.e, Double(i, j));
    FlatDouble(f, i, j);
    LookupInDouble(f, i, j);
  }

  /** So for the first e * e blocks of the triple indirect tree, three levels down. */
  lemma TripleByBytes(f: File, j: nat, k: nat, t: Ulong, u: Ulong, w: Ulong)
    requires FileOk(f) && j < f.e && k < f.e && f.inode.block[14] != 0 && Holds(f, f.inode.block[14], 0, t)
    requires t != 0 && Holds(f, t, j, u) && u != 0 && Holds(f, u, k, w)
    requires 12 + f.e + f.e * f.e + f.e * j + k < f.inode.blocks
    ensures var q := 12 + f.e + f.e * f.e + f.e * j + k; GetBlockSpec(f, q) == Some(w) && FileBlock(f, q) == w
  {
    hide Entry, Holds, Flat, Leaves;
    EntryIs(f, f.inode.block[14], 0, t);
    EntryIs(f, t, j, u);
    EntryIs(f, u, k, w);
    TimesIsProduct(f.e, f.e);
    TimesIsProduct(f.e, j);
    Below(f.e, j, k, f.e);
    IndexThenPath(f.e, Triple(0, j, k));
    FlatTriple(f, 0, j, k);
    LookupInTriple(f, 0, j, k);
  }

  /** A file whose inode and device blocks have no two bytes in a row alike. */
  function MixedFile(): File {
    File(256, 1, (key: Key) => seq(1024, i requires 0 <= i < 1024 => (key.blk + i) % 256),
         Inode(0x4000_0000, 0x10_0000, seq(15, i requires 0 <= i < 15 => 101 + i)))
  }

  /** Its blocks 3, 12, 268 and 65804: direct, single, double and triple indirect. */
  lemma MixedBlocks()
    ensures var f := MixedFile();
            && FileOk(f) && GetBlockSpec(f, 3) == Some(104) && GetBlockSpec(f, 12) == Some(0x7473_7271)
            && GetBlockSpec(f, 268) == Some(0x7574_7372) && GetBlockSpec(f, 65804) == Some(0x7675_7473)
  {
    hide GetBlockSpec, FileBlock, Entry, Flat;
    var f := MixedFile();
    MixedHolds(f);
    SingleByBytes(f, 0, 0x7473_7271);
    DoubleByBytes(f, 0, 0, 0x7574_7372, 0x7574_7372);
    TripleByBytes(f, 0, 0, 0x7675_7473, 0x7675_7473, 0x7675_7473);
    DirectBlock(f, 3);
  }

  lemma DirectBlock(f: File, q: nat)
    requires FileOk(f) && q < 12 && q < f.inode.blocks
    ensures GetBlockSpec(f, q) == Some(f.inode.block[q])
  {
  }

  lemma MixedHolds(f: File)
    requires f == MixedFile()
    ensures FileOk(f) && Holds(f, 113, 0, 0x7473_7271)
    ensures Holds(f, 114, 0, 0x7574_7372) && Holds(f, 0x7574_7372, 0, 0x7574_7372)
    ensures Holds(f, 115, 0, 0x7675_7473) && Holds(f, 0x7675_7473, 0, 0x7675_7473)
  {
    forall key: Key ensures BlockOk(f.disk(key), f.e) { }
  }
}
