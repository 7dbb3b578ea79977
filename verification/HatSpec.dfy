/** Two-level page tables (src/kernel/i386/hat.c). Virtual pages are numbered; a page directory entry
    and a page table entry are words that hold a page address plus low bits. */
module HatSpec {

  const NPTE: nat := 1024
  const PAGE: nat := 4096
  const PAGES: nat := NPTE * NPTE

  /** A page directory, the page tables by address, the free pages by number, and page_count. */
  datatype Space = Space(dir: seq<nat>, tables: map<nat, seq<nat>>, free: seq<nat>, count: nat)

  function PteAddr(word: nat): nat { word - word % PAGE }

  /** The bits of PTE_PRESENT and perms. */
  predicate LowOk(low: nat) { low < PAGE && low % 2 == 1 }

  function Two(bits: nat): (n: nat)
    ensures n > 0
  {
    if bits == 0 then 1 else 2 * Two(bits - 1)
  }

  /** Bitwise or of words of that many bits. */
  function OrBits(x: nat, y: nat, bits: nat): (r: nat)
    requires x < Two(bits) && y < Two(bits)
    ensures r < Two(bits) && (x == 0 ==> r == y)
  {
    if bits == 0 then 0 else 2 * OrBits(x / 2, y / 2, bits - 1) + (if x % 2 + y % 2 > 0 then 1 else 0)
  }

  lemma PageBits()
    ensures Two(12) == PAGE
  {
    assert Two(4) == 16;
    assert Two(8) == 256;
  }

  /** addr | low */
  function Or(addr: nat, low: nat): nat
    requires low < PAGE
  {
    PageBits();
    PteAddr(addr) + OrBits(addr % PAGE, low, 12)
  }

  /** It keeps the page of the address; at the start of a page it is the sum. */
  lemma OrKeepsPage(addr: nat, low: nat)
    requires low < PAGE
    ensures PteAddr(Or(addr, low)) == PteAddr(addr) && (addr % PAGE == 0 ==> Or(addr, low) == addr + low)
  {
    PageBits();
  }

  function Ipd(v: nat): nat { v / NPTE }
  function Ipt(v: nat): nat { v % NPTE }

  /** The address of the table in a directory slot, 0 for none. */
  function Slot(dir: seq<nat>, i: nat): nat
    requires i < |dir|
  {
    PteAddr(dir[i])
  }

  ghost predicate SlotOk(s: Space, i: nat)
    requires i < |s.dir|
  {
    Slot(s.dir, i) != 0 ==> Slot(s.dir, i) in s.tables && |s.tables[Slot(s.dir, i)]| == NPTE
  }

  /** Every slot has a table of its own, and no table is on a free page. */
  ghost predicate SpaceOk(s: Space) {
    && |s.dir| == NPTE
    && (forall i: nat :: i < NPTE ==> SlotOk(s, i))
    && (forall i: nat, j: nat :: i < j < NPTE && Slot(s.dir, i) != 0 ==> Slot(s.dir, i) != Slot(s.dir, j))
    && (forall i: nat, k: nat :: i < NPTE && k < |s.free| && Slot(s.dir, i) != 0 ==> Slot(s.dir, i) != PAGE * s.free[k])
    && (forall k: nat :: k < |s.free| ==> s.free[k] > 0)
    && (forall j: nat, k: nat :: j < k < |s.free| ==> s.free[j] != s.free[k])
  }

  /** hat_getpfn, of a page by number. */
  function GetPfn(s: Space, v: nat): int
    requires SpaceOk(s) && v < PAGES
  {
    assert SlotOk(s, Ipd(v));
    if Slot(s.dir, Ipd(v)) != 0 then PteAddr(s.tables[Slot(s.dir, Ipd(v))][Ipt(v)]) else -1
  }

  function Zeros(): (t: seq<nat>)
    ensures |t| == NPTE && forall k :: 0 <= k < NPTE ==> t[k] == 0
  {
    seq(NPTE, _ => 0)
  }

  predicate CanOpen(s: Space, i: nat) { i < |s.dir| && (Slot(s.dir, i) != 0 || s.free != []) }

  /** A slot with a table: the one it has, else a zeroed page from the free list. */
  function Opened(s: Space, i: nat, low: nat): Space
    requires CanOpen(s, i) && LowOk(low)
  {
    if Slot(s.dir, i) != 0 then s else
      var page := PAGE * s.free[0];
      Space(s.dir[i := Or(page, low)], s.tables[page := Zeros()], s.free[1..], s.count + 1)
  }

  function Put(s: Space, i: nat, j: nat, word: nat): Space
    requires i < |s.dir| && Slot(s.dir, i) in s.tables && j < |s.tables[Slot(s.dir, i)]|
  {
    var t: seq<nat> := s.tables[Slot(s.dir, i)][j := word];
    s.(tables := s.tables[Slot(s.dir, i) := t])
  }

  lemma OpenedOk(s: Space, i: nat, low: nat)
    requires SpaceOk(s) && CanOpen(s, i) && LowOk(low)
    ensures SpaceOk(Opened(s, i, low)) && Slot(Opened(s, i, low).dir, i) != 0
    ensures Slot(s.dir, i) == 0 ==> Slot(Opened(s, i, low).dir, i) == PAGE * s.free[0]
    ensures forall j: nat :: j < NPTE && j != i ==> Slot(Opened(s, i, low).dir, j) == Slot(s.dir, j)
  {
    hide Or;
    var s' := Opened(s, i, low);
    if Slot(s.dir, i) == 0 {
      OrKeepsPage(PAGE * s.free[0], low);
      assert Slot(s'.dir, i) == PAGE * s.free[0];
      forall j: nat | j < NPTE && j != i ensures Slot(s'.dir, j) == Slot(s.dir, j) && SlotOk(s', j) {
        assert SlotOk(s, j);
      }
    }
  }

  lemma PutOk(s: Space, i: nat, j: nat, word: nat)
    requires SpaceOk(s) && i < NPTE && Slot(s.dir, i) != 0 && j < NPTE
    ensures Slot(s.dir, i) in s.tables && |s.tables[Slot(s.dir, i)]| == NPTE && SpaceOk(Put(s, i, j, word))
    ensures Put(s, i, j, word).dir == s.dir
  {
    assert SlotOk(s, i);
    forall k: nat | k < NPTE ensures SlotOk(Put(s, i, j, word), k) { assert SlotOk(s, k); }
  }

  predicate CanInsert(s: Space, v: nat) { v < PAGES && CanOpen(s, Ipd(v)) }

  /** hat_insert of physical page address pa at page v. */
  function Insert(s: Space, v: nat, pa: nat, low: nat): (s': Space)
    requires SpaceOk(s) && CanInsert(s, v) && LowOk(low)
    ensures SpaceOk(s')
  {
    OpenedOk(s, Ipd(v), low);
    PutOk(Opened(s, Ipd(v), low), Ipd(v), Ipt(v), Or(pa, low));
    Put(Opened(s, Ipd(v), low), Ipd(v), Ipt(v), Or(pa, low))
  }

  /** Table pages can be had for n pages from v on. */
  predicate CanInserts(s: Space, v: nat, pa: nat, n: nat, low: nat)
    requires SpaceOk(s) && LowOk(low)
    decreases n, 0
  {
    n > 0 ==> CanInserts(s, v, pa, n - 1, low) && CanInsert(Inserts(s, v, pa, n - 1, low), v + (n - 1))
  }

  /** n successive hat_inserts. */
  function Inserts(s: Space, v: nat, pa: nat, n: nat, low: nat): (s': Space)
    requires SpaceOk(s) && LowOk(low) && CanInserts(s, v, pa, n, low)
    ensures SpaceOk(s')
    decreases n, 1
  {
    hide SpaceOk, Or, CanInsert;
    if n == 0 then s else Insert(Inserts(s, v, pa, n - 1, low), v + (n - 1), pa + PAGE * (n - 1), low)
  }

  /** What an insert does to the translation of page w; of pa, the page it lies in counts. */
  lemma InsertTranslates(s: Space, v: nat, pa: nat, low: nat, w: nat)
    requires SpaceOk(s) && CanInsert(s, v) && LowOk(low) && w < PAGES
    ensures GetPfn(Insert(s, v, pa, low), w) ==
            if w == v then PteAddr(pa) else if GetPfn(s, w) == -1 && Ipd(w) == Ipd(v) then 0 else GetPfn(s, w)
  {
    hide Or;
    var (i, j) := (Ipd(v), Ipt(v));
    var t := Opened(s, i, low);
    OpenedOk(s, i, low);
    PutOk(t, i, j, Or(pa, low));
    OrKeepsPage(pa, low);
    assert SlotOk(s, Ipd(w)) && SlotOk(t, Ipd(w)) && SlotOk(Insert(s, v, pa, low), Ipd(w));
    if w != v && Ipd(w) == i {
      assert Ipt(w) != j;
    }
  }

  /** The entry of page v after an insert: the page and, for an address at its start, just the low bits; the
      page is present. A new directory entry has the same bits. */
  lemma InsertEntry(s: Space, v: nat, pa: nat, low: nat)
    requires SpaceOk(s) && CanInsert(s, v) && LowOk(low)
    ensures var (s', i) := (Insert(s, v, pa, low), v / 1024);
            && i < |s.dir| == |s'.dir| && Slot(s'.dir, i) in s'.tables && |s'.tables[Slot(s'.dir, i)]| == 1024
            && var word := s'.tables[Slot(s'.dir, i)][v % 1024];
            && PteAddr(word) == PteAddr(pa) && word % 2 == 1 && (pa % PAGE == 0 ==> word == pa + low)
            && s'.dir[i] == if Slot(s.dir, i) != 0 then s.dir[i] else PAGE * s.free[0] + low
  {
    var i := v / 1024;
    var o := Opened(s, i, low);
    OpenedOk(s, i, low);
    PutOk(o, i, v % 1024, Or(pa, low));
    assert SlotOk(o, i) && SlotOk(Insert(s, v, pa, low), i);
    OrKeepsPage(pa, low);
    OrIsOdd(pa, low);
    if Slot(s.dir, i) == 0 { OrKeepsPage(PAGE * s.free[0], low); }
  }

  lemma OrIsOdd(addr: nat, low: nat)
    requires LowOk(low)
    ensures Or(addr, low) % 2 == 1
  {
    hide OrBits, Two;
    PageBits();
    OddBits(addr % PAGE, low, 12);
  }

  lemma OddBits(x: nat, y: nat, bits: nat)
    requires x < Two(bits) && y < Two(bits) && bits > 0 && y % 2 == 1
    ensures OrBits(x, y, bits) % 2 == 1
  {
  }

  predicate InRange(w: nat, v: nat, n: nat) { v <= w < v + n }

  /** A directory slot has pages of the range. */
  predicate Touched(w: nat, v: nat, n: nat) { n > 0 && Ipd(v) <= Ipd(w) <= Ipd(v + (n - 1)) }

  /** n inserts translate the n pages in order, across table boundaries; any other page keeps its
      translation, except that a page without a table reads 0 instead of -1 once its slot has one. */
  lemma {:induction false} InsertsTranslate(s: Space, v: nat, pa: nat, n: nat, low: nat, w: nat)
    requires SpaceOk(s) && LowOk(low) && CanInserts(s, v, pa, n, low) && w < PAGES
    ensures GetPfn(Inserts(s, v, pa, n, low), w) ==
            if InRange(w, v, n) then PteAddr(pa) + PAGE * (w - v)
            else if GetPfn(s, w) == -1 && Touched(w, v, n) then 0 else GetPfn(s, w)
    decreases n
  {
    hide SpaceOk, Insert, GetPfn, Ipd, Touched, CanInsert;
    if n > 0 {
      InsertsTranslate(s, v, pa, n - 1, low, w);
      InsertTranslates(Inserts(s, v, pa, n - 1, low), v + (n - 1), pa + PAGE * (n - 1), low, w);
      NextTouched(w, v, n);
    } else {
      NoneTouched(w, v);
    }
  }

  lemma NoneTouched(w: nat, v: nat)
    ensures !Touched(w, v, 0)
  {
  }

  lemma NextTouched(w: nat, v: nat, n: nat)
    requires n > 0
    ensures Touched(w, v, n) <==> Touched(w, v, n - 1) || Ipd(w) == Ipd(v + (n - 1))
  {
  }
}
