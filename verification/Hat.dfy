/** hat_insert, hat_map and hat_getpfn over page tables in memory (src/kernel/i386/hat.c). */
module Hat {
  import opened Pages
  import opened HatSpec

  lemma {:induction false} CanInsertsPrefix(s: Space, v: nat, pa: nat, n: nat, low: nat, k: nat)
    requires SpaceOk(s) && LowOk(low) && CanInserts(s, v, pa, n, low) && k <= n
    ensures CanInserts(s, v, pa, k, low)
    ensures k < n ==> CanInsert(Inserts(s, v, pa, k, low), v + k)
    decreases n
  {
    hide SpaceOk, CanInsert;
    if k < n - 1 { CanInsertsPrefix(s, v, pa, n - 1, low, k); }
  }

  lemma InsertedSlot(s: Space, v: nat, pa: nat, low: nat)
    requires SpaceOk(s) && CanInsert(s, v) && LowOk(low)
    ensures var t := Insert(s, v, pa, low);
            && CanOpen(t, Ipd(v)) && Slot(t.dir, Ipd(v)) != 0 && Opened(t, Ipd(v), low) == t
            && Slot(t.dir, Ipd(v)) == Slot(Opened(s, Ipd(v), low).dir, Ipd(v))
  {
    OpenedOk(s, Ipd(v), low);
    PutOk(Opened(s, Ipd(v), low), Ipd(v), Ipt(v), Or(pa, low));
  }

  /** Later inserts of one table find it in place. */
  lemma OpenOnce(s: Space, v: nat, pa: nat, n: nat, low: nat, m: nat)
    requires SpaceOk(s) && LowOk(low) && CanInserts(s, v, pa, n, low) && 0 < m < n && Ipd(v + m) == Ipd(v + (m - 1))
    ensures CanInserts(s, v, pa, m, low)
    ensures var t := Inserts(s, v, pa, m, low); CanOpen(t, Ipd(v + m)) && Opened(t, Ipd(v + m), low) == t
  {
    hide SpaceOk, Insert, Opened;
    CanInsertsPrefix(s, v, pa, n, low, m);
    CanInsertsPrefix(s, v, pa, n, low, m - 1);
    InsertedSlot(Inserts(s, v, pa, m - 1, low), v + (m - 1), pa + PAGE * (m - 1), low);
  }

  /** The next insert is one write when the table is in place. */
  lemma NextInsert(s: Space, v: nat, pa: nat, n: nat, low: nat, m: nat)
    requires SpaceOk(s) && LowOk(low) && CanInserts(s, v, pa, n, low) && m < n
    ensures CanInserts(s, v, pa, m, low) && CanInserts(s, v, pa, m + 1, low)
    ensures var t := Inserts(s, v, pa, m, low);
            && CanOpen(t, Ipd(v + m))
            && var o := Opened(t, Ipd(v + m), low);
            && SpaceOk(o) && Slot(o.dir, Ipd(v + m)) != 0
            && Slot(o.dir, Ipd(v + m)) in o.tables && |o.tables[Slot(o.dir, Ipd(v + m))]| == NPTE
            && Inserts(s, v, pa, m + 1, low) == Put(o, Ipd(v + m), Ipt(v + m), Or(pa + PAGE * m, low))
  {
    CanInsertsPrefix(s, v, pa, n, low, m);
    CanInsertsPrefix(s, v, pa, n, low, m + 1);
    var t := Inserts(s, v, pa, m, low);
    OpenedOk(t, Ipd(v + m), low);
    PutOk(Opened(t, Ipd(v + m), low), Ipd(v + m), Ipt(v + m), Or(pa + PAGE * m, low));
  }

  lemma InsertUses(s: Space, v: nat, pa: nat, low: nat)
    requires SpaceOk(s) && v < PAGES && LowOk(low) && Ipd(v) < |s.dir| && (Slot(s.dir, Ipd(v)) != 0 || s.free != [])
    ensures CanInsert(s, v) && Slot(Insert(s, v, pa, low).dir, Ipd(v)) != 0
    ensures |Insert(s, v, pa, low).free| == if Slot(s.dir, Ipd(v)) != 0 then |s.free| else |s.free| - 1
  {
    InsertedSlot(s, v, pa, low);
  }

  lemma NextIpd(v: nat, n: nat)
    requires n > 0 && v + n <= PAGES
    ensures Ipd(v) <= Ipd(v + (n - 1)) < NPTE
    ensures n > 1 ==> Ipd(v + (n - 2)) <= Ipd(v + (n - 1)) <= Ipd(v + (n - 2)) + 1
  {
  }

  lemma DirSize(s: Space)
    requires SpaceOk(s)
    ensures |s.dir| == NPTE
  {
  }

  /** A free page for every directory slot of the range is enough. */
  lemma {:induction false} EnoughPages(s: Space, v: nat, pa: nat, n: nat, low: nat)
    requires SpaceOk(s) && LowOk(low) && n > 0 && v + n <= PAGES
    requires |s.free| >= Ipd(v + (n - 1)) - Ipd(v) + 1
    ensures CanInserts(s, v, pa, n, low)
    ensures |Inserts(s, v, pa, n, low).free| + (Ipd(v + (n - 1)) - Ipd(v) + 1) >= |s.free|
    ensures Ipd(v + (n - 1)) < |Inserts(s, v, pa, n, low).dir|
            && Slot(Inserts(s, v, pa, n, low).dir, Ipd(v + (n - 1))) != 0
    decreases n
  {
    hide SpaceOk, Insert, Opened, Ipd, Slot, CanInsert;
    NextIpd(v, n);
    if n > 1 {
      EnoughPages(s, v, pa, n - 1, low);
    }
    var t := Inserts(s, v, pa, n - 1, low);
    DirSize(t);
    InsertUses(t, v + (n - 1), pa + PAGE * (n - 1), low);
    DirSize(Inserts(s, v, pa, n, low));
  }

  /** After m of n inserts and with the table of the next page in place. */
  ghost predicate Midway(s: Space, v: nat, pa: nat, n: nat, low: nat, m: nat, now: Space)
    requires SpaceOk(s) && LowOk(low)
  {
    hide SpaceOk, Opened, Insert, CanInsert, Or;
    && CanInserts(s, v, pa, n, low) && CanInserts(s, v, pa, m, low)
    && CanOpen(Inserts(s, v, pa, m, low), Ipd(v + m))
    && now == Opened(Inserts(s, v, pa, m, low), Ipd(v + m), low)
  }

  class HatDesc {
    const db: PageDb
    var dir: seq<nat>
    var tables: map<nat, seq<nat>>
    var pageCount: nat

    ghost function Sp(): Space
      reads this, db
    {
      Space(dir, tables, db.free, pageCount)
    }

    ghost predicate Valid()
      reads this, db
    {
      db.Valid() && SpaceOk(Sp())
    }

    /** A directory without tables. */
    constructor (db: PageDb)
      requires db.Valid()
      ensures Valid() && this.db == db && Sp() == Space(Zeros(), map[], db.free, 1)
    {
      this.db := db;
      dir, tables, pageCount := Zeros(), map[], 1;
    }

    /** The table of a directory slot, made if there is none. */
    method Open(ipd: nat, low: nat) returns (ptab: nat)
      requires Valid() && CanOpen(Sp(), ipd) && LowOk(low)
      modifies this, db
      ensures Valid() && Sp() == Opened(old(Sp()), ipd, low)
      ensures ptab == Slot(dir, ipd) && ptab in tables && |tables[ptab]| == NPTE
    {
      hide List;
      OpenedOk(Sp(), ipd, low);
      ptab := PteAddr(dir[ipd]);
      assert SlotOk(Sp(), ipd);
      if ptab == 0 {
        ptab := db.AllocPage();
        tables := tables[ptab := Zeros()];
        dir := dir[ipd := Or(ptab, low)];
        pageCount := pageCount + 1;
      }
    }

    method HatInsert(v: nat, pa: nat, low: nat)
      requires Valid() && CanInsert(Sp(), v) && LowOk(low)
      modifies this, db
      ensures Valid() && Sp() == Insert(old(Sp()), v, pa, low)
    {
      hide SpaceOk, Opened, List;
      ghost var s := Sp();
      OpenedOk(s, Ipd(v), low);
      PutOk(Opened(s, Ipd(v), low), Ipd(v), Ipt(v), Or(pa, low));
      var ptab := Open(v / NPTE, low);
      var pt: seq<nat> := tables[ptab][v % NPTE := Or(pa, low)];
      tables := tables[ptab := pt];
    }

    /** The inner loop of hat_map: c entries of one table, after m of the n pages. */
    method FillTable(ptab: nat, ipt: nat, c: nat, addr0: nat, low: nat,
                     ghost s: Space, ghost v: nat, ghost pa: nat, ghost n: nat, ghost m: nat)
      requires SpaceOk(s) && LowOk(low) && m + c <= n && c > 0 && Midway(s, v, pa, n, low, m, Sp())
      requires ipt == Ipt(v + m) && ipt + c <= NPTE && addr0 == pa + PAGE * m
      requires |dir| == NPTE && Ipd(v + m) < NPTE && ptab == Slot(dir, Ipd(v + m)) && Valid()
      modifies this`tables
      ensures CanInserts(s, v, pa, m + c, low) && Sp() == Inserts(s, v, pa, m + c, low) && Valid()
    {
      hide SpaceOk, Opened, Insert, Inserts, CanInserts, CanInsert, CanOpen, Or, OrBits, List;
      var k, addr := 0, addr0;
      while k < c
        invariant k <= c && addr == pa + PAGE * (m + k) && db.Valid() && dir == old(dir)
        invariant CanInserts(s, v, pa, m + k, low)
        invariant Ipd(v + (m + k)) == Ipd(v + m) || k == c
        invariant k < c ==> Midway(s, v, pa, n, low, m + k, Sp())
        invariant k == c ==> Sp() == Inserts(s, v, pa, m + c, low) && SpaceOk(Sp())
      {
        NextInsert(s, v, pa, n, low, m + k);
        var pt: seq<nat> := tables[ptab][ipt + k := Or(addr, low)];
        tables := tables[ptab := pt];
        addr := addr + PAGE;
        k := k + 1;
        if k < c { OpenOnce(s, v, pa, n, low, m + k); }
      }
    }

    /** hat_map: for at least one page, just what that many hat_inserts do; for none, only a table. */
    method HatMap(v: nat, pa: nat, n: nat, low: nat)
      requires Valid() && LowOk(low) && CanInserts(Sp(), v, pa, n, low) && (n == 0 ==> CanOpen(Sp(), Ipd(v)))
      modifies this, db
      ensures Valid() && Sp() == if n == 0 then Opened(old(Sp()), Ipd(v), low) else Inserts(old(Sp()), v, pa, n, low)
    {
      hide SpaceOk, Opened, Insert, CanInserts, Or, OrBits, List;
      ghost var s, m := Sp(), 0;
      var ipd, ipt, npg, addr := v / NPTE, v % NPTE, n, pa;
      CanInsertsPrefix(s, v, pa, n, low, 0);
      while true
        invariant Valid() && m + npg == n && addr == pa + PAGE * m && (m > 0 ==> npg > 0)
        invariant CanInserts(s, v, pa, m, low) && Sp() == Inserts(s, v, pa, m, low)
        invariant ipd == Ipd(v + m) && ipt == Ipt(v + m)
        decreases npg
      {
        if npg > 0 { CanInsertsPrefix(s, v, pa, n, low, m); }
        var ptab := Open(ipd, low);
        var c := NPTE - ipt;
        if c > npg {
          c := npg;
        }
        npg := npg - c;
        if c == 0 {
          break;
        }
        DirSize(Sp());
        FillTable(ptab, ipt, c, addr, low, s, v, pa, n, m);
        addr := addr + PAGE * c;
        m := m + c;
        if npg <= 0 {
          break;
        }
        ipd := ipd + 1;
        ipt := 0;
      }
    }

    method HatGetPfn(v: nat) returns (pa: int)
      requires Valid() && v < PAGES
      ensures pa == GetPfn(Sp(), v)
    {
      assert SlotOk(Sp(), Ipd(v));
      var pt := PteAddr(dir[v / NPTE]);
      if pt != 0 {
        return PteAddr(tables[pt][v % NPTE]);
      }
      return -1;
    }
  }
}
