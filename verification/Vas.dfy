/** Virtual address spaces: the sorted ring of regions and the last-region hint (src/kernel/vm/vas.c). */
module Regions {
  import opened Common

  const PAGESZ: nat := 4096
  const WRAP: nat := 0x1_0000_0000

  datatype Region = Region(start: nat, size: nat, cache: nat, offset: nat)

  function End(r: Region): nat { r.start + r.size }

  predicate Has(r: Region, va: nat) { r.start <= va < End(r) }

  function PageRound(x: nat): nat { (x + (PAGESZ - 1)) / PAGESZ * PAGESZ }

  /** The whole pages of two regions have nothing in common. */
  predicate PagesApart(a: Region, b: Region) { PageRound(End(a)) <= b.start || PageRound(End(b)) <= a.start }

  predicate RegionOk(r: Region) { r.start % PAGESZ == 0 && r.size > 0 && End(r) < WRAP }

  predicate Before(a: Region, b: Region) { End(a) <= b.start }

  /** In order of address, none reaching into the next. */
  ghost predicate Sorted(rs: seq<Region>) {
    && (forall k :: 0 <= k < |rs| ==> RegionOk(rs[k]))
    && (forall i, j :: 0 <= i < j < |rs| ==> Before(rs[i], rs[j]))
  }

  lemma RoundsUnder(x: nat, y: nat)
    requires y % PAGESZ == 0 && x <= y
    ensures PageRound(x) <= y
  {
  }

  lemma SortedApart(rs: seq<Region>, i: nat, j: nat)
    requires Sorted(rs) && i < |rs| && j < |rs| && i != j
    ensures PagesApart(rs[i], rs[j])
  {
    if i < j {
      assert Before(rs[i], rs[j]);
      RoundsUnder(End(rs[i]), rs[j].start);
    } else {
      assert Before(rs[j], rs[i]);
      RoundsUnder(End(rs[j]), rs[i].start);
    }
  }

  /** No region of rs overlaps the range. */
  ghost predicate Clear(rs: seq<Region>, start: nat, end: nat) {
    forall k :: 0 <= k < |rs| ==> end <= rs[k].start || End(rs[k]) <= start
  }

  /** k is the place of the first region above start. */
  ghost predicate FirstAbove(rs: seq<Region>, start: nat, k: nat) {
    && k <= |rs| && (k < |rs| ==> rs[k].start > start)
    && forall i :: 0 <= i < k ==> rs[i].start <= start
  }

  lemma SamePlace(rs: seq<Region>, start: nat, k: nat)
    requires FirstAbove(rs, start, k)
    ensures PlaceOf(rs, start) == k
  {
    assert FirstAbove(rs, start, PlaceOf(rs, start));
  }

  /** The tests region_create makes around place k; the ring makes the last region the predecessor of
      the first. */
  predicate Fits(rs: seq<Region>, start: nat, end: nat, k: nat)
    requires k <= |rs|
  {
    if rs == [] then true
    else if k == |rs| then End(rs[k - 1]) <= start
    else end <= rs[k].start && (|rs| == 1 || End(rs[if k == 0 then |rs| - 1 else k - 1]) <= start)
  }

  /** They accept exactly the ranges clear of every region, but none in front of two or more. */
  lemma FitsExactly(rs: seq<Region>, start: nat, end: nat, k: nat)
    requires Sorted(rs) && start < end && FirstAbove(rs, start, k)
    ensures Fits(rs, start, end, k) <==> Clear(rs, start, end) && !(|rs| >= 2 && start < rs[0].start)
  {
    assert |rs| >= 2 ==> Before(rs[0], rs[|rs| - 1]);
    if Fits(rs, start, end, k) {
      forall i | 0 <= i < |rs| ensures end <= rs[i].start || End(rs[i]) <= start {
        if i < k - 1 { assert Before(rs[i], rs[k - 1]); }
        if k < i { assert Before(rs[k], rs[i]); }
      }
    }
  }

  function Placed(rs: seq<Region>, k: nat, r: Region): seq<Region>
    requires k <= |rs|
  {
    rs[..k] + [r] + rs[k..]
  }

  lemma PlacedSorted(rs: seq<Region>, k: nat, r: Region)
    requires Sorted(rs) && RegionOk(r) && FirstAbove(rs, r.start, k) && Clear(rs, r.start, End(r))
    ensures Sorted(Placed(rs, k, r))
  {
    var s := Placed(rs, k, r);
    forall i, j | 0 <= i < j < |s| ensures Before(s[i], s[j]) {
      var a, b := if i < k then i else i - 1, if j < k then j else j - 1;
      if i != k && j != k { assert Before(rs[a], rs[b]); }
      if j == k { assert RegionOk(rs[i]); }
      if i == k && k < j - 1 { assert Before(rs[k], rs[j - 1]); }
    }
  }

  // ----- finding the region of an address

  /** The place of the first region that has va, |rs| if none. */
  function Scan(rs: seq<Region>, va: nat): (k: nat)
    ensures k <= |rs| && (k < |rs| ==> Has(rs[k], va)) && forall i :: 0 <= i < k ==> !Has(rs[i], va)
  {
    if rs == [] || Has(rs[0], va) then 0 else
      var k := Scan(rs[1..], va);
      assert forall i :: 0 < i < |rs| ==> rs[i] == rs[1..][i - 1];
      k + 1
  }

  /** No two regions have an address in common, so whichever has it is the one the scan finds. */
  lemma HintIsScan(rs: seq<Region>, va: nat, k: nat)
    requires Sorted(rs) && k < |rs| && Has(rs[k], va)
    ensures Scan(rs, va) == k
  {
    assert forall j :: 0 <= j < k ==> Before(rs[j], rs[k]);
  }

  // ----- runs of region_create

  datatype Request = Request(start: nat, size: nat, cache: nat, offset: nat)

  predicate RequestOk(r: Request) { r.size > 0 && r.start + r.size < WRAP }

  function Asked(r: Request): Region {
    var first := r.start - r.start % PAGESZ;
    Region(first, r.start + r.size - first, r.cache, r.offset)
  }

  function PlaceOf(rs: seq<Region>, start: nat): (k: nat)
    ensures FirstAbove(rs, start, k)
  {
    if rs == [] || rs[0].start > start then 0 else
      var k := PlaceOf(rs[1..], start);
      assert forall i :: 0 < i < |rs| ==> rs[i] == rs[1..][i - 1];
      k + 1
  }

  /** The regions after a request: with it if it fits, else as they were. */
  function Created(rs: seq<Region>, r: Request): seq<Region> {
    var (n, k) := (Asked(r), PlaceOf(rs, Asked(r).start));
    if Fits(rs, n.start, End(n), k) then Placed(rs, k, n) else rs
  }

  function AllCreated(requests: seq<Request>): seq<Region> {
    if requests == [] then []
    else Created(AllCreated(requests[..|requests| - 1]), requests[|requests| - 1])
  }

  lemma CreatedSorted(rs: seq<Region>, r: Request)
    requires Sorted(rs) && RequestOk(r)
    ensures Sorted(Created(rs, r)) && RegionOk(Asked(r))
  {
    var n, k := Asked(r), PlaceOf(rs, Asked(r).start);
    assert (r.start - r.start % PAGESZ) % PAGESZ == 0;
    FitsExactly(rs, n.start, End(n), k);
    if Fits(rs, n.start, End(n), k) {
      PlacedSorted(rs, k, n);
    }
  }

  /** The region made for a request begins on the page of its start, ends where it ends, and has all of it. */
  lemma AskedIsRange(r: Request)
    requires RequestOk(r)
    ensures var n := Asked(r);
            && n.start % PAGESZ == 0 && n.start <= r.start < n.start + PAGESZ
            && End(n) == r.start + r.size && n.cache == r.cache && n.offset == r.offset
            && forall va :: r.start <= va < r.start + r.size ==> Has(n, va)
  {
  }

  /** No region reaches beyond r.start's page from below, or lies before the end of the request from above. */
  ghost predicate Free(rs: seq<Region>, r: Request) {
    forall k :: 0 <= k < |rs| ==> r.start + r.size <= rs[k].start || PageRound(End(rs[k])) <= r.start
  }

  /** region_create accepts a request exactly if its pages are free, but none in front of two regions or more. */
  predicate Accepts(rs: seq<Region>, r: Request) {
    var n := Asked(r);
    Fits(rs, n.start, End(n), PlaceOf(rs, n.start))
  }

  lemma AcceptsFree(rs: seq<Region>, r: Request)
    requires Sorted(rs) && RequestOk(r)
    ensures Accepts(rs, r) <==> Free(rs, r) && !(|rs| >= 2 && r.start < rs[0].start)
  {
    var n := Asked(r);
    AskedIsRange(r);
    FitsExactly(rs, n.start, End(n), PlaceOf(rs, n.start));
    forall k | 0 <= k < |rs| ensures End(rs[k]) <= n.start <==> PageRound(End(rs[k])) <= r.start {
      RoundedBelow(End(rs[k]), r.start);
    }
    if |rs| >= 2 {
      assert RegionOk(rs[0]);
      FloorBelow(r.start, rs[0].start);
    }
  }

  lemma RoundedBelow(x: nat, y: nat)
    ensures x <= y - y % PAGESZ <==> PageRound(x) <= y
  {
  }

  lemma FloorBelow(x: nat, y: nat)
    requires y % PAGESZ == 0
    ensures x - x % PAGESZ < y <==> x < y
  {
  }

  /** The region that has an address, or none. */
  function At(rs: seq<Region>, va: nat): (r: Option<Region>)
    ensures r == None <==> forall k :: 0 <= k < |rs| ==> !Has(rs[k], va)
    ensures r != None ==> r.value in rs && Has(r.value, va)
  {
    if Scan(rs, va) < |rs| then Some(rs[Scan(rs, va)]) else None
  }

  /** An accepted request has its addresses in its region, and they were in none. */
  lemma CreatedHas(rs: seq<Region>, r: Request, va: nat)
    requires Sorted(rs) && RequestOk(r) && Accepts(rs, r) && r.start <= va < r.start + r.size
    ensures At(Created(rs, r), va) == Some(Asked(r)) && At(rs, va) == None
  {
    hide Sorted, Fits, PlaceOf, Scan;
    var (n, k) := (Asked(r), PlaceOf(rs, Asked(r).start));
    AskedIsRange(r);
    CreatedSorted(rs, r);
    assert Created(rs, r)[k] == n;
    HintIsScan(Created(rs, r), va, k);
    FitsExactly(rs, n.start, End(n), k);
  }

  /** Any address that was in a region still is. */
  lemma CreatedKeeps(rs: seq<Region>, r: Request, va: nat)
    requires Sorted(rs) && RequestOk(r) && At(rs, va) != None
    ensures At(Created(rs, r), va) == At(rs, va)
  {
    hide Sorted, Fits, PlaceOf, Scan, Asked;
    var (n, k, i) := (Asked(r), PlaceOf(rs, Asked(r).start), Scan(rs, va));
    CreatedSorted(rs, r);
    if Accepts(rs, r) {
      var j := if i < k then i else i + 1;
      assert Created(rs, r)[j] == rs[i];
      HintIsScan(Created(rs, r), va, j);
    }
  }

  lemma CreatedAt(rs: seq<Region>, r: Request, va: nat)
    requires Sorted(rs) && RequestOk(r)
    ensures Accepts(rs, r) && r.start <= va < r.start + r.size ==>
              At(Created(rs, r), va) == Some(Asked(r)) && At(rs, va) == None
    ensures At(rs, va) != None ==> At(Created(rs, r), va) == At(rs, va)
  {
    hide Sorted, Accepts, Created, At, Asked;
    if Accepts(rs, r) && r.start <= va < r.start + r.size { CreatedHas(rs, r, va); }
    if At(rs, va) != None { CreatedKeeps(rs, r, va); }
  }

  lemma {:induction false} AllCreatedSorted(requests: seq<Request>)
    requires forall r :: r in requests ==> RequestOk(r)
    ensures Sorted(AllCreated(requests))
  {
    if requests != [] {
      AllCreatedSorted(requests[..|requests| - 1]);
      CreatedSorted(AllCreated(requests[..|requests| - 1]), requests[|requests| - 1]);
    }
  }

  /** After any requests, each address of a request that was accepted is in the region made for it. */
  lemma {:induction false} AcceptedStays(requests: seq<Request>, i: nat, va: nat)
    requires (forall r :: r in requests ==> RequestOk(r)) && i < |requests|
    requires Accepts(AllCreated(requests[..i]), requests[i])
    requires requests[i].start <= va < requests[i].start + requests[i].size
    ensures var g := At(AllCreated(requests), va);
            && g != None && g.value.cache == requests[i].cache && g.value.offset == requests[i].offset
            && g.value.start <= requests[i].start && End(g.value) == requests[i].start + requests[i].size
    decreases |requests|
  {
    hide Created, Sorted, Accepts, At, Asked, RequestOk;
    var last := |requests| - 1;
    var before := requests[..last];
    AllCreatedSorted(before);
    CreatedAt(AllCreated(before), requests[last], va);
    if i < last {
      assert before[..i] == requests[..i];
      AcceptedStays(before, i, va);
    } else {
      AskedIsRange(requests[i]);
    }
  }

  /** After any requests the regions are disjoint even as whole pages. */
  lemma AllCreatedApart(requests: seq<Request>, i: nat, j: nat)
    requires forall r :: r in requests ==> RequestOk(r)
    requires i < |AllCreated(requests)| && j < |AllCreated(requests)| && i != j
    ensures PagesApart(AllCreated(requests)[i], AllCreated(requests)[j])
  {
    AllCreatedSorted(requests);
    SortedApart(AllCreated(requests), i, j);
  }
}

module Vas {
  import opened Common
  import opened Queue
  import opened Regions

  ghost predicate Known(region: map<nat, Region>, q: seq<nat>) {
    forall k :: 0 <= k < |q| ==> q[k] in region
  }

  function Of(region: map<nat, Region>, q: seq<nat>): (rs: seq<Region>)
    requires Known(region, q)
    ensures |rs| == |q| && forall k :: 0 <= k < |q| ==> rs[k] == region[q[k]]
  {
    seq(|q|, k requires 0 <= k < |q| => region[q[k]])
  }

  lemma PlacedOf(region: map<nat, Region>, q: seq<nat>, k: nat, e: nat, rg: Region)
    requires Known(region, q) && e !in q && k <= |q|
    ensures var (region', q') := (region[e := rg], q[..k] + [e] + q[k..]);
            Known(region', q') && Of(region', q') == Placed(Of(region, q), k, rg)
  {
  }

  class VasDesc {
    var rgList: Option<nat>
    var links: Links<nat>
    var region: map<nat, Region>
    var lastReg: Option<nat>
    ghost var q: seq<nat>

    ghost predicate Valid()
      reads this
    {
      && Ring(rgList, links, q) && Known(region, q) && Sorted(Of(region, q))
      && (lastReg == None || lastReg.value in q)
    }

    /** vas_alloc. */
    constructor ()
      ensures Valid() && q == []
    {
      rgList, links, region, lastReg, q := None, Links(map[], map[]), map[], None, [];
    }

    /** The do-while scan of region_create: where the first region above start is. */
    method FindAbove(start: nat) returns (found: bool, r: nat, ghost k: nat)
      requires Valid() && q != []
      ensures FirstAbove(Of(region, q), start, k) && found == (k < |q|) && (found ==> r == q[k])
    {
      ghost var rs := Of(region, q);
      k := 0;
      r := rgList.value;
      found := false;
      while true
        invariant k < |q| && r == q[k] && !found
        invariant forall i :: 0 <= i < k ==> rs[i].start <= start
        decreases |q| - k
      {
        assert rs[k] == region[r];
        if region[r].start > start {
          found := true;
          break;
        }
        assert Linked(links, q[k], q[After(k, |q|)]);
        r := links.next[r];
        k := k + 1;
        if r == rgList.value {
          break;
        }
      }
    }

    /** The search and the tests of region_create. */
    method Probe(start: nat, end: nat) returns (ok: bool, found: bool, r: nat, ghost k: nat)
      requires Valid()
      ensures FirstAbove(Of(region, q), start, k) && found == (k < |q|) && (found ==> r == q[k])
      ensures ok == Fits(Of(region, q), start, end, k)
    {
      hide Sorted;
      ghost var rs := Of(region, q);
      if rgList == None {
        return true, false, 0, 0;
      }
      found, r, k := FindAbove(start);
      ghost var pr := if k == 0 || k == |q| then |q| - 1 else k - 1;
      assert Linked(links, q[pr], q[After(pr, |q|)]) && rs[pr] == region[q[pr]];
      if found {
        if end > region[r].start {
          return false, found, r, k;
        }
        var before := links.prev[r];
        ok := before == r || End(region[before]) <= start;
      } else {
        ok := End(region[links.prev[rgList.value]]) <= start;
      }
    }

    /** The end of region_create. */
    method Insert(found: bool, r: nat, e: nat, rg: Region, ghost k: nat)
      requires Valid() && e !in q && RegionOk(rg) && Clear(Of(region, q), rg.start, End(rg))
      requires FirstAbove(Of(region, q), rg.start, k) && found == (k < |q|) && (found ==> r == q[k])
      modifies this
      ensures Valid() && lastReg == old(lastReg) && q == old(q)[..k] + [e] + old(q)[k..]
      ensures Of(region, q) == Placed(Of(old(region), old(q)), k, rg) && region == old(region)[e := rg]
    {
      hide Sorted, Clear, Linked;
      PlacedSorted(Of(region, q), k, rg);
      PlacedOf(region, q, k, e, rg);
      region := region[e := rg];
      if found {
        rgList, links := EnqueueBefore(rgList, links, r, e, q, k);
      } else {
        rgList, links := Enqueue(rgList, links, e, q);
        assert q[..k] == q && q[k..] == [];
        assert q[..k] + [e] + q[k..] == q + [e];
      }
      q := q[..k] + [e] + q[k..];
    }

    /** region_create for a non-empty range that does not wrap; slot is what alloc_pool gives. */
    method RegionCreate(r: Request, slot: Option<nat>) returns (rg: Option<nat>)
      requires Valid() && RequestOk(r) && (slot != None ==> slot.value !in q)
      modifies this
      ensures Valid() && lastReg == old(lastReg)
      ensures var rs := Of(old(region), old(q));
              rg == if Free(rs, r) && !(|rs| >= 2 && r.start < rs[0].start) then slot else None
      ensures rg != None ==>
                && rg.value in region
                && var g := region[rg.value];
                && g.start % PAGESZ == 0 && g.start <= r.start < g.start + PAGESZ
                && g.start + g.size == r.start + r.size && g.cache == r.cache && g.offset == r.offset
                && forall va :: r.start <= va < r.start + r.size ==> At(Of(region, q), va) == Some(g)
      ensures rg == None ==> q == old(q) && region == old(region) && rgList == old(rgList) && links == old(links)
      ensures rg != None ==>
                var k := PlaceOf(Of(old(region), old(q)), Asked(r).start);
                q == old(q)[..k] + [rg.value] + old(q)[k..]
      ensures slot != None ==> Of(region, q) == Created(Of(old(region), old(q)), r)
    {
      hide Ring, Clear, Fits, Sorted;
      CreatedSorted(Of(region, q), r);
      var n := Asked(r);
      var ok, found, at;
      ghost var k;
      ok, found, at, k := Probe(n.start, End(n));
      SamePlace(Of(region, q), n.start, k);
      FitsExactly(Of(region, q), n.start, End(n), k);
      AcceptsFree(Of(region, q), r);
      if !ok || slot == None {
        return None;
      }
      rg := slot;
      ghost var rs := Of(region, q);
      forall va | r.start <= va < r.start + r.size ensures At(Created(rs, r), va) == Some(n) { CreatedAt(rs, r, va); }
      AskedIsRange(r);
      Insert(found, at, slot.value, n, k);
    }

    /** The lookup of vas_pagefault: the hint first, then the whole ring. */
    method PageFault(va: nat) returns (found: Option<nat>)
      requires Valid()
      modifies this`lastReg
      ensures Valid()
      ensures var k := Scan(Of(region, q), va); found == if k < |q| then Some(q[k]) else None
      ensures found == None <==> At(Of(region, q), va) == None
      ensures found != None ==> found.value in region && At(Of(region, q), va) == Some(region[found.value])
      ensures lastReg == if found != None then found else old(lastReg)
    {
      ghost var rs := Of(region, q);
      if lastReg != None && region[lastReg.value].start <= va < End(region[lastReg.value]) {
        found := lastReg;
        ghost var k :| 0 <= k < |q| && q[k] == lastReg.value;
        HintIsScan(rs, va, k);
      } else {
        found := ScanRing(va);
      }
      if found != None {
        lastReg := found;
      }
    }

    method ScanRing(va: nat) returns (found: Option<nat>)
      requires Valid()
      ensures var k := Scan(Of(region, q), va); found == if k < |q| then Some(q[k]) else None
    {
      ghost var rs, k := Of(region, q), 0;
      found := None;
      if rgList == None {
        return;
      }
      var rg := rgList.value;
      while true
        invariant k < |q| && rg == q[k] && found == None
        invariant forall i :: 0 <= i < k ==> !Has(rs[i], va)
        decreases |q| - k
      {
        assert rs[k] == region[rg];
        if region[rg].start <= va < End(region[rg]) {
          found := Some(rg);
          break;
        }
        assert Linked(links, q[k], q[After(k, |q|)]);
        rg := links.next[rg];
        k := k + 1;
        if rg == rgList.value {
          break;
        }
      }
      assert found != None ==> Scan(rs, va) == k;
    }
  }
}
