/** In-place sorting of fixed-size records (src/libc/stdlib/qsort.c).

    The array is the caller's byte buffer: record k is the z bytes from Times(z, k) on.
    Record pointers of the source are record numbers here (pointer == base + number * z);
    the byte loops that swap and rotate records work on byte offsets. */
module RecordBuffer {
  import opened Digits

  type Byte = b: int | 0 <= b < 256
  type Rec = seq<Byte>

  // ----- the record view of the byte buffer

  function Slice(s: seq<Byte>, b: nat, z: nat): Rec
    requires b + z <= |s|
  {
    s[b..b + z]
  }

  function RecAt(s: seq<Byte>, z: nat, k: nat): Rec {
    if Times(z, k) + z <= |s| then Slice(s, Times(z, k), z) else []
  }

  function Recs(s: seq<Byte>, n: nat, z: nat): (r: seq<Rec>) {
    seq(n, k requires k >= 0 => RecAt(s, z, k))
  }

  lemma {:induction false} RecordsApart(i: nat, j: nat, z: nat)
    requires i < j
    ensures Times(z, i) + z <= Times(z, j)
  {
    if i < j - 1 {
      RecordsApart(i, j - 1, z);
    }
  }

  ghost predicate Swapped(s: seq<Byte>, s': seq<Byte>, p: nat, q: nat, t: nat)
    requires p + t <= |s| && q + t <= |s| && |s'| == |s|
  {
    && (forall b {:trigger s'[b]} :: p <= b < p + t ==> s'[b] == s[b - p + q])
    && (forall b {:trigger s'[b]} :: q <= b < q + t ==> s'[b] == s[b - q + p])
    && (forall b {:trigger s'[b]} :: 0 <= b < |s| && !(p <= b < p + t) && !(q <= b < q + t) ==> s'[b] == s[b])
  }

  function Exchange<T>(r: seq<T>, i: nat, j: nat): seq<T>
    requires i < |r| && j < |r|
  {
    r[i := r[j]][j := r[i]]
  }

  lemma SwappedSlices(s: seq<Byte>, s': seq<Byte>, z: nat, p: nat, q: nat)
    requires |s| == |s'| && p + z <= |s| && q + z <= |s| && Swapped(s, s', p, q, z)
    requires p + z <= q || q + z <= p
    ensures Slice(s', p, z) == Slice(s, q, z) && Slice(s', q, z) == Slice(s, p, z)
  {
  }

  lemma SwappedElsewhere(s: seq<Byte>, s': seq<Byte>, z: nat, p: nat, q: nat, b: nat)
    requires |s| == |s'| && p + z <= |s| && q + z <= |s| && Swapped(s, s', p, q, z)
    requires b + z <= |s| && (b + z <= p || p + z <= b) && (b + z <= q || q + z <= b)
    ensures Slice(s', b, z) == Slice(s, b, z)
  {
  }

  lemma RecordPlace(n: nat, z: nat, k: nat, i: nat)
    requires k < n && i < n
    ensures Times(z, k) + z <= Times(z, n)
    ensures k < i ==> Times(z, k) + z <= Times(z, i)
    ensures i < k ==> Times(z, i) + z <= Times(z, k)
  {
    RecordsApart(k, n, z);
    if k < i { RecordsApart(k, i, z); } else if i < k { RecordsApart(i, k, z); }
  }

  lemma SwappedRecordAt(s: seq<Byte>, s': seq<Byte>, n: nat, z: nat, i: nat, j: nat, k: nat)
    requires |s| == |s'| == Times(z, n) && i < n && j < n && k < n && k != i && k != j
    requires Times(z, i) + z <= |s| && Times(z, j) + z <= |s|
    requires Swapped(s, s', Times(z, i), Times(z, j), z)
    ensures Times(z, k) + z <= |s| && Slice(s', Times(z, k), z) == Slice(s, Times(z, k), z)
  {
    RecordPlace(n, z, k, i);
    RecordPlace(n, z, k, j);
    SwappedElsewhere(s, s', z, Times(z, i), Times(z, j), Times(z, k));
  }

  lemma SlicesExchangeRecords(s: seq<Byte>, s': seq<Byte>, n: nat, z: nat, i: nat, j: nat)
    requires |s| == |s'| && i < n && j < n && i != j
    requires forall k: nat :: k < n ==> Times(z, k) + z <= |s|
    requires forall k: nat :: k < n && k != i && k != j ==> Slice(s', Times(z, k), z) == Slice(s, Times(z, k), z)
    requires Slice(s', Times(z, i), z) == Slice(s, Times(z, j), z)
    requires Slice(s', Times(z, j), z) == Slice(s, Times(z, i), z)
    ensures Recs(s', n, z) == Exchange(Recs(s, n, z), i, j)
  {
    assert forall k: nat {:trigger RecAt(s', z, k)} :: k < n ==> RecAt(s', z, k) == Slice(s', Times(z, k), z);
    assert RecAt(s', z, i) == RecAt(s, z, j) && RecAt(s', z, j) == RecAt(s, z, i);
    assert forall k: nat {:trigger RecAt(s', z, k)} :: k < n && k != i && k != j ==> RecAt(s', z, k) == RecAt(s, z, k);
  }

  lemma SwappedBytesExchangeRecords(s: seq<Byte>, s': seq<Byte>, n: nat, z: nat, i: nat, j: nat)
    requires |s| == |s'| == Times(z, n) && i < n && j < n && i != j && z >= 1
    requires Times(z, i) + z <= |s| && Times(z, j) + z <= |s|
    requires Swapped(s, s', Times(z, i), Times(z, j), z)
    ensures Recs(s', n, z) == Exchange(Recs(s, n, z), i, j)
  {
    RecordPlace(n, z, i, j);
    SwappedSlices(s, s', z, Times(z, i), Times(z, j));
    forall k: nat | k < n ensures Times(z, k) + z <= |s| {
      RecordPlace(n, z, k, i);
    }
    forall k: nat | k < n && k != i && k != j
      ensures Slice(s', Times(z, k), z) == Slice(s, Times(z, k), z)
    {
      SwappedRecordAt(s, s', n, z, i, j, k);
    }
    SlicesExchangeRecords(s, s', n, z, i, j);
  }

  /** The byte-swapping loop, three times in the source. */
  lemma SwappedNext(s: seq<Byte>, t: seq<Byte>, p: nat, q: nat, k: nat)
    requires p + k < |s| == |t| && q + k < |s| && (p + k < q || q + k < p) && Swapped(s, t, p, q, k)
    ensures Swapped(s, t[p + k := t[q + k]][q + k := t[p + k]], p, q, k + 1)
  {
  }

  method SwapBytes(a: array<Byte>, i0: nat, j0: nat, z: nat)
    requires i0 + z <= a.Length && j0 + z <= a.Length && z >= 1
    requires i0 + z <= j0 || j0 + z <= i0
    modifies a
    ensures Swapped(old(a[..]), a[..], i0, j0, z)
  {
    assert Swapped(a[..], a[..], i0, j0, 0);
    hide Swapped;
    var i, j, ii := i0, j0, z;
    while ii > 0
      invariant 0 <= ii <= z
      invariant i == i0 + (z - ii) && j == j0 + (z - ii)
      invariant Swapped(old(a[..]), a[..], i0, j0, z - ii)
    {
      SwappedNext(old(a[..]), a[..], i0, j0, z - ii);
      ghost var t := a[..][i := a[j]][j := a[i]];
      var c := a[i];
      a[i] := a[j];
      i := i + 1;
      a[j] := c;
      j := j + 1;
      ii := ii - 1;
      assert a[..] == t;
    }
  }

  method SwapRecords(a: array<Byte>, n: nat, z: nat, i: nat, j: nat)
    requires a.Length == Times(z, n) && z >= 1 && i < n && j < n && i != j
    modifies a
    ensures Recs(a[..], n, z) == Exchange(old(Recs(a[..], n, z)), i, j)
  {
    RecordsApart(i, n, z);
    RecordsApart(j, n, z);
    if i < j { RecordsApart(i, j, z); } else { RecordsApart(j, i, z); }
    SwapBytes(a, Times(z, i), Times(z, j), z);
    SwappedBytesExchangeRecords(old(a[..]), a[..], n, z, i, j);
  }

  // ----- rotating a record into an earlier place, byte column by byte column

  /** Byte c of record k. */
  function At(s: seq<Byte>, z: nat, k: nat, c: nat): Byte {
    if Times(z, k) + c < |s| then s[Times(z, k) + c] else 0
  }

  lemma WriteAt(s: seq<Byte>, n: nat, z: nat, k0: nat, c0: nat, v: Byte, k: nat, c: nat)
    requires |s| == Times(z, n) && k0 < n && c0 < z && k < n && c < z && Times(z, k0) + c0 < |s|
    ensures At(s[Times(z, k0) + c0 := v], z, k, c) == if k == k0 && c == c0 then v else At(s, z, k, c)
  {
    RecordPlace(n, z, k, k0);
  }

  lemma RecordsFromBytes(s: seq<Byte>, n: nat, z: nat, k: nat, x: Rec)
    requires |s| == Times(z, n) && k < n && |x| == z
    requires forall c: nat | c < z :: At(s, z, k, c) == x[c]
    ensures RecAt(s, z, k) == x
  {
    RecordsApart(k, n, z);
    forall c: nat | c < z ensures RecAt(s, z, k)[c] == x[c] {
      assert At(s, z, k, c) == x[c];
    }
  }

  /** Byte c of record k once column c of the records hi..min has been rotated by one place. */
  function Rotated(s: seq<Byte>, z: nat, hi: nat, min: nat, k: nat, c: nat): Byte {
    if k == hi then At(s, z, min, c) else if hi < k <= min then At(s, z, k - 1, c) else At(s, z, k, c)
  }

  /** Column t is shifted up by one record over the records row + 1..min; nothing else has changed. */
  ghost predicate Shifted(s0: seq<Byte>, s: seq<Byte>, n: nat, z: nat, row: nat, min: nat, t: nat) {
    && |s| == |s0| == Times(z, n)
    && forall k: nat, c: nat {:trigger At(s, z, k, c)} :: k < n && c < z ==>
         At(s, z, k, c) == if c == t && row < k <= min then At(s0, z, k - 1, c) else At(s0, z, k, c)
  }

  lemma ShiftStep(s0: seq<Byte>, s: seq<Byte>, s': seq<Byte>, n: nat, z: nat, row: nat, min: nat, t: nat)
    requires Shifted(s0, s, n, z, row, min, t) && 0 < row <= min < n && t < z
    requires Times(z, row) + t < |s| && Times(z, row - 1) + t < |s|
    requires s' == s[Times(z, row) + t := s[Times(z, row - 1) + t]]
    ensures Shifted(s0, s', n, z, row - 1, min, t)
  {
    var v := s[Times(z, row - 1) + t];
    assert v == At(s, z, row - 1, t) == At(s0, z, row - 1, t);
    forall k: nat, c: nat {:trigger At(s', z, k, c)} | k < n && c < z
      ensures At(s', z, k, c) == if c == t && row - 1 < k <= min then At(s0, z, k - 1, c) else At(s0, z, k, c)
    {
      WriteAt(s, n, z, row, t, v, k, c);
    }
  }

  ghost predicate ColumnRotated(s0: seq<Byte>, s: seq<Byte>, n: nat, z: nat, hi: nat, min: nat, t: nat) {
    && |s| == |s0| == Times(z, n)
    && forall k: nat, c: nat {:trigger At(s, z, k, c)} :: k < n && c < z ==>
         At(s, z, k, c) == if c == t then Rotated(s0, z, hi, min, k, c) else At(s0, z, k, c)
  }

  lemma ShiftEndAt(s0: seq<Byte>, s: seq<Byte>, n: nat, z: nat, hi: nat, min: nat, t: nat, v: Byte, k: nat, c: nat)
    requires |s| == Times(z, n) && hi <= min < n && t < z && k < n && c < z && Times(z, hi) + t < |s|
    requires At(s, z, k, c) == if c == t && hi < k <= min then At(s0, z, k - 1, c) else At(s0, z, k, c)
    requires v == At(s0, z, min, t)
    ensures At(s[Times(z, hi) + t := v], z, k, c) == if c == t then Rotated(s0, z, hi, min, k, c) else At(s0, z, k, c)
  {
    WriteAt(s, n, z, hi, t, v, k, c);
    hide At, Times;
  }

  lemma ShiftEnd(s0: seq<Byte>, s: seq<Byte>, s': seq<Byte>, n: nat, z: nat, hi: nat, min: nat, t: nat)
    requires Shifted(s0, s, n, z, hi, min, t) && hi <= min < n && t < z
    requires Times(z, hi) + t < |s| && Times(z, min) + t < |s|
    requires s' == s[Times(z, hi) + t := s0[Times(z, min) + t]]
    ensures ColumnRotated(s0, s', n, z, hi, min, t)
  {
    var v := s0[Times(z, min) + t];
    assert v == At(s0, z, min, t);
    hide At, Times, Rotated;
    forall k: nat, c: nat {:trigger At(s', z, k, c)} | k < n && c < z
      ensures At(s', z, k, c) == if c == t then Rotated(s0, z, hi, min, k, c) else At(s0, z, k, c)
    {
      ShiftEndAt(s0, s, n, z, hi, min, t, v, k, c);
    }
  }

  /** The inner loop: moves one byte column up by one record, from min down to hi. */
  method RotateColumn(a: array<Byte>, n: nat, z: nat, hi: nat, min: nat, t: nat)
    requires a.Length == Times(z, n) && t < z && hi <= min < n
    modifies a
    ensures ColumnRotated(old(a[..]), a[..], n, z, hi, min, t)
  {
    ghost var s0, s := a[..], a[..];
    RecordPlace(n, z, min, hi);
    var i := Times(z, min) + t;
    var c := a[i];
    var j: int := i - z;
    ghost var row: nat := min;
    while j >= Times(z, hi)
      invariant hi <= row <= min && i == Times(z, row) + t && j == i - z
      invariant s == a[..] && Shifted(s0, s, n, z, row, min, t)
      decreases row
    {
      RecordPlace(n, z, row, hi);
      RecordPlace(n, z, row - 1, hi);
      a[i] := a[j];
      ShiftStep(s0, s, a[..], n, z, row, min, t);
      s := a[..];
      i := j;
      row := row - 1;
      j := j - z;
    }
    RecordPlace(n, z, row, hi);
    a[i] := c;
    ShiftEnd(s0, s, a[..], n, z, hi, min, t);
  }

  lemma RotatedRecord(s0: seq<Byte>, s: seq<Byte>, n: nat, z: nat, hi: nat, min: nat, k: nat)
    requires |s| == |s0| == Times(z, n) && hi <= min < n && k < n
    requires forall k: nat, c: nat {:trigger At(s, z, k, c)} :: k < n && c < z ==>
               At(s, z, k, c) == Rotated(s0, z, hi, min, k, c)
    ensures RecAt(s, z, k) == RecAt(s0, z, if k == hi then min else if hi < k <= min then k - 1 else k)
  {
    var src: nat := if k == hi then min else if hi < k <= min then k - 1 else k;
    RecordPlace(n, z, src, k);
    forall c: nat | c < z ensures At(s, z, k, c) == RecAt(s0, z, src)[c] {
      assert At(s, z, k, c) == Rotated(s0, z, hi, min, k, c) == At(s0, z, src, c);
    }
    RecordsFromBytes(s, n, z, k, RecAt(s0, z, src));
  }

  lemma RotatedRecords(s0: seq<Byte>, s: seq<Byte>, n: nat, z: nat, hi: nat, min: nat)
    requires |s| == |s0| == Times(z, n) && hi <= min < n
    requires forall k: nat, c: nat {:trigger At(s, z, k, c)} :: k < n && c < z ==>
               At(s, z, k, c) == Rotated(s0, z, hi, min, k, c)
    ensures Recs(s, n, z) == Inserted(Recs(s0, n, z), hi, min)
  {
    hide Times, At, Rotated, RecAt;
    forall k: nat | k < n ensures Recs(s, n, z)[k] == Inserted(Recs(s0, n, z), hi, min)[k] {
      RotatedRecord(s0, s, n, z, hi, min, k);
    }
  }

  /** Takes the record at min out and puts it back in front of the one at hi. */
  function Inserted<T>(r: seq<T>, hi: nat, min: nat): (r': seq<T>)
    requires hi <= min < |r|
    ensures |r'| == |r|
  {
    r[..hi] + [r[min]] + r[hi..min] + r[min + 1..]
  }

  /** The shift of a whole record, byte column by byte column from the last one down. */
  method InsertRecord(a: array<Byte>, n: nat, z: nat, hi: nat, min: nat)
    requires a.Length == Times(z, n) && hi <= min < n
    modifies a
    ensures Recs(a[..], n, z) == Inserted(old(Recs(a[..], n, z)), hi, min)
  {
    ghost var s0 := a[..];
    var t := z;
    while t > 0
      invariant 0 <= t <= z
      invariant forall k: nat, c: nat {:trigger At(a[..], z, k, c)} :: k < n && c < z ==>
                  At(a[..], z, k, c) == if c >= t then Rotated(s0, z, hi, min, k, c) else At(s0, z, k, c)
    {
      t := t - 1;
      ghost var s := a[..];
      RotateColumn(a, n, z, hi, min, t);
      forall k: nat, c: nat | k < n && c < z
        ensures At(a[..], z, k, c) == if c >= t then Rotated(s0, z, hi, min, k, c) else At(s0, z, k, c)
      {
        assert At(s, z, k, c) == At(s, z, k, c);
      }
    }
    RotatedRecords(s0, a[..], n, z, hi, min);
  }
}

module RecordOrder {
  import opened RecordBuffer

  type Cmp = (Rec, Rec) -> int

  const THRESH: nat := 4
  const MTHRESH: nat := 6

  /** What section 7.20.5.2 of ISO/IEC 9899:1999 asks of a comparison function. */
  ghost predicate TotalPreorder(cmp: Cmp) {
    Total(cmp) && Transitive(cmp)
  }

  ghost predicate Total(cmp: Cmp) {
    forall x, y :: cmp(x, y) <= 0 <==> cmp(y, x) >= 0
  }

  ghost predicate Transitive(cmp: Cmp) {
    forall x, y, z :: cmp(x, y) <= 0 && cmp(y, z) <= 0 ==> cmp(x, z) <= 0
  }

  ghost predicate Shuffled<T>(r: seq<T>, r': seq<T>, lo: nat, hi: nat)
    requires lo <= hi <= |r|
  {
    && |r'| == |r|
    && r'[..lo] == r[..lo]
    && r'[hi..] == r[hi..]
    && multiset(r'[lo..hi]) == multiset(r[lo..hi])
  }

  lemma ExchangeShuffles<T>(r: seq<T>, i: nat, j: nat, lo: nat, hi: nat)
    requires lo <= i < hi && lo <= j < hi && hi <= |r|
    ensures Shuffled(r, Exchange(r, i, j), lo, hi)
  {
    var w := r[lo..hi];
    assert Exchange(r, i, j)[lo..hi] == w[i - lo := w[j - lo]][j - lo := w[i - lo]];
  }

  lemma ShuffledWiden<T>(r: seq<T>, r': seq<T>, lo: nat, hi: nat, lo0: nat, hi0: nat)
    requires lo0 <= lo <= hi <= hi0 <= |r| && Shuffled(r, r', lo, hi)
    ensures Shuffled(r, r', lo0, hi0)
  {
    assert r'[..lo0] == r'[..lo][..lo0];
    assert r'[hi0..] == r'[hi..][hi0 - hi..];
    assert r[lo0..hi0] == r[..lo][lo0..] + r[lo..hi] + r[hi..][..hi0 - hi];
    assert r'[lo0..hi0] == r'[..lo][lo0..] + r'[lo..hi] + r'[hi..][..hi0 - hi];
  }

  lemma ShuffledMember<T>(r: seq<T>, r': seq<T>, lo: nat, hi: nat, q: nat) returns (q0: nat)
    requires lo <= q < hi <= |r| && Shuffled(r, r', lo, hi)
    ensures lo <= q0 < hi && r[q0] == r'[q]
  {
    assert r'[q] in multiset(r'[lo..hi]) by { assert r'[lo..hi][q - lo] == r'[q]; }
    assert r'[q] in r[lo..hi];
    var w :| 0 <= w < hi - lo && r[lo..hi][w] == r'[q];
    q0 := lo + w;
  }

  predicate Ordered(r: seq<Rec>, cmp: Cmp, p: nat, q: nat)
    requires p < |r| && q < |r|
  {
    cmp(r[p], r[q]) <= 0
  }

  /** No record is out of order with one three or more places before it. */
  ghost predicate NearSorted(r: seq<Rec>, cmp: Cmp, lo: nat, hi: nat)
    requires hi <= |r|
  {
    forall p: nat, q: nat :: lo <= p && p + (THRESH - 1) <= q < hi ==> Ordered(r, cmp, p, q)
  }

  /** Everything of lo..cut is at or below everything of cut..hi. */
  ghost predicate Cut(r: seq<Rec>, cmp: Cmp, lo: nat, cut: nat, hi: nat)
    requires hi <= |r|
  {
    forall p: nat, q: nat :: lo <= p < cut <= q < hi ==> Ordered(r, cmp, p, q)
  }
}

/** qst: quicksort down to partitions below THRESH. */
module QuickSort {
  import opened Digits
  import opened Common
  import opened RecordBuffer
  import opened RecordOrder

  ghost predicate IsMedian(cmp: Cmp, x: Rec, y: Rec, z: Rec) {
    || (cmp(x, y) <= 0 && cmp(y, z) <= 0)
    || (cmp(z, y) <= 0 && cmp(y, x) <= 0)
  }

  /** Puts the median of the first, middle and last record in the middle (MTHRESH records or more). */
  method MedianToMiddle(a: array<Byte>, n: nat, z: nat, cmp: Cmp, base: nat, max: nat, mid: nat)
    requires a.Length == Times(z, n) && z >= 1 && Total(cmp)
    requires base < mid < max - 1 && max <= n
    modifies a
    ensures exists j :: j in {base, mid, max - 1} && Recs(a[..], n, z) == Exchange(old(Recs(a[..], n, z)), mid, j)
    ensures var r := Recs(a[..], n, z); IsMedian(cmp, r[base], r[mid], r[max - 1])
  {
    ghost var r := Recs(a[..], n, z);
    var j := MedianOfThree(a[..], n, z, cmp, mid, base, max - 1);
    assert Exchange(r, mid, mid) == r;
    if j != mid {
      SwapRecords(a, n, z, mid, j);
    }
  }

  method MedianOfThree(s: seq<Byte>, n: nat, z: nat, cmp: Cmp, i: nat, jj: nat, tmp: nat) returns (j: nat)
    requires Total(cmp) && i < n && jj < n && tmp < n
    ensures j in {i, jj, tmp}
    ensures var r := Recs(s, n, z);
            var others := if j == i then (jj, tmp) else if j == jj then (i, tmp) else (jj, i);
            IsMedian(cmp, r[others.0], r[j], r[others.1])
  {
    var x, y, w := RecAt(s, z, jj), RecAt(s, z, i), RecAt(s, z, tmp);
    j := if cmp(x, y) > 0 then jj else i;
    if cmp(if j == jj then x else y, w) > 0 {
      j := if j == jj then i else jj;
      if cmp(if j == jj then x else y, w) < 0 {
        j := tmp;
      }
    }
  }

  /** Steps over the records that may stay before the pivot. */
  method ScanUp(s: seq<Byte>, n: nat, z: nat, cmp: Cmp, i0: nat, mid: nat) returns (i: nat)
    requires i0 <= mid < n
    ensures i0 <= i <= mid
    ensures var r := Recs(s, n, z);
            && (forall p :: i0 <= p < i ==> cmp(r[p], r[mid]) <= 0)
            && (i < mid ==> cmp(r[i], r[mid]) > 0)
  {
    i := i0;
    while i < mid && cmp(RecAt(s, z, i), RecAt(s, z, mid)) <= 0
      invariant i0 <= i <= mid
      invariant forall p :: i0 <= p < i ==> cmp(RecAt(s, z, p), RecAt(s, z, mid)) <= 0
    {
      i := i + 1;
    }
  }

  /** Steps down over the records that may stay behind the pivot. */
  method ScanDown(s: seq<Byte>, n: nat, z: nat, cmp: Cmp, j0: nat, mid: nat) returns (j: nat)
    requires mid <= j0 < n
    ensures mid <= j <= j0
    ensures var r := Recs(s, n, z);
            && (forall q :: j < q <= j0 ==> cmp(r[mid], r[q]) <= 0)
            && (j > mid ==> cmp(r[mid], r[j]) > 0)
  {
    j := j0;
    while j > mid && cmp(RecAt(s, z, mid), RecAt(s, z, j)) <= 0
      invariant mid <= j <= j0
      invariant forall q :: j < q <= j0 ==> cmp(RecAt(s, z, mid), RecAt(s, z, q)) <= 0
    {
      j := j - 1;
    }
  }

  /** Up to i nothing is above the pivot record, beyond j nothing below it. */
  ghost predicate Parting(r: seq<Rec>, cmp: Cmp, base: nat, i: nat, mid: nat, j: int, max: nat) {
    && base <= i <= mid <= j < max <= |r|
    && (forall p :: base <= p < i ==> cmp(r[p], r[mid]) <= 0)
    && (forall q :: j < q < max ==> cmp(r[mid], r[q]) <= 0)
  }

  /** One exchange of the partition loop, in its three forms. */
  lemma PartingStep(r: seq<Rec>, cmp: Cmp, base: nat, i: nat, mid: nat, j: nat, max: nat)
    requires Total(cmp) && Parting(r, cmp, base, i, mid, j, max)
    requires i < mid ==> cmp(r[i], r[mid]) > 0
    requires j > mid ==> cmp(r[mid], r[j]) > 0
    ensures i == mid < j ==> Parting(Exchange(r, i, j), cmp, base, i + 1, j, j, max)
    ensures i < mid < j ==> Parting(Exchange(r, i, j), cmp, base, i + 1, mid, j - 1, max)
    ensures i < mid == j ==> Parting(Exchange(r, i, mid), cmp, base, i, i, j - 1, max)
  {
  }

  /** The partition loop: the pivot starts at mid0 and moves with the exchanges. */
  method Partition(a: array<Byte>, n: nat, z: nat, cmp: Cmp, base: nat, max: nat, mid0: nat) returns (mid: nat)
    requires a.Length == Times(z, n) && z >= 1 && Total(cmp)
    requires base <= mid0 < max <= n
    modifies a
    ensures Shuffled(old(Recs(a[..], n, z)), Recs(a[..], n, z), base, max)
    ensures Parting(Recs(a[..], n, z), cmp, base, mid, mid, mid, max)
    ensures Recs(a[..], n, z)[mid] == old(Recs(a[..], n, z))[mid0]
  {
    ghost var r0 := Recs(a[..], n, z);
    ghost var r := r0;
    mid := mid0;
    var i: nat, j: nat := base, max - 1;
    while true
      invariant r == Recs(a[..], n, z)
      invariant Parting(r, cmp, base, i, mid, j, max)
      invariant Shuffled(r0, r, base, max) && r[mid] == r0[mid0]
      decreases j - i
    {
      i := ScanUp(a[..], n, z, cmp, i, mid);
      j := ScanDown(a[..], n, z, cmp, j, mid);
      PartingStep(r, cmp, base, i, mid, j, max);
      if j == mid && i == mid {
        break;
      }
      var from, jj, tmp := i, j, i + 1;
      if j > mid {
        if i == mid {
          mid := j;
        } else {
          j := j - 1;
        }
      } else {
        jj := mid;
        tmp, mid := i, i;
        j := j - 1;
      }
      ExchangeShuffles(r, from, jj, base, max);
      SwapRecords(a, n, z, from, jj);
      r := Exchange(r, from, jj);
      i := tmp;
    }
  }

  /** Rearranging a window keeps every cut that does not fall inside it. */
  lemma CutShuffled(r: seq<Rec>, r': seq<Rec>, cmp: Cmp, lo: nat, hi: nat, lo0: nat, cut: nat, hi0: nat)
    requires lo0 <= lo <= hi <= hi0 <= |r| && (cut <= lo || hi <= cut)
    requires Shuffled(r, r', lo, hi) && Cut(r, cmp, lo0, cut, hi0)
    ensures Cut(r', cmp, lo0, cut, hi0)
  {
    forall p: nat, q: nat | lo0 <= p < cut <= q < hi0 ensures Ordered(r', cmp, p, q) {
      var p0, q0 := p, q;
      if lo <= p < hi { p0 := ShuffledMember(r, r', lo, hi, p); } else { ShuffledOutside(r, r', lo, hi, p); }
      if lo <= q < hi { q0 := ShuffledMember(r, r', lo, hi, q); } else { ShuffledOutside(r, r', lo, hi, q); }
      assert Ordered(r, cmp, p0, q0);
    }
  }

  lemma ShuffledOutside<T>(r: seq<T>, r': seq<T>, lo: nat, hi: nat, p: nat)
    requires lo <= hi <= |r| && Shuffled(r, r', lo, hi) && p < |r| && !(lo <= p < hi)
    ensures r'[p] == r[p]
  {
    if p < lo {
      assert r'[p] == r'[..lo][p];
    } else {
      assert r'[p] == r'[hi..][p - hi];
    }
  }

  lemma NearSortedOutside(r: seq<Rec>, r': seq<Rec>, cmp: Cmp, lo: nat, hi: nat, lo0: nat, hi0: nat)
    requires lo <= hi <= |r| && Shuffled(r, r', lo, hi) && hi0 <= |r|
    requires (hi0 <= lo || hi <= lo0) && NearSorted(r, cmp, lo0, hi0)
    ensures NearSorted(r', cmp, lo0, hi0)
  {
    forall p: nat, q: nat | lo0 <= p && p + (THRESH - 1) <= q < hi0 ensures Ordered(r', cmp, p, q) {
      ShuffledOutside(r, r', lo, hi, p);
      ShuffledOutside(r, r', lo, hi, q);
      assert Ordered(r, cmp, p, q);
    }
  }

  lemma NearSortedJoin(r: seq<Rec>, cmp: Cmp, lo: nat, cut: nat, hi: nat)
    requires lo <= cut <= hi <= |r|
    requires NearSorted(r, cmp, lo, cut) && NearSorted(r, cmp, cut, hi) && Cut(r, cmp, lo, cut, hi)
    ensures NearSorted(r, cmp, lo, hi)
  {
  }

  /** What the repeat loop of qst keeps: only the window base..max is still unsorted. */
  ghost predicate Framed(r: seq<Rec>, cmp: Cmp, base0: nat, base: nat, max: nat, max0: nat)
  {
    && base0 <= base <= max <= max0 <= |r|
    && Cut(r, cmp, base0, base, max0) && Cut(r, cmp, base0, max, max0)
    && NearSorted(r, cmp, base0, base) && NearSorted(r, cmp, max, max0)
  }

  lemma FramedShuffled(r: seq<Rec>, r': seq<Rec>, cmp: Cmp, base0: nat, base: nat, max: nat, max0: nat)
    requires Framed(r, cmp, base0, base, max, max0) && Shuffled(r, r', base, max)
    ensures Framed(r', cmp, base0, base, max, max0)
  {
    CutShuffled(r, r', cmp, base, max, base0, base, max0);
    CutShuffled(r, r', cmp, base, max, base0, max, max0);
    NearSortedOutside(r, r', cmp, base, max, base0, base);
    NearSortedOutside(r, r', cmp, base, max, max, max0);
  }

  lemma PartingCuts(r: seq<Rec>, cmp: Cmp, base0: nat, base: nat, mid: nat, max: nat, max0: nat)
    requires Transitive(cmp) && Total(cmp)
    requires Framed(r, cmp, base0, base, max, max0) && Parting(r, cmp, base, mid, mid, mid, max)
    ensures Cut(r, cmp, base0, mid, max0) && Cut(r, cmp, base0, mid + 1, max0)
  {
    forall p: nat, q: nat | base0 <= p <= mid <= q < max0 && p < q ensures Ordered(r, cmp, p, q) {
      if base <= p && q < max {
        assert cmp(r[p], r[mid]) <= 0 && cmp(r[mid], r[q]) <= 0;
      }
    }
  }

  lemma FramedLeft(r: seq<Rec>, r': seq<Rec>, cmp: Cmp, base0: nat, base: nat, mid: nat, max: nat, max0: nat)
    requires Framed(r, cmp, base0, base, max, max0) && base <= mid < max
    requires Cut(r, cmp, base0, mid, max0) && Cut(r, cmp, base0, mid + 1, max0)
    requires Shuffled(r, r', base, mid) && NearSorted(r', cmp, base, mid)
    ensures Framed(r', cmp, base0, mid + 1, max, max0)
  {
    CutShuffled(r, r', cmp, base, mid, base0, base, max0);
    CutShuffled(r, r', cmp, base, mid, base0, mid, max0);
    CutShuffled(r, r', cmp, base, mid, base0, mid + 1, max0);
    CutShuffled(r, r', cmp, base, mid, base0, max, max0);
    NearSortedOutside(r, r', cmp, base, mid, base0, base);
    NearSortedOutside(r, r', cmp, base, mid, max, max0);
    NearSortedJoin(r', cmp, base0, base, mid);
    NearSortedJoin(r', cmp, base0, mid, mid + 1);
  }

  lemma FramedRight(r: seq<Rec>, r': seq<Rec>, cmp: Cmp, base0: nat, base: nat, mid: nat, max: nat, max0: nat)
    requires Framed(r, cmp, base0, base, max, max0) && base <= mid < max
    requires Cut(r, cmp, base0, mid, max0) && Cut(r, cmp, base0, mid + 1, max0)
    requires Shuffled(r, r', mid + 1, max) && NearSorted(r', cmp, mid + 1, max)
    ensures Framed(r', cmp, base0, base, mid, max0)
  {
    CutShuffled(r, r', cmp, mid + 1, max, base0, base, max0);
    CutShuffled(r, r', cmp, mid + 1, max, base0, mid, max0);
    CutShuffled(r, r', cmp, mid + 1, max, base0, mid + 1, max0);
    CutShuffled(r, r', cmp, mid + 1, max, base0, max, max0);
    NearSortedOutside(r, r', cmp, mid + 1, max, base0, base);
    NearSortedOutside(r, r', cmp, mid + 1, max, max, max0);
    NearSortedJoin(r', cmp, mid + 1, max, max0);
    NearSortedJoin(r', cmp, mid, mid + 1, max0);
  }

  method SplitWindow(a: array<Byte>, n: nat, z: nat, cmp: Cmp, base: nat, max: nat) returns (mid: nat)
    requires a.Length == Times(z, n) && z >= 1 && Total(cmp)
    requires base + THRESH <= max <= n
    modifies a
    ensures Shuffled(old(Recs(a[..], n, z)), Recs(a[..], n, z), base, max)
    ensures Parting(Recs(a[..], n, z), cmp, base, mid, mid, mid, max)
  {
    ghost var r := Recs(a[..], n, z);
    mid := base + (max - base) / 2;
    if max - base >= MTHRESH {
      MedianToMiddle(a, n, z, cmp, base, max, mid);
      ghost var j :| j in {base, mid, max - 1} && Recs(a[..], n, z) == Exchange(r, mid, j);
      ExchangeShuffles(r, mid, j, base, max);
    }
    mid := Partition(a, n, z, cmp, base, max, mid);
  }

  /** One split and the recursive call on the left (FramedLeft) or right part, seen from the whole window. */
  lemma StepLeft(r0: seq<Rec>, r: seq<Rec>, r1: seq<Rec>, r2: seq<Rec>, cmp: Cmp,
                 base0: nat, base: nat, mid: nat, max: nat, max0: nat)
    requires TotalPreorder(cmp) && Framed(r, cmp, base0, base, max, max0)
    requires |r0| == |r| && Shuffled(r0, r, base0, max0)
    requires Shuffled(r, r1, base, max) && Parting(r1, cmp, base, mid, mid, mid, max)
    requires Shuffled(r1, r2, base, mid) && NearSorted(r2, cmp, base, mid)
    ensures Framed(r2, cmp, base0, mid + 1, max, max0) && Shuffled(r0, r2, base0, max0)
  {
    FramedShuffled(r, r1, cmp, base0, base, max, max0);
    PartingCuts(r1, cmp, base0, base, mid, max, max0);
    FramedLeft(r1, r2, cmp, base0, base, mid, max, max0);
    ShuffledWiden(r, r1, base, max, base0, max0);
    ShuffledWiden(r1, r2, base, mid, base0, max0);
  }

  lemma StepRight(r0: seq<Rec>, r: seq<Rec>, r1: seq<Rec>, r2: seq<Rec>, cmp: Cmp,
                  base0: nat, base: nat, mid: nat, i: nat, max: nat, max0: nat)
    requires i == mid + 1
    requires TotalPreorder(cmp) && Framed(r, cmp, base0, base, max, max0)
    requires |r0| == |r| && Shuffled(r0, r, base0, max0)
    requires Shuffled(r, r1, base, max) && Parting(r1, cmp, base, mid, mid, mid, max)
    requires Shuffled(r1, r2, i, max) && NearSorted(r2, cmp, i, max)
    ensures Framed(r2, cmp, base0, base, mid, max0) && Shuffled(r0, r2, base0, max0)
  {
    FramedShuffled(r, r1, cmp, base0, base, max, max0);
    PartingCuts(r1, cmp, base0, base, mid, max, max0);
    FramedRight(r1, r2, cmp, base0, base, mid, max, max0);
    ShuffledWiden(r, r1, base, max, base0, max0);
    ShuffledWiden(r1, r2, mid + 1, max, base0, max0);
  }

  /** depth counts the nested calls below this one: at most log2 of the number of records. */
  method Qst(a: array<Byte>, n: nat, z: nat, cmp: Cmp, base0: nat, max0: nat) returns (ghost depth: nat)
    requires a.Length == Times(z, n) && z >= 1 && TotalPreorder(cmp)
    requires base0 + THRESH <= max0 <= n
    modifies a
    ensures Shuffled(old(Recs(a[..], n, z)), Recs(a[..], n, z), base0, max0)
    ensures NearSorted(Recs(a[..], n, z), cmp, base0, max0)
    ensures Pow2(depth) <= max0 - base0
    decreases max0 - base0, 1
  {
    ghost var r0 := Recs(a[..], n, z);
    ghost var r := r0;
    var base: nat, max: nat, lo := base0, max0, max0 - base0;
    depth := 0;
    while lo >= THRESH
      invariant r == Recs(a[..], n, z) && Framed(r, cmp, base0, base, max, max0) && lo == max - base
      invariant Shuffled(r0, r, base0, max0)
      invariant Pow2(depth) <= max0 - base0
    {
      var mid := SplitWindow(a, n, z, cmp, base, max);
      ghost var r1 := Recs(a[..], n, z);
      ghost var d;
      lo := mid - base;
      var i: nat := mid + 1;
      var hi := max - i;
      if lo <= hi {
        d := QstIfLarge(a, n, z, cmp, base, mid);
        StepLeft(r0, r, r1, Recs(a[..], n, z), cmp, base0, base, mid, max, max0);
        base, lo := i, hi;
      } else {
        d := QstIfLarge(a, n, z, cmp, i, max);
        StepRight(r0, r, r1, Recs(a[..], n, z), cmp, base0, base, mid, i, max, max0);
        max := mid;
      }
      r := Recs(a[..], n, z);
      depth := if depth < d then d else depth;
    }
    NearSortedJoin(r, cmp, base0, base, max);
    NearSortedJoin(r, cmp, base0, max, max0);
  }

  /** The recursive call, made only on a part of at least THRESH records. */
  method QstIfLarge(a: array<Byte>, n: nat, z: nat, cmp: Cmp, lo: nat, hi: nat) returns (ghost depth: nat)
    requires a.Length == Times(z, n) && z >= 1 && TotalPreorder(cmp)
    requires lo <= hi <= n
    modifies a
    ensures Shuffled(old(Recs(a[..], n, z)), Recs(a[..], n, z), lo, hi)
    ensures NearSorted(Recs(a[..], n, z), cmp, lo, hi)
    ensures Pow2(depth) <= 2 * (hi - lo) + 1
    decreases hi - lo, 2
  {
    depth := 0;
    if hi - lo >= THRESH {
      depth := Qst(a, n, z, cmp, lo, hi);
      depth := depth + 1;
    }
  }
}

/** qsort: quicksort, then a sentinel, then an insertion sort without a bounds check. */
module Qsort {
  import opened Digits
  import opened RecordBuffer
  import opened RecordOrder
  import QuickSort

  lemma ExchangeNearSorted(r: seq<Rec>, cmp: Cmp, j: nat, m: nat)
    requires TotalPreorder(cmp) && NearSorted(r, cmp, 0, |r|)
    requires j < m <= |r| && m <= THRESH && (m == |r| || m == THRESH)
    requires forall p: nat :: p < m ==> Ordered(r, cmp, j, p)
    ensures NearSorted(Exchange(r, 0, j), cmp, 0, |r|)
    ensures forall q: nat :: q < |r| ==> Ordered(Exchange(r, 0, j), cmp, 0, q)
  {
    var r' := Exchange(r, 0, j);
    assert Ordered(r, cmp, j, 0);
    forall q: nat | q < |r| ensures Ordered(r, cmp, j, q) {
      if m <= q {
        assert Ordered(r, cmp, 0, q);
        assert cmp(r[j], r[0]) <= 0 && cmp(r[0], r[q]) <= 0;
      }
    }
    forall q: nat | q < |r| ensures Ordered(r', cmp, 0, q) {
      assert Ordered(r, cmp, j, if q == j then 0 else if q == 0 then j else q);
    }
    forall p: nat, q: nat | p + (THRESH - 1) <= q < |r| ensures Ordered(r', cmp, p, q) {
      if p == j {
        assert Ordered(r, cmp, 0, q);
      } else if p > 0 {
        assert Ordered(r, cmp, p, q);
      }
    }
  }

  ghost predicate Sorted(r: seq<Rec>, cmp: Cmp, hi: nat)
    requires hi <= |r|
  {
    forall p: nat, q: nat :: p < q < hi ==> Ordered(r, cmp, p, q)
  }

  /** Record min may go in front of hi: not below its left neighbour, below everything it passes. */
  ghost predicate Slot(r: seq<Rec>, cmp: Cmp, hi: nat, min: nat) {
    && hi <= min < |r|
    && (hi > 0 ==> Ordered(r, cmp, hi - 1, min))
    && (forall p: nat :: hi <= p < min ==> !Ordered(r, cmp, p, min))
  }

  function Source(hi: nat, min: nat, p: nat): nat {
    if p == hi then min else if hi < p <= min then p - 1 else p
  }

  lemma InsertedAt(r: seq<Rec>, hi: nat, min: nat, p: nat)
    requires hi <= min < |r| && p < |r|
    ensures Inserted(r, hi, min)[p] == r[Source(hi, min, p)]
  {
  }

  lemma InsertedSorted(r: seq<Rec>, cmp: Cmp, hi: nat, min: nat)
    requires TotalPreorder(cmp) && Slot(r, cmp, hi, min) && Sorted(r, cmp, min)
    ensures Sorted(Inserted(r, hi, min), cmp, min + 1)
  {
    var r' := Inserted(r, hi, min);
    hide Inserted;
    forall p: nat, q: nat | p < q < min + 1 ensures Ordered(r', cmp, p, q) {
      InsertedAt(r, hi, min, p);
      InsertedAt(r, hi, min, q);
      if q == hi {
        if p < hi - 1 {
          assert Ordered(r, cmp, p, hi - 1);
        }
      } else if p == hi {
        assert !Ordered(r, cmp, q - 1, min);
      } else {
        assert Ordered(r, cmp, Source(hi, min, p), Source(hi, min, q));
      }
    }
  }

  lemma InsertedNearSorted(r: seq<Rec>, cmp: Cmp, hi: nat, min: nat)
    requires TotalPreorder(cmp) && Slot(r, cmp, hi, min) && NearSorted(r, cmp, 0, |r|)
    requires Sorted(Inserted(r, hi, min), cmp, min + 1)
    ensures NearSorted(Inserted(r, hi, min), cmp, 0, |r|)
  {
    var r' := Inserted(r, hi, min);
    hide Inserted;
    forall p: nat, q: nat | p + (THRESH - 1) <= q < |r| ensures Ordered(r', cmp, p, q) {
      InsertedAt(r, hi, min, p);
      InsertedAt(r, hi, min, q);
      if min < q {
        if p == hi && hi < min {
          assert !Ordered(r, cmp, hi, min) && Ordered(r, cmp, hi, q);
        } else {
          assert Ordered(r, cmp, Source(hi, min, p), q);
        }
      }
    }
  }

  lemma InsertedPermutes<T>(r: seq<T>, hi: nat, min: nat)
    requires hi <= min < |r|
    ensures multiset(Inserted(r, hi, min)) == multiset(r)
  {
    var a, b, x, c := r[..hi], r[hi..min], [r[min]], r[min + 1..];
    assert r == a + b + x + c;
    assert multiset(a + b + x + c) == multiset(a) + multiset(b) + multiset(x) + multiset(c);
    assert multiset(a + x + b + c) == multiset(a) + multiset(x) + multiset(b) + multiset(c);
  }

  /** The backward scan has no bounds check: the sentinel in record 0 stops it. */
  method ScanBack(s: seq<Byte>, n: nat, z: nat, cmp: Cmp, min: nat) returns (hi: nat, calls: nat)
    requires 0 < min < n && TotalPreorder(cmp)
    requires NearSorted(Recs(s, n, z), cmp, 0, n)
    requires Ordered(Recs(s, n, z), cmp, 0, min)
    ensures Slot(Recs(s, n, z), cmp, hi, min)
    ensures 1 <= calls <= THRESH - 1
  {
    ghost var r := Recs(s, n, z);
    hi, calls := min - 1, 1;
    while cmp(RecAt(s, z, hi), RecAt(s, z, min)) > 0
      invariant hi < min && calls == min - hi <= THRESH - 1
      invariant forall p: nat :: hi < p < min ==> !Ordered(r, cmp, p, min)
      decreases hi
    {
      assert !Ordered(r, cmp, hi, min);
      hi, calls := hi - 1, calls + 1;
    }
    assert Ordered(r, cmp, hi, min);
    hi := hi + 1;
  }

  /** The smallest of the first m records, the earliest of equals. */
  method FindSentinel(s: seq<Byte>, n: nat, z: nat, cmp: Cmp, m: nat) returns (j: nat)
    requires 0 < m <= n && TotalPreorder(cmp)
    ensures j < m && forall p: nat :: p < m ==> Ordered(Recs(s, n, z), cmp, j, p)
    ensures forall p: nat :: p < j ==> !Ordered(Recs(s, n, z), cmp, p, j)
  {
    ghost var r := Recs(s, n, z);
    j := 0;
    var lo := 1;
    assert Ordered(r, cmp, 0, 0);
    hide TotalPreorder, RecAt;
    while lo < m
      invariant j < lo <= m
      invariant forall p: nat :: p < lo ==> Ordered(r, cmp, j, p)
      invariant forall p: nat :: p < j ==> !Ordered(r, cmp, p, j)
    {
      assert r[j] == RecAt(s, z, j) && r[lo] == RecAt(s, z, lo);
      if cmp(RecAt(s, z, j), RecAt(s, z, lo)) > 0 {
        SmallerStill(r, cmp, j, lo);
        j := lo;
      }
      lo := lo + 1;
    }
  }

  lemma SmallerStill(r: seq<Rec>, cmp: Cmp, j: nat, lo: nat)
    requires TotalPreorder(cmp) && j < lo < |r| && !Ordered(r, cmp, j, lo)
    requires forall p: nat :: p < lo ==> Ordered(r, cmp, j, p)
    ensures forall p: nat :: p <= lo ==> Ordered(r, cmp, lo, p)
    ensures forall p: nat :: p < lo ==> !Ordered(r, cmp, p, lo)
  {
    forall p: nat | p < lo ensures Ordered(r, cmp, lo, p) && !Ordered(r, cmp, p, lo) {
      assert Ordered(r, cmp, j, p);
    }
  }

  /** Sorts the n records of z bytes in a; calls counts the comparisons of the insertion phase. */
  method Qsort(a: array<Byte>, n: nat, z: nat, cmp: Cmp) returns (calls: nat)
    requires a.Length == n * z && z >= 1 && TotalPreorder(cmp)
    modifies a
    ensures Sorted(Recs(a[..], n, z), cmp, n)
    ensures multiset(Recs(a[..], n, z)) == multiset(old(Recs(a[..], n, z)))
    ensures n > 0 ==> calls <= 3 * (n - 1)
  {
    TimesIsProduct(z, n);
    calls := 0;
    if n <= 1 {
      return;
    }
    var hi := n;
    if n >= THRESH {
      ghost var r0 := Recs(a[..], n, z);
      ghost var depth := QuickSort.Qst(a, n, z, cmp, 0, n);
      ShuffledAll(r0, Recs(a[..], n, z));
      hi := THRESH;
    }
    PlaceSentinel(a, n, z, cmp, hi);
    var min := 1;
    while min < n
      invariant 1 <= min <= n && calls <= 3 * (min - 1)
      invariant Sorting(Recs(a[..], n, z), cmp, min)
      invariant multiset(Recs(a[..], n, z)) == multiset(old(Recs(a[..], n, z)))
    {
      var c := InsertNext(a, n, z, cmp, min);
      calls := calls + c;
      min := min + 1;
    }
  }

  lemma ShuffledAll<T>(r: seq<T>, r': seq<T>)
    requires Shuffled(r, r', 0, |r|)
    ensures multiset(r') == multiset(r)
  {
    assert r[0..|r|] == r && r'[0..|r|] == r';
  }

  lemma ExchangePermutes(r: seq<Rec>, j: nat)
    requires j < |r|
    ensures |Exchange(r, 0, j)| == |r| && multiset(Exchange(r, 0, j)) == multiset(r)
    ensures j == 0 ==> Exchange(r, 0, j) == r
  {
  }

  method PlaceSentinel(a: array<Byte>, n: nat, z: nat, cmp: Cmp, m: nat)
    requires a.Length == Times(z, n) && z >= 1 && TotalPreorder(cmp)
    requires 0 < m <= n && m <= THRESH && (m == n || m == THRESH)
    requires NearSorted(Recs(a[..], n, z), cmp, 0, n)
    modifies a
    ensures Sorting(Recs(a[..], n, z), cmp, 1)
    ensures multiset(Recs(a[..], n, z)) == multiset(old(Recs(a[..], n, z)))
  {
    hide TotalPreorder, Ordered, RecAt, Exchange, NearSorted;
    ghost var r := Recs(a[..], n, z);
    var j := FindSentinel(a[..], n, z, cmp, m);
    ExchangeNearSorted(r, cmp, j, m);
    ExchangePermutes(r, j);
    if j != 0 {
      SwapRecords(a, n, z, 0, j);
    }
  }

  /** The state of the insertion phase: min records sorted, a sentinel in front, nothing far out of order. */
  ghost predicate Sorting(r: seq<Rec>, cmp: Cmp, min: nat) {
    && 0 < min <= |r|
    && Sorted(r, cmp, min) && NearSorted(r, cmp, 0, |r|)
    && forall q: nat :: q < |r| ==> Ordered(r, cmp, 0, q)
  }

  lemma InsertedKeepsSorting(r: seq<Rec>, r': seq<Rec>, cmp: Cmp, hi: nat, min: nat)
    requires TotalPreorder(cmp) && Sorting(r, cmp, min) && Slot(r, cmp, hi, min)
    requires r' == if hi == min then r else Inserted(r, hi, min)
    ensures Sorting(r', cmp, min + 1)
    ensures multiset(r') == multiset(r)
  {
    assert hi == min ==> Inserted(r, hi, min) == r;
    InsertedSorted(r, cmp, hi, min);
    InsertedNearSorted(r, cmp, hi, min);
    InsertedPermutes(r, hi, min);
    InsertedSentinel(r, cmp, hi, min);
  }

  method InsertNext(a: array<Byte>, n: nat, z: nat, cmp: Cmp, min: nat) returns (calls: nat)
    requires a.Length == Times(z, n) && z >= 1 && TotalPreorder(cmp) && min < n
    requires Sorting(Recs(a[..], n, z), cmp, min)
    modifies a
    ensures Sorting(Recs(a[..], n, z), cmp, min + 1)
    ensures multiset(Recs(a[..], n, z)) == multiset(old(Recs(a[..], n, z)))
    ensures calls <= 3
  {
    ghost var r := Recs(a[..], n, z);
    var hi;
    hi, calls := ScanBack(a[..], n, z, cmp, min);
    if hi != min {
      InsertRecord(a, n, z, hi, min);
    }
    InsertedKeepsSorting(r, Recs(a[..], n, z), cmp, hi, min);
  }

  lemma InsertedSentinel(r: seq<Rec>, cmp: Cmp, hi: nat, min: nat)
    requires 0 < min && Slot(r, cmp, hi, min)
    requires forall q: nat :: q < |r| ==> Ordered(r, cmp, 0, q)
    ensures hi > 0
    ensures forall q: nat :: q < |r| ==> Ordered(Inserted(r, hi, min), cmp, 0, q)
  {
    assert Ordered(r, cmp, 0, min);
    var r' := Inserted(r, hi, min);
    forall q: nat | q < |r| ensures Ordered(r', cmp, 0, q) {
      assert r'[0] == r[0] && r'[q] == r[Source(hi, min, q)];
      assert Ordered(r, cmp, 0, Source(hi, min, q));
    }
  }
}
