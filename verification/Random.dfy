/** The trinomial random number generators of src/libc/stdlib/random.c as mathematical streams. */
module LaggedStreams {

  const TWO32: int := 0x1_0000_0000
  const TWO31: int := 0x8000_0000

  /** A long of 32 bits, taken modulo 2^32. */
  type Word = w: int | 0 <= w < 0x1_0000_0000

  function Degree(kind: nat): nat {
    if kind == 1 then 7 else if kind == 2 then 15 else if kind == 3 then 31 else if kind == 4 then 63 else 0
  }

  function Sep(kind: nat): nat {
    if kind == 1 then 3 else if kind == 2 then 1 else if kind == 3 then 3 else if kind == 4 then 1 else 0
  }

  /** A generator: kind 0 is linear congruential; kinds 1 to 4 add two lagged terms, and their
      window holds the last Degree(kind) terms, oldest first. */
  datatype Gen = Lcg(x: Word) | Lag(kind: nat, window: seq<Word>)

  ghost predicate Proper(g: Gen) {
    g.Lag? ==> 1 <= g.kind <= 4 && |g.window| == Degree(g.kind)
  }

  function Mix(x: Word): Word { (1103515245 * x + 12345) % TWO32 }

  /** Addition of longs. */
  function Add32(x: Word, y: Word): Word { (x + y) % TWO32 }

  /** The next raw term. */
  function Term(g: Gen): Word
    requires Proper(g)
  {
    match g
    case Lcg(x) => Mix(x) % TWO31
    case Lag(kind, w) => Add32(w[0], w[Degree(kind) - Sep(kind)])
  }

  function Step(g: Gen): (g': Gen)
    requires Proper(g)
    ensures Proper(g')
  {
    match g
    case Lcg(_) => Lcg(Term(g))
    case Lag(kind, w) => Lag(kind, w[1..] + [Term(g)])
  }

  /** What random() returns for a raw term: the low bit of lagged terms is dropped. */
  function Output(g: Gen): Word
    requires Proper(g)
  {
    if g.Lcg? then Term(g) else Term(g) / 2
  }

  function Advance(g: Gen, n: nat): (g': Gen)
    requires Proper(g)
    ensures Proper(g')
    decreases n
  {
    if n == 0 then g else Advance(Step(g), n - 1)
  }

  /** The first n outputs from g on. */
  function Stream(g: Gen, n: nat): (s: seq<Word>)
    requires Proper(g)
    ensures |s| == n
    decreases n
  {
    if n == 0 then [] else [Output(g)] + Stream(Step(g), n - 1)
  }

  /** The window of g followed by its next n raw terms. */
  function Terms(g: Gen, n: nat): (s: seq<Word>)
    requires Proper(g) && g.Lag?
    ensures |s| == Degree(g.kind) + n && s[..Degree(g.kind)] == g.window
    decreases n
  {
    if n == 0 then g.window else
      var rest := Terms(Step(g), n - 1);
      assert rest[..Degree(g.kind)] == g.window[1..] + [Term(g)];
      [g.window[0]] + rest
  }

  lemma {:induction false} AdvanceMore(g: Gen, n: nat)
    requires Proper(g)
    ensures Advance(g, n + 1) == Step(Advance(g, n))
    decreases n
  {
    if n > 0 {
      AdvanceMore(Step(g), n - 1);
    }
  }

  lemma {:induction false} TermAt(g: Gen, n: nat, d: nat, i: nat)
    requires Proper(g) && g.Lag? && i < n && d == Degree(g.kind)
    ensures Terms(g, n)[d + i] == Term(Advance(g, i)) && Stream(g, n)[i] == Output(Advance(g, i))
    decreases n
  {
    hide Mix, Add32, Output;
    var rest := Terms(Step(g), n - 1);
    assert Terms(g, n)[d + i] == rest[d + i - 1];
    if i == 0 {
      assert rest[d - 1] == rest[..d][d - 1];
    } else {
      TermAt(Step(g), n - 1, d, i - 1);
    }
  }

  lemma {:induction false} WindowAt(g: Gen, n: nat, d: nat, i: nat, k: nat)
    requires Proper(g) && g.Lag? && i <= n && d == Degree(g.kind) && k < d
    ensures Advance(g, i).Lag? && Advance(g, i).kind == g.kind
    ensures Advance(g, i).window[k] == Terms(g, n)[i + k]
    decreases n
  {
    hide Mix, Add32, Output;
    if i > 0 {
      WindowAt(Step(g), n - 1, d, i - 1, k);
    } else {
      assert Terms(g, n)[k] == Terms(g, n)[..d][k];
    }
  }

  /** y(n) = y(n - deg) + y(n - sep) modulo 2^32, and the output is y(n) / 2. */
  lemma LaggedRecurrence(g: Gen, n: nat, d: nat, s: nat, i: nat)
    requires Proper(g) && g.Lag? && i < n && d == Degree(g.kind) && s == Sep(g.kind)
    ensures 0 < s < d
    ensures Terms(g, n)[d + i] == Add32(Terms(g, n)[i], Terms(g, n)[d + i - s])
    ensures Stream(g, n)[i] == Terms(g, n)[d + i] / 2
  {
    TermAt(g, n, d, i);
    WindowAt(g, n, d, i, 0);
    WindowAt(g, n, d, i, d - s);
  }

  /** The four trinomials: x^7 + x^3 + 1, x^15 + x + 1, x^31 + x^3 + 1 and x^63 + x + 1. */
  lemma Trinomials(g: Gen, n: nat, i: nat)
    requires Proper(g) && g.Lag? && i < n
    ensures var y := Terms(g, n);
            && (g.kind == 1 ==> |y| == 7 + n && y[i + 7] == (y[i] as int + y[i + 4] as int) % 0x1_0000_0000)
            && (g.kind == 2 ==> |y| == 15 + n && y[i + 15] == (y[i] as int + y[i + 14] as int) % 0x1_0000_0000)
            && (g.kind == 3 ==> |y| == 31 + n && y[i + 31] == (y[i] as int + y[i + 28] as int) % 0x1_0000_0000)
            && (g.kind == 4 ==> |y| == 63 + n && y[i + 63] == (y[i] as int + y[i + 62] as int) % 0x1_0000_0000)
  {
    hide Terms, Stream, Proper;
    LaggedRecurrence(g, n, Degree(g.kind), Sep(g.kind), i);
  }

  /** Kind 0: each number is the next of the congruence modulo 2^31. */
  lemma {:induction false} Congruence(x: Word, n: nat, i: nat)
    requires i < n
    ensures var before := if i == 0 then x else Stream(Lcg(x), n)[i - 1];
            Stream(Lcg(x), n)[i] == (1103515245 * before + 12345) % 0x8000_0000
    decreases n
  {
    ModTwice(1103515245 * x + 12345);
    if i > 0 {
      Congruence(Term(Lcg(x)), n - 1, i - 1);
    }
  }

  lemma ModTwice(v: int)
    ensures v % 0x1_0000_0000 % 0x8000_0000 == v % 0x8000_0000
  {
  }

  // ----- any number of generators, one of them current

  /** Ids stand for state arrays. */
  datatype Machine<Id> = Machine(cur: Id, gens: map<Id, Gen>)

  datatype Op<Id> = Draw | Reseed(x: Word) | Init(a: Id, kind: nat, x: Word) | Switch(a: Id)

  ghost predicate ProperAll<Id>(m: Machine<Id>) {
    m.cur in m.gens && forall a :: a in m.gens ==> Proper(m.gens[a])
  }

  ghost predicate Allowed<Id>(m: Machine<Id>, op: Op<Id>) {
    match op
    case Init(_, kind, _) => kind <= 4
    case Switch(a) => a in m.gens
    case _ => true
  }

  /** The linear congruential fill of srandom. */
  function Filled(x: Word, n: nat): (s: seq<Word>)
    requires n >= 1
    ensures |s| == n
  {
    if n == 1 then [x] else var s := Filled(x, n - 1); s + [Mix(s[n - 2])]
  }

  function Seeded(kind: nat, x: Word): (g: Gen)
    requires kind <= 4
    ensures Proper(g)
  {
    if kind == 0 then Lcg(x)
    else
      var s := Filled(x, Degree(kind));
      Advance(Lag(kind, s[Sep(kind)..] + s[..Sep(kind)]), 10 * Degree(kind))
  }

  /** The fill starts with the seed and goes on by the congruence modulo 2^32. */
  lemma {:induction false} FillIs(x: Word, n: nat, i: nat)
    requires i < n
    ensures Filled(x, n)[i] == if i == 0 then x else (1103515245 * Filled(x, n)[i - 1] as int + 12345) % 0x1_0000_0000
  {
    if i < n - 1 { FillIs(x, n - 1, i); }
  }

  lemma {:induction false} AdvanceSum(g: Gen, a: nat, b: nat)
    requires Proper(g)
    ensures Advance(g, a + b) == Advance(Advance(g, a), b)
    decreases a
  {
    hide Mix, Add32;
    if a > 0 { AdvanceSum(Step(g), a - 1, b); }
  }

  lemma {:induction false} StreamAt(g: Gen, n: nat, i: nat)
    requires Proper(g) && i < n
    ensures Stream(g, n)[i] == Output(Advance(g, i))
    decreases n
  {
    hide Mix, Add32, Output;
    if i > 0 { StreamAt(Step(g), n - 1, i - 1); }
  }

  lemma ReadFrom(s: seq<Word>, d: nat, sp: nat)
    requires |s| == d && sp < d
    ensures s[sp..] + s[..sp] == seq(d, k requires 0 <= k < d => if k + sp < d then s[k + sp] else s[k + sp - d])
  {
  }

  /** What is drawn after seeding: with d the degree, the terms of the recurrence from 11 d on, halved, when
      the first d terms are the fill, read from sep on and round. */
  lemma SeededStream(kind: nat, x: Word, n: nat, i: nat)
    requires 1 <= kind <= 4 && i < n
    ensures var (d, sp, s) := (Degree(kind), Sep(kind), Filled(x, Degree(kind)));
            var w := seq(d, k requires 0 <= k < d => if k + sp < d then s[k + sp] else s[k + sp - d]);
            Proper(Lag(kind, w)) && Stream(Seeded(kind, x), n)[i] == Terms(Lag(kind, w), 10 * d + n)[11 * d + i] / 2
  {
    hide Filled, Terms, Stream, Advance;
    var d, sp, s := Degree(kind), Sep(kind), Filled(x, Degree(kind));
    ReadFrom(s, d, sp);
    var g := Lag(kind, s[sp..] + s[..sp]);
    assert Seeded(kind, x) == Advance(g, 10 * d);
    OutputAt(g, 10 * d, n, d, i);
  }

  lemma OutputAt(g: Gen, m: nat, n: nat, d: nat, i: nat)
    requires Proper(g) && g.Lag? && d == Degree(g.kind) && i < n
    ensures Stream(Advance(g, m), n)[i] == Terms(g, m + n)[d + m + i] / 2
  {
    hide Terms, Stream, Advance;
    AdvanceSum(g, m, i);
    StreamAt(Advance(g, m), n, i);
    StreamAt(g, m + n, m + i);
    LaggedRecurrence(g, m + n, d, Sep(g.kind), m + i);
  }

  function KindOf(g: Gen): nat { if g.Lcg? then 0 else g.kind }

  function Apply<Id>(m: Machine<Id>, op: Op<Id>): (m': Machine<Id>)
    requires ProperAll(m) && Allowed(m, op)
    ensures ProperAll(m')
  {
    match op
    case Draw => Machine(m.cur, m.gens[m.cur := Step(m.gens[m.cur])])
    case Reseed(x) => Machine(m.cur, m.gens[m.cur := Seeded(KindOf(m.gens[m.cur]), x)])
    case Init(a, kind, x) => Machine(a, m.gens[a := Seeded(kind, x)])
    case Switch(a) => Machine(a, m.gens)
  }

  ghost predicate Runs<Id>(m: Machine<Id>, ops: seq<Op<Id>>)
    requires ProperAll(m)
    decreases |ops|
  {
    ops == [] || (Allowed(m, ops[0]) && Runs(Apply(m, ops[0]), ops[1..]))
  }

  ghost function Final<Id>(m: Machine<Id>, ops: seq<Op<Id>>): (m': Machine<Id>)
    requires ProperAll(m) && Runs(m, ops)
    ensures ProperAll(m')
    decreases |ops|
  {
    if ops == [] then m else Final(Apply(m, ops[0]), ops[1..])
  }

  /** The outputs drawn in a run while a was current. */
  ghost function Drawn<Id>(m: Machine<Id>, ops: seq<Op<Id>>, a: Id): seq<Word>
    requires ProperAll(m) && Runs(m, ops)
    decreases |ops|
  {
    if ops == [] then []
    else (if ops[0].Draw? && m.cur == a then [Output(m.gens[a])] else []) + Drawn(Apply(m, ops[0]), ops[1..], a)
  }

  /** The run never seeds a anew. */
  ghost predicate Undisturbed<Id>(m: Machine<Id>, ops: seq<Op<Id>>, a: Id)
    requires ProperAll(m) && Runs(m, ops)
    decreases |ops|
  {
    ops != [] ==>
      && !(ops[0].Init? && ops[0].a == a) && !(ops[0].Reseed? && m.cur == a)
      && Undisturbed(Apply(m, ops[0]), ops[1..], a)
  }

  /** However the program switches around in between, what it draws from a state array is that
      array's own stream, as if never interrupted. */
  lemma {:induction false} Independent<Id>(m: Machine<Id>, ops: seq<Op<Id>>, a: Id)
    requires ProperAll(m) && Runs(m, ops) && a in m.gens && Undisturbed(m, ops, a)
    ensures var n := |Drawn(m, ops, a)|;
            && Drawn(m, ops, a) == Stream(m.gens[a], n)
            && a in Final(m, ops).gens && Final(m, ops).gens[a] == Advance(m.gens[a], n)
    decreases |ops|
  {
    if ops != [] {
      Independent(Apply(m, ops[0]), ops[1..], a);
    }
  }
}

/** The circular tables and pointers that realise the streams. */
module RandomState {
  import opened LaggedStreams

  const MAX_TYPES: int := 5

  function Max1(d: nat): nat { if d == 0 then 1 else d }

  /** The front pointer that goes with a rear pointer. */
  function Front(kind: nat, rear: nat): nat {
    if rear + Sep(kind) < Degree(kind) then rear + Sep(kind) else rear + Sep(kind) - Degree(kind)
  }

  function Rotated(s: seq<Word>, front: nat): seq<Word>
    requires front <= |s|
  {
    s[front..] + s[..front]
  }

  predicate Fits(t: seq<Word>, kind: nat, rear: nat) {
    kind <= 4 && |t| >= 1 + Max1(Degree(kind)) && (if kind == 0 then rear == 0 else rear < Degree(kind))
  }

  /** The generator in table t, whose word 0 is bookkeeping, with its rear pointer at rear. */
  function Live(t: seq<Word>, kind: nat, rear: nat): (g: Gen)
    ensures Proper(g)
  {
    if !Fits(t, kind, rear) then Lcg(0)
    else if kind == 0 then Lcg(t[1])
    else Lag(kind, Rotated(t[1..1 + Degree(kind)], Front(kind, rear)))
  }

  /** Word 0 holds MAX_TYPES * rear + kind. */
  predicate SavedOk(t: seq<Word>) {
    |t| > 0 && Fits(t, t[0] % MAX_TYPES, t[0] / MAX_TYPES)
  }

  /** The generator an array holds while it is switched out. */
  function Saved(t: seq<Word>): (g: Gen)
    ensures Proper(g)
  {
    if t == [] then Lcg(0) else Live(t, t[0] % MAX_TYPES, t[0] / MAX_TYPES)
  }

  function Mark(kind: nat, rear: nat): Word { (MAX_TYPES * rear + kind) % TWO32 }

  lemma MarkReadBack(t: seq<Word>, kind: nat, rear: nat)
    requires Fits(t, kind, rear)
    ensures Mark(kind, rear) % MAX_TYPES == kind && Mark(kind, rear) / MAX_TYPES == rear
    ensures SavedOk(t[0 := Mark(kind, rear)]) && Saved(t[0 := Mark(kind, rear)]) == Live(t, kind, rear)
  {
    assert t[0 := Mark(kind, rear)][1..1 + Degree(kind)] == t[1..1 + Degree(kind)];
  }

  lemma FrontIsModulo(kind: nat, rear: nat)
    requires 1 <= kind <= 4 && rear < Degree(kind)
    ensures Front(kind, rear) == (rear + Sep(kind)) % Degree(kind) < Degree(kind)
  {
  }

  lemma RotatedStep(st: seq<Word>, sp: nat, rear: nat, f: nat, f': nat, y: Word)
    requires 0 < sp < |st| && rear < |st|
    requires f == if rear + sp < |st| then rear + sp else rear + sp - |st|
    requires f' == if f + 1 == |st| then 0 else f + 1
    ensures Rotated(st, f)[|st| - sp] == st[rear] && Rotated(st, f)[0] == st[f]
    ensures Rotated(st[f := y], f') == Rotated(st, f)[1..] + [y]
  {
    if f + 1 == |st| {
      assert st[f := y] == st[..f] + [y];
    } else {
      assert st[f := y][f'..] == st[f'..];
      assert st[f := y][..f'] == st[..f] + [y];
    }
  }

  function NextRear(kind: nat, rear: nat): nat {
    if kind == 0 then rear else if rear + 1 == Degree(kind) then 0 else rear + 1
  }

  function StepTable(t: seq<Word>, kind: nat, rear: nat): seq<Word>
    requires Fits(t, kind, rear)
  {
    if kind == 0 then t[1 := Mix(t[1]) % TWO31]
    else t[1 + Front(kind, rear) := Add32(t[1 + Front(kind, rear)], t[1 + rear])]
  }

  /** Adding the rear term into the front one and moving both pointers is one step of the stream. */
  lemma TableStep(t: seq<Word>, kind: nat, rear: nat)
    requires Fits(t, kind, rear)
    ensures Fits(StepTable(t, kind, rear), kind, NextRear(kind, rear))
    ensures Live(StepTable(t, kind, rear), kind, NextRear(kind, rear)) == Step(Live(t, kind, rear))
    ensures Output(Live(t, kind, rear))
         == if kind == 0 then StepTable(t, kind, rear)[1] else StepTable(t, kind, rear)[1 + Front(kind, rear)] / 2
  {
    if kind > 0 {
      var d, f := Degree(kind), Front(kind, rear);
      var st := t[1..1 + d];
      var y := StepTable(t, kind, rear)[1 + f];
      assert t[1 + f := y][1..1 + d] == st[f := y];
      RotatedStep(st, Sep(kind), rear, f, Front(kind, NextRear(kind, rear)), y);
    }
  }

  lemma StepTableMark(t: seq<Word>, kind: nat, rear: nat)
    requires Fits(t, kind, rear)
    ensures StepTable(t, kind, rear)[0] == t[0] && |StepTable(t, kind, rear)| == |t|
    ensures SavedOk(t) ==> SavedOk(StepTable(t, kind, rear))
  {
  }

  /** The rear pointer after i calls from the start of a table. */
  function RearAfter(kind: nat, i: nat): nat {
    if i == 0 then 0 else NextRear(kind, RearAfter(kind, i - 1))
  }

  lemma NoCalls(kind: nat, g: Gen)
    requires Proper(g)
    ensures RearAfter(kind, 0) == 0 && Advance(g, 0) == g
  {
  }

  lemma NextCall(kind: nat, i: nat)
    ensures RearAfter(kind, i + 1) == NextRear(kind, RearAfter(kind, i))
  {
  }

  lemma {:induction false} RearCycles(kind: nat, i: nat, laps: nat)
    requires 1 <= kind <= 4 && i < Degree(kind)
    ensures laps == 0 ==> RearAfter(kind, i) == i
    ensures RearAfter(kind, laps * Degree(kind) + i) == i
    decreases laps, i
  {
    if i > 0 {
      RearCycles(kind, i - 1, laps);
      if laps == 0 { assert laps * Degree(kind) == 0; }
    } else if laps > 0 {
      RearCycles(kind, Degree(kind) - 1, laps - 1);
      assert laps * Degree(kind) == (laps - 1) * Degree(kind) + (Degree(kind) - 1) + 1;
    }
  }

  lemma SameTable(t: seq<Word>, t': seq<Word>, kind: nat, rear: nat)
    requires |t| == |t'| >= 1 && t[1..] == t'[1..]
    ensures Live(t, kind, rear) == Live(t', kind, rear) && (Fits(t, kind, rear) <==> Fits(t', kind, rear))
  {
    if Fits(t, kind, rear) {
      assert t[1..1 + Degree(kind)] == t[1..][..Degree(kind)] == t'[1..1 + Degree(kind)];
      assert t[1] == t[1..][0] && t'[1] == t'[1..][0];
    }
  }

  lemma FrontsDiffer(kind: nat, r: nat, r': nat)
    requires 1 <= kind <= 4 && r < Degree(kind) && r' < Degree(kind) && r != r'
    ensures Front(kind, r) != Front(kind, r') && Front(kind, r) < Degree(kind) && Front(kind, r') < Degree(kind)
  {
  }

  /** setstate on the current array goes back to the rear pointer last saved there: it keeps the
      generator, whatever the table holds, exactly when the pointer is at that place, that is, after a
      multiple of the degree's number of calls. */
  lemma SetstateOnCurrent(kind: nat, mark: nat, rear: nat)
    requires 1 <= kind <= 4 && mark < Degree(kind) && rear < Degree(kind)
    ensures (forall t :: |t| == 1 + Degree(kind) && t[0] == Mark(kind, mark) ==> Saved(t) == Live(t, kind, rear))
            <==> mark == rear
  {
    var d := Degree(kind);
    if mark == rear {
      forall t | |t| == 1 + d && t[0] == Mark(kind, mark) ensures Saved(t) == Live(t, kind, rear) {
        MarkReadBack(t, kind, mark);
        assert t[0 := Mark(kind, mark)] == t;
      }
    } else {
      FrontsDiffer(kind, mark, rear);
      var f := Front(kind, mark);
      var t: seq<Word> := [Mark(kind, mark)] + seq(d, i => if i == f then 1 else 0);
      MarkReadBack(t, kind, mark);
      assert t[0 := Mark(kind, mark)] == t;
      assert Saved(t).window[0] == t[1..1 + d][f] == 1;
      assert Live(t, kind, rear).window[0] == t[1..1 + d][Front(kind, rear)] == 0;
    }
  }

  /** Where it does not: the table as the source first fills it, after one call. The stream has one number
      next, setstate on the table makes it another. */
  lemma SetstateAtStart(t: seq<Word>)
    requires |t| == 32 && t[..3] == [3, 0x9a31_9039, 0x32d9_c024] && t[4] == 0x5da1_f342 && t[5] == 0xde3b_81e0
    ensures Fits(t, 3, 0) && Saved(t) == Live(t, 3, 0)
    ensures var u := StepTable(t, 3, 0);
            Output(Live(u, 3, NextRear(3, 0))) == 0x088a_a102 && Output(Saved(u)) == 0x4902_89da
  {
    assert t[0] == t[..3][0] && t[1] == t[..3][1] && t[2] == t[..3][2];
    var u := StepTable(t, 3, 0);
    assert u[4] == 0xf7d3_837b;
    var (v, w) := (Live(u, 3, 1).window, Saved(u).window);
    assert v[0] == u[5] && v[28] == u[2];
    assert w[0] == u[4] && w[28] == u[1];
  }

  class Random {
    var table: array<Word>
    var fptr: nat
    var rptr: nat
    var endPtr: nat
    var kind: nat
    var deg: nat
    var sep: nat
    ghost var arrays: set<array<Word>>

    ghost predicate LiveOk()
      reads this, table
    {
      && Fits(table[..], kind, rptr)
      && deg == endPtr == Degree(kind) && sep == Sep(kind)
      && (kind != 0 ==> fptr == Front(kind, rptr))
    }

    ghost predicate Valid()
      reads this, arrays
    {
      && table in arrays && LiveOk()
      && (forall a :: a in arrays ==> SavedOk(a[..]))
      && table[0] % MAX_TYPES == kind
    }

    /** The generator array a stands for now. */
    ghost function GenOf(a: array<Word>): (g: Gen)
      reads this, a
      ensures Proper(g)
    {
      if a == table then Live(a[..], kind, rptr) else Saved(a[..])
    }

    ghost function View(): (m: Machine<array<Word>>)
      reads this, arrays
      ensures table in arrays ==> ProperAll(m)
    {
      Machine(table, map a | a in arrays :: GenOf(a))
    }

    /** The state at start: randtbl, marked as kind 3 with its rear pointer at 0. */
    constructor (randtbl: array<Word>)
      requires randtbl.Length == 32 && randtbl[0] == 3
      ensures Valid() && table == randtbl && kind == 3 && rptr == 0 && arrays == {randtbl}
    {
      table := randtbl;
      fptr, rptr, endPtr := 3, 0, 31;
      kind, deg, sep := 3, 31, 3;
      arrays := {randtbl};
    }

    /** random() for the trinomial kinds. */
    method DrawLag() returns (i: Word)
      requires kind > 0 && Fits(table[..], kind, rptr) && fptr == Front(kind, rptr) && endPtr == Degree(kind)
      modifies this`fptr, this`rptr, table
      ensures table[..] == StepTable(old(table[..]), kind, old(rptr))
      ensures i == table[1 + old(fptr)] / 2
      ensures rptr == NextRear(kind, old(rptr)) && fptr == Front(kind, rptr)
      ensures fptr != 0 || rptr != 0
    {
      table[1 + fptr] := Add32(table[1 + fptr], table[1 + rptr]);
      i := table[1 + fptr] / 2;
      fptr := fptr + 1;
      if fptr >= endPtr {
        fptr := 0;
        rptr := rptr + 1;
      } else {
        rptr := rptr + 1;
        if rptr >= endPtr {
          rptr := 0;
        }
      }
    }

    /** One call of random(). */
    method Draw() returns (i: Word)
      requires LiveOk()
      modifies this`fptr, this`rptr, table
      ensures LiveOk()
      ensures i == Output(old(Live(table[..], kind, rptr)))
      ensures Live(table[..], kind, rptr) == Step(old(Live(table[..], kind, rptr)))
      ensures rptr == NextRear(kind, old(rptr))
      ensures table[0] == old(table[0]) && (old(SavedOk(table[..])) ==> SavedOk(table[..]))
    {
      TableStep(table[..], kind, rptr);
      StepTableMark(table[..], kind, rptr);
      ghost var t' := StepTable(table[..], kind, rptr);
      if kind == 0 {
        table[1] := Mix(table[1]) % TWO31;
        i := table[1];
      } else {
        i := DrawLag();
      }
      assert table[..] == t';
    }

    /** random(): the next output of the current array's stream; no other array is touched. */
    method Random() returns (i: Word)
      requires Valid()
      modifies this`fptr, this`rptr, table
      ensures Valid()
      ensures i == Output(old(GenOf(table))) && View() == Apply(old(View()), LaggedStreams.Draw)
    {
      i := Draw();
    }

    /** The view, given what every array stands for. */
    lemma ViewIs(gens: map<array<Word>, Gen>)
      requires gens.Keys == arrays && forall b :: b in arrays ==> GenOf(b) == gens[b]
      ensures View() == Machine(table, gens)
    {
    }

    lemma ViewHas()
      ensures View().cur == table && View().gens.Keys == arrays
              && forall b :: b in arrays ==> View().gens[b] == GenOf(b)
    {
    }

    lemma KindOfTable()
      requires Valid()
      ensures KindOf(GenOf(table)) == kind
    {
    }

    /** srandom() as a program calls it. */
    method Reseed(x: Word)
      requires Valid()
      modifies this`fptr, this`rptr, table
      ensures Valid() && View() == Apply(old(View()), LaggedStreams.Reseed(x))
      ensures GenOf(table) == Seeded(kind, x)
      ensures forall b :: b in arrays && b != table ==> GenOf(b) == old(GenOf(b))
    {
      hide GenOf, View, Seeded;
      ViewHas();
      KindOfTable();
      ghost var gens := View().gens;
      ReseedTable(x);
      ViewIs(gens[table := Seeded(kind, x)]);
    }

    method ReseedTable(x: Word)
      requires Valid()
      modifies this`fptr, this`rptr, table
      ensures Valid()
      ensures GenOf(table) == Seeded(kind, x)
      ensures forall b :: b in arrays && b != table ==> GenOf(b) == old(GenOf(b))
    {
      assert forall b :: b in arrays && b != table ==> GenOf(b) == Saved(b[..]);
      Srandom(x);
    }

    /** srandom(), which initstate also runs on a table it has just switched to. */
    method Srandom(x: Word)
      requires LiveOk()
      modifies this`fptr, this`rptr, table
      ensures LiveOk() && rptr == 0
      ensures Live(table[..], kind, 0) == Seeded(kind, x)
      ensures table[0] == old(table[0])
    {
      table[1] := x;
      if kind != 0 {
        FillTable();
        fptr := sep;
        rptr := 0;
        WarmUp();
      }
    }

    method FillTable()
      requires LiveOk() && kind != 0
      modifies table
      ensures table[1..1 + deg] == Filled(old(table[1]), deg) && table[0] == old(table[0])
    {
      ghost var x := table[1];
      var i := 1;
      while i < deg
        invariant 1 <= i <= deg && table[0] == old(table[0])
        invariant table[1..1 + i] == Filled(x, i)
      {
        table[1 + i] := Mix(table[i]);
        assert table[i] == table[1..1 + i][i - 1];
        assert table[1..1 + (i + 1)] == table[1..1 + i] + [table[1 + i]];
        i := i + 1;
      }
    }

    /** The 10 * deg discarded calls bring both pointers back to where they started. */
    method WarmUp()
      requires LiveOk() && kind != 0 && rptr == 0
      modifies this`fptr, this`rptr, table
      ensures LiveOk() && rptr == 0 && fptr == sep
      ensures Live(table[..], kind, 0) == Advance(old(Live(table[..], kind, 0)), 10 * deg)
      ensures table[0] == old(table[0])
    {
      hide Live, Step, RearAfter, NextRear, Advance;
      ghost var g := Live(table[..], kind, 0);
      ghost var h := g;
      var n := 10 * deg;
      NoCalls(kind, g);
      for i := 0 to n
        invariant LiveOk() && table[0] == old(table[0]) && rptr == RearAfter(kind, i)
        invariant h == Advance(g, i) && Live(table[..], kind, rptr) == h
      {
        AdvanceMore(g, i);
        NextCall(kind, i);
        var _ := Draw();
        h := Step(h);
      }
      RearCycles(kind, 0, 10);
    }

    /** The bookkeeping word both initstate and setstate write before they leave a table. */
    method SaveMark()
      requires Valid()
      modifies table
      ensures Valid() && View() == old(View())
      ensures Saved(table[..]) == Live(table[..], kind, rptr) && table[0] == Mark(kind, rptr)
      ensures table[1..] == old(table[1..])
    {
      ghost var t := table[..];
      MarkReadBack(t, kind, rptr);
      table[0] := Mark(kind, rptr);
      assert table[..] == t[0 := Mark(kind, rptr)];
      assert table[1..1 + Degree(kind)] == t[1..1 + Degree(kind)];
      assert View().gens == old(View().gens);
    }

    /** initstate(): n is the size of the array in bytes; too small an array is refused. */
    method Initstate(seed: Word, a: array<Word>, n: int) returns (ok: bool)
      requires Valid() && n <= 4 * a.Length
      modifies this, table, a
      ensures Valid()
      ensures ok <==> n >= 8
      ensures !ok ==> View() == old(View())
      ensures ok ==> table == a && arrays == old(arrays) + {a}
      ensures ok ==> 4 * (1 + Max1(Degree(kind))) <= n && GenOf(a) == Seeded(kind, seed)
      ensures ok ==> forall k: nat :: kind < k <= 4 ==> 4 * (1 + Max1(Degree(k))) > n
      ensures ok ==> GenOf(a) == Seeded(KindFor(n), seed) && View() == Apply(old(View()), Init(a, KindFor(n), seed))
      ensures ok ==> forall b :: b in old(arrays) && b != a ==> GenOf(b) == old(GenOf(b))
    {
      hide GenOf, View, Seeded, Live, Saved, Mark;
      ViewHas();
      ghost var gens := View().gens;
      SaveMark();
      ViewHas();
      ok := n >= 8;
      if ok {
        KindFits(n);
        forall k: nat | KindFor(n) < k <= 4 ensures 4 * (1 + Max1(Degree(k))) > n { KindIsLargest(n, k); }
        Enter(a, KindFor(n), seed);
        ViewIs(gens[a := Seeded(KindFor(n), seed)]);
      }
    }

    method Enter(a: array<Word>, k: nat, seed: Word)
      requires Valid() && k <= 4 && a.Length >= 1 + Max1(Degree(k))
      requires Saved(table[..]) == Live(table[..], kind, rptr)
      modifies this, a
      ensures Valid() && table == a && arrays == old(arrays) + {a}
      ensures kind == k && GenOf(a) == Seeded(k, seed)
      ensures forall b :: b in old(arrays) && b != a ==> GenOf(b) == old(GenOf(b))
    {
      assert forall b :: b in arrays ==> GenOf(b) == Saved(b[..]);
      Seat(a, k, seed);
      arrays := arrays + {a};
    }

    /** The rest of initstate: switch to a, seed it, write its bookkeeping word. */
    method Seat(a: array<Word>, k: nat, seed: Word)
      requires k <= 4 && a.Length >= 1 + Max1(Degree(k))
      modifies this`table, this`kind, this`deg, this`sep, this`endPtr, this`fptr, this`rptr, a
      ensures table == a && kind == k && LiveOk()
      ensures SavedOk(table[..]) && table[0] % MAX_TYPES == kind
      ensures Live(table[..], kind, rptr) == Seeded(k, seed)
    {
      SwitchTo(a, k);
      Srandom(seed);
      ghost var t := table[..];
      MarkReadBack(t, kind, rptr);
      table[0] := Mark(kind, rptr);
      assert table[..] == t[0 := Mark(kind, rptr)];
      assert table[1..1 + Degree(kind)] == t[1..1 + Degree(kind)];
    }

    /** setstate(): reads the bookkeeping word of a before it refreshes that of the current table. */
    method Setstate(a: array<Word>)
      requires Valid() && a in arrays
      modifies this`table, this`kind, this`deg, this`sep, this`endPtr, this`fptr, this`rptr, table
      ensures Valid() && table == a && arrays == old(arrays)
      ensures GenOf(a) == old(Saved(a[..])) && (a != old(table) ==> View() == Apply(old(View()), Switch(a)))
      ensures forall b :: b in arrays && b != a ==> GenOf(b) == old(GenOf(b))
      ensures kind != 0 ==> rptr == old(a[0]) / MAX_TYPES
    {
      hide GenOf, View, Live, Saved, Mark;
      ViewHas();
      ghost var gens, was := View().gens, table;
      SwitchBack(a);
      if a != was { ViewIs(gens); }
    }

    method SwitchBack(a: array<Word>)
      requires Valid() && a in arrays
      modifies this`table, this`kind, this`deg, this`sep, this`endPtr, this`fptr, this`rptr, table
      ensures Valid() && table == a && arrays == old(arrays)
      ensures GenOf(a) == old(Saved(a[..])) && (a != old(table) ==> GenOf(a) == old(GenOf(a)))
      ensures forall b :: b in arrays && b != a ==> GenOf(b) == old(GenOf(b))
      ensures kind != 0 ==> rptr == old(a[0]) / MAX_TYPES
    {
      var typ, rear := a[0] % MAX_TYPES, a[0] / MAX_TYPES;
      ghost var t, t0 := a[..], table;
      SaveMark();
      assert forall b :: b in arrays ==> GenOf(b) == Saved(b[..]);
      assert a[1..] == t[1..];
      SameTable(t, a[..], typ, rear);
      Resume(a, typ, rear);
    }

    method Resume(a: array<Word>, typ: nat, rear: nat)
      requires Fits(a[..], typ, rear)
      modifies this`table, this`kind, this`deg, this`sep, this`endPtr, this`fptr, this`rptr
      ensures table == a && kind == typ && rptr == rear && LiveOk()
    {
      kind, deg, sep := typ, Degree(typ), Sep(typ);
      table := a;
      rptr := 0;
      if kind != 0 {
        rptr := rear;
        FrontIsModulo(kind, rear);
        fptr := (rear + sep) % deg;
      }
      endPtr := deg;
    }

    method SwitchTo(a: array<Word>, k: nat)
      requires k <= 4 && a.Length >= 1 + Max1(Degree(k))
      modifies this`table, this`kind, this`deg, this`sep, this`endPtr, this`fptr, this`rptr
      ensures table == a && kind == k && LiveOk()
    {
      kind, deg, sep := k, Degree(k), Sep(k);
      table := a;
      endPtr := deg;
      fptr, rptr := sep, 0;
    }
  }

  lemma KindFits(n: int)
    requires n >= 8
    ensures 4 * (1 + Max1(Degree(KindFor(n)))) <= n
  {
  }

  /** Just the kinds up to it fit. */
  lemma KindIsLargest(n: int, k: nat)
    requires n >= 8 && k <= 4
    ensures 4 * (1 + Max1(Degree(k))) <= n <==> k <= KindFor(n)
  {
  }

  /** The generator chosen for an array of n bytes. */
  function KindFor(n: int): nat {
    if n < 32 then 0 else if n < 64 then 1 else if n < 128 then 2 else if n < 256 then 3 else 4
  }
}


