/** Digits and their values, as strtol, strtoul and the integer formats of vsprintf use them
    (ISO/IEC 9899:1999, sections 7.20.1.4 and 7.19.6.1). */
module Numerals {
  import opened Digits

  const NUL: char := '\0'

  /** The character at i; a string ends in NUL. */
  function CharAt(s: string, i: nat): char { if i < |s| then s[i] else NUL }

  predicate IsSpace(c: char) { 9 <= c as int <= 13 || c == ' ' }

  /** The value of a digit or letter, 36 for anything else. */
  function DigitValue(c: char): (d: nat)
    ensures d <= 36
  {
    if '0' <= c <= '9' then c as int - '0' as int
    else if 'A' <= c <= 'Z' then c as int - 'A' as int + 10
    else if 'a' <= c <= 'z' then c as int - 'a' as int + 10
    else 36
  }

  /** Space, tab, line feed, vertical tab, form feed and carriage return. */
  lemma SpaceChars(c: char)
    ensures IsSpace(c) <==> c as int in {32, 9, 10, 11, 12, 13}
  {
  }

  /** The number whose digits are those of acc and then ds. */
  function Horner(ds: seq<nat>, base: nat, acc: nat): nat
    decreases |ds|
  {
    if ds == [] then acc else Horner(ds[1..], base, Times(base, acc) + ds[0])
  }

  lemma {:induction false} HornerGrows(ds: seq<nat>, base: nat, acc: nat)
    requires base > 0
    ensures Horner(ds, base, acc) >= acc
    decreases |ds|
  {
    if ds != [] {
      GrowsByBase(base, acc);
      HornerGrows(ds[1..], base, Times(base, acc) + ds[0]);
    }
  }

  lemma {:induction false} GrowsByBase(base: nat, acc: nat)
    requires base > 0
    ensures Times(base, acc) >= acc
  {
    if acc > 0 { GrowsByBase(base, acc - 1); }
  }

  /** The cutoff test says exactly when one more digit passes the limit, without computing it. */
  lemma CutoffExact(limit: nat, base: nat, acc: nat, d: nat)
    requires base > 0 && d < base
    ensures acc > Div(limit, base) || (acc == Div(limit, base) && d > Mod(limit, base))
            <==> Times(base, acc) + d > limit
  {
    var q, r := Div(limit, base), Mod(limit, base);
    DivMod(limit, base);
    if acc > q { Below(base, q, r, acc); }
    if acc < q { Below(base, acc, d, q); }
  }

  // ----- what a numeral is

  function SkipSpace(s: string): string { if s != [] && IsSpace(s[0]) then SkipSpace(s[1..]) else s }

  /** The longest run of digits of a base. */
  function Run(s: string, base: nat): seq<nat> {
    if s != [] && DigitValue(s[0]) < base then [DigitValue(s[0])] + Run(s[1..], base) else []
  }

  predicate Signed(s: string) { s != [] && (s[0] == '-' || s[0] == '+') }

  function SkipSign(s: string): string { if Signed(s) then s[1..] else s }

  predicate Prefixed(s: string, base: nat) {
    (base == 0 || base == 16) && |s| >= 2 && s[0] == '0' && (s[1] == 'x' || s[1] == 'X')
  }

  /** The base of the digits: 0 allows 0x for 16 and 0 for 8. */
  function BaseOf(s: string, base: nat): nat {
    if Prefixed(s, base) then 16
    else if base == 0 then (if s != [] && s[0] == '0' then 8 else 10)
    else base
  }

  function SkipPrefix(s: string, base: nat): string { if Prefixed(s, base) then s[2..] else s }

  datatype Numeral = Numeral(neg: bool, base: nat, ds: seq<nat>, rest: string)

  function Parse(s: string, base: nat): Numeral {
    var t := SkipSpace(s);
    var u := SkipSign(t);
    var v := SkipPrefix(u, base);
    var ds := Run(v, BaseOf(u, base));
    Numeral(t != [] && t[0] == '-', BaseOf(u, base), ds, v)
  }

  /** The digits of the subject sequence of section 7.20.1.4: 0x is a prefix only before a digit. */
  function Subject(u: string, base: nat): seq<nat> {
    if Prefixed(u, base) && Run(u[2..], 16) != [] then Run(u[2..], 16) else Run(u, BaseOf(u, base))
  }

  /** The digits found are those of the subject sequence, unless 0x comes without a digit: there the
      subject is the 0, but none is found. The value is 0 all the same. */
  lemma SubjectFound(s: string, base: nat)
    ensures var u := SkipSign(SkipSpace(s));
            var bare := Prefixed(u, base) && Run(u[2..], 16) == [];
            && (Parse(s, base).ds == Subject(u, base) <==> !bare)
            && (bare ==> Parse(s, base).ds == [] && Subject(u, base) == [0])
  {
    var u := SkipSign(SkipSpace(s));
    if Prefixed(u, base) {
      assert DigitValue(u[1]) == 33 && u[1..][0] == u[1];
      assert Run(u, 16) == [0] + Run(u[1..], 16);
    }
  }
}

/** strtol and strtoul (src/libc/stdlib/strtol.c, strtoul.c). */
module Strtol {
  import opened Digits
  import opened Numerals

  const LONG_MAX: int := 0x7FFF_FFFF
  const LONG_MIN: int := -0x8000_0000
  const ULONG_MAX: int := 0xFFFF_FFFF

  predicate BaseOk(base: nat) { base == 0 || 2 <= base <= 36 }

  function Value(n: Numeral): nat { Horner(n.ds, n.base, 0) }

  /** The number a string denotes, */
  function Exact(n: Numeral): int { if n.neg then 0 - Value(n) else Value(n) }

  /** clamped to the range of long. */
  function Clamped(n: Numeral): int {
    var v := Exact(n);
    if v < LONG_MIN then LONG_MIN else if v > LONG_MAX then LONG_MAX else v
  }

  /** No long is nearer to the number, and a number that is a long is itself. */
  lemma ClampedIsNearest(n: Numeral, v: int)
    requires -0x8000_0000 <= v <= 0x7FFF_FFFF
    ensures -0x8000_0000 <= Clamped(n) <= 0x7FFF_FFFF
    ensures Exact(n) >= 0 ==> v <= Clamped(n) <= Exact(n) || Exact(n) == Clamped(n)
    ensures Exact(n) < 0 ==> v >= Clamped(n) >= Exact(n) || Exact(n) == Clamped(n)
  {
  }

  /** White space, sign, prefix: i is where the digits are to start. */
  method Prologue(s: string, base: nat) returns (neg: bool, i: nat, base': nat)
    requires BaseOk(base)
    ensures var n := Parse(s, base); neg == n.neg && base' == n.base && i <= |s| && s[i..] == n.rest
    ensures 2 <= base' <= 36
  {
    hide Run;
    i := 0;
    while IsSpace(CharAt(s, i))
      invariant i <= |s| && SkipSpace(s[i..]) == SkipSpace(s)
      decreases |s| - i
    {
      assert s[i..][1..] == s[i + 1..];
      i := i + 1;
    }
    assert s[i..] == SkipSpace(s);
    hide SkipSpace, IsSpace;
    neg := CharAt(s, i) == '-';
    if neg || CharAt(s, i) == '+' {
      assert s[i..][1..] == s[i + 1..];
      i := i + 1;
    }
    ghost var u := SkipSign(SkipSpace(s));
    assert s[i..] == u;
    base' := base;
    if (base' == 0 || base' == 16) && CharAt(s, i) == '0' && (CharAt(s, i + 1) == 'x' || CharAt(s, i + 1) == 'X') {
      assert s[i..][2..] == s[i + 2..];
      i := i + 2;
      base' := 16;
    } else if base' == 0 {
      base' := if CharAt(s, i) == '0' then 8 else 10;
    }
  }

  /** The accumulating loop, with the limit's quotient and remainder: any is -1 past the limit, 0
      without digits; acc never exceeds the limit. */
  method Accumulate(s: string, start: nat, base: nat, cutoff: nat, cutlim: nat, ghost limit: nat)
    returns (acc: nat, any: int, i: nat)
    requires 2 <= base <= 36 && start <= |s| && cutoff == Div(limit, base) && cutlim == Mod(limit, base)
    ensures var ds := Run(s[start..], base);
            && i == start + |ds| && acc <= limit
            && any == (if ds == [] then 0 else if Horner(ds, base, 0) > limit then -1 else 1)
            && (any >= 0 ==> acc == Horner(ds, base, 0))
  {
    acc, any, i := 0, 0, start;
    ghost var m := 0;    // the value of the digits read, without limit
    while DigitValue(CharAt(s, i)) < base
      invariant start <= i <= |s| && acc <= limit && m >= 0
      invariant Horner(Run(s[start..], base), base, 0) == Horner(Run(s[i..], base), base, m)
      invariant |Run(s[start..], base)| == i - start + |Run(s[i..], base)|
      invariant any == if i == start then 0 else if m > limit then -1 else 1
      invariant any >= 0 ==> acc == m
      decreases |s| - i
    {
      var c := DigitValue(CharAt(s, i));
      assert s[i..][1..] == s[i + 1..];
      CutoffExact(limit, base, acc, c);
      if any < 0 || acc > cutoff || (acc == cutoff && c > cutlim) {
        if any < 0 { GrowsByBase(base, m); }
        any := -1;
      } else {
        any := 1;
        acc := Times(base, acc);
        acc := acc + c;
      }
      m := Times(base, m) + c;
      i := i + 1;
    }
    assert Run(s[i..], base) == [];
  }

  /** strtol: the exact value of the longest run of digits, clamped; end is where it stops. */
  method Strtol(nptr: string, base: nat) returns (ret: int, end: nat, erange: bool)
    requires BaseOk(base)
    ensures var n := Parse(nptr, base);
            && ret == Clamped(n)
            && (erange <==> ret != Exact(n))
            && end == if n.ds == [] then 0 else |nptr| - |n.rest| + |n.ds|
  {
    var neg, s, b := Prologue(nptr, base);
    var cutoff: nat := if neg then -LONG_MIN else LONG_MAX;
    ghost var limit := cutoff;
    var cutlim := Mod(cutoff, b);
    cutoff := Div(cutoff, b);
    var acc, any, i := Accumulate(nptr, s, b, cutoff, cutlim, limit);
    erange := any < 0;
    if any < 0 {
      ret := if neg then LONG_MIN else LONG_MAX;
    } else {
      ret := acc;
      if neg { ret := -ret; }
    }
    end := if any != 0 then i else 0;
  }

  /** strtoul: as strtol with the limit ULONG_MAX; a minus sign negates modulo 2^32. */
  method Strtoul(nptr: string, base: nat) returns (ret: int, end: nat, erange: bool)
    requires BaseOk(base)
    ensures var n := Parse(nptr, base);
            && ret == UnsignedOf(n)
            && (erange <==> Value(n) > ULONG_MAX)
            && end == if n.ds == [] then 0 else |nptr| - |n.rest| + |n.ds|
  {
    var neg, s, b := Prologue(nptr, base);
    var cutoff, cutlim := Div(ULONG_MAX, b), Mod(ULONG_MAX, b);
    var acc, any, i := Accumulate(nptr, s, b, cutoff, cutlim, ULONG_MAX);
    erange := any < 0;
    if any < 0 {
      ret := ULONG_MAX;
    } else {
      ret := if neg && acc != 0 then ULONG_MAX + 1 - acc else acc;
    }
    end := if any != 0 then i else 0;
  }

  /** What strtoul gives for a numeral. */
  function UnsignedOf(n: Numeral): int {
    if Value(n) > ULONG_MAX then ULONG_MAX
    else if n.neg then (ULONG_MAX + 1 - Value(n)) % (ULONG_MAX + 1)
    else Value(n)
  }

  /** It is the number modulo 2^32, unless that number without its sign is no unsigned long. */
  lemma UnsignedIsModulo(n: Numeral)
    ensures Value(n) <= 0xFFFF_FFFF ==> UnsignedOf(n) == Exact(n) % 0x1_0000_0000
    ensures Value(n) > 0xFFFF_FFFF ==> UnsignedOf(n) == 0xFFFF_FFFF
  {
  }
}
