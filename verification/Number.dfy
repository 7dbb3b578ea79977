/** number, the integer formats of vsprintf (src/libc/stdio/vsprintf.c), and its inverses. */
module NumberText {
  import opened Common
  import opened Digits
  import opened Numerals

  datatype Flags = Flags(zeropad: bool, signed: bool, plus: bool, space: bool, left: bool, special: bool, small: bool)

  predicate Base(base: nat) { 2 <= base <= 36 }

  function DigitChar(d: nat, small: bool): (c: char)
    requires d < 36
    ensures DigitValue(c) == d && !IsSpace(c) && c != '-' && c != '+'
    ensures d != 33 ==> c != 'x' && c != 'X'
  {
    if d < 10 then ('0' as int + d) as char
    else if small then ('a' as int + d - 10) as char
    else ('A' as int + d - 10) as char
  }

  lemma SmallTable(d: nat)
    requires d < 36
    ensures DigitChar(d, true) == "0123456789abcdefghijklmnopqrstuvwxyz"[d]
  {
  }

  lemma LargeTable(d: nat)
    requires d < 36
    ensures DigitChar(d, false) == "0123456789ABCDEFGHIJKLMNOPQRSTUVWXYZ"[d]
  {
  }

  /** The digits come from the two tables: of 10 and more, they are lower case exactly for SMALL. */
  lemma DigitTables(d: nat, small: bool)
    requires d < 36
    ensures DigitChar(d, small) == if small then "0123456789abcdefghijklmnopqrstuvwxyz"[d]
                                   else "0123456789ABCDEFGHIJKLMNOPQRSTUVWXYZ"[d]
    ensures d >= 10 ==> ('a' <= DigitChar(d, small) <= 'z' <==> small)
  {
    if small { SmallTable(d); } else { LargeTable(d); }
  }

  /** The digits of n, the last one first. */
  function Reversed(n: nat, base: nat): (ds: seq<nat>)
    requires Base(base)
    ensures forall k :: 0 <= k < |ds| ==> ds[k] < base
  {
    if n == 0 then [] else
      DivMod(n, base);
      DivSmaller(n, base);
      [Mod(n, base)] + Reversed(Div(n, base), base)
  }

  /** Dividing by a base at least halves. */
  lemma DivSmaller(n: nat, base: nat)
    requires base >= 2
    ensures 2 * Div(n, base) <= n
  {
    DivMod(n, base);
    AtLeastTwice(base, Div(n, base));
  }

  lemma {:induction false} AtLeastTwice(base: nat, q: nat)
    requires base >= 2
    ensures Times(base, q) >= 2 * q
  {
    if q > 0 { AtLeastTwice(base, q - 1); }
  }

  lemma {:induction false} FewDigits(n: nat, base: nat, k: nat)
    requires Base(base) && n < Pow2(k)
    ensures |Reversed(n, base)| <= k
    decreases k
  {
    if n > 0 {
      DivSmaller(n, base);
      FewDigits(Div(n, base), base, k - 1);
    }
  }

  function DigitsOf(n: nat, base: nat): seq<nat>
    requires Base(base)
  {
    if n == 0 then [0] else Flip(Reversed(n, base))
  }

  function Flip(s: seq<nat>): (t: seq<nat>)
    ensures |t| == |s| && forall k :: 0 <= k < |s| ==> t[k] == s[|s| - 1 - k]
  {
    if s == [] then [] else Flip(s[1..]) + [s[0]]
  }

  function Chars(ds: seq<nat>, small: bool): (s: string)
    requires forall k :: 0 <= k < |ds| ==> ds[k] < 36
    ensures |s| == |ds| && forall k :: 0 <= k < |s| ==> s[k] == DigitChar(ds[k], small)
  {
    seq(|ds|, k requires 0 <= k < |ds| => DigitChar(ds[k], small))
  }

  function Repeat(c: char, n: int): (s: string)
    ensures |s| == (if n > 0 then n else 0) && forall k :: 0 <= k < |s| ==> s[k] == c
  {
    if n <= 0 then "" else [c] + Repeat(c, n - 1)
  }

  // ----- the parts of the text

  /** The magnitude printed: with SIGN that of num, else num modulo 2^32. */
  function Magnitude(num: int, f: Flags): (n: nat)
    requires -0x8000_0000 <= num < 0x8000_0000
    ensures n <= 0xFFFF_FFFF
  {
    if num >= 0 then num else if f.signed then -num else num + 0x1_0000_0000
  }

  function SignText(num: int, f: Flags): string {
    if f.signed && num < 0 then "-" else if f.plus then "+" else if f.space then " " else ""
  }

  function PrefixText(base: nat, f: Flags): string {
    if !f.special then "" else if base == 8 then "0" else if base == 16 then ['0', DigitChar(33, f.small)] else ""
  }

  /** What the field width leaves for padding. */
  function Spare(num: int, base: nat, size: int, precision: int, f: Flags): int
    requires -0x8000_0000 <= num < 0x8000_0000 && Base(base)
  {
    var n := |DigitsOf(Magnitude(num, f), base)|;
    size - |SignText(num, f)| - |PrefixText(base, f)| - (if n > precision then n else precision)
  }

  function Zeros(num: int, base: nat, size: int, precision: int, f: Flags): int
    requires -0x8000_0000 <= num < 0x8000_0000 && Base(base)
  {
    var pad, more := Spare(num, base, size, precision, f), precision - |DigitsOf(Magnitude(num, f), base)|;
    (if f.zeropad && !f.left && pad > 0 then pad else 0) + (if more > 0 then more else 0)
  }

  lemma DigitsInBase(n: nat, base: nat)
    requires Base(base)
    ensures DigitsOf(n, base) != [] && forall k :: 0 <= k < |DigitsOf(n, base)| ==> DigitsOf(n, base)[k] < base
  {
  }

  function DigitText(n: nat, base: nat, small: bool): (s: string)
    requires Base(base)
    ensures |s| == |DigitsOf(n, base)|
  {
    DigitsInBase(n, base);
    Chars(DigitsOf(n, base), small)
  }

  /** Spaces on the left, sign, prefix, zeros, digits, spaces on the right. */
  function Text(num: int, base: nat, size: int, precision: int, f: Flags): string
    requires -0x8000_0000 <= num < 0x8000_0000 && Base(base)
  {
    var pad := Spare(num, base, size, precision, f);
    Repeat(' ', if !f.left && !f.zeropad then pad else 0) + SignText(num, f) + PrefixText(base, f)
    + Repeat('0', Zeros(num, base, size, precision, f)) + DigitText(Magnitude(num, f), base, f.small)
    + Repeat(' ', if f.left then pad else 0)
  }

  /** What stands before the digits: a minus sign for a negative signed number, else + or a space as asked
      for; then 0 for base 8, and 0x or 0X, in the case of the digits, for base 16. */
  lemma SignAndPrefix(num: int, base: nat, f: Flags)
    ensures f.signed && num < 0 ==> SignText(num, f) == "-"
    ensures !(f.signed && num < 0) && f.plus ==> SignText(num, f) == "+"
    ensures !(f.signed && num < 0) && !f.plus ==> SignText(num, f) == if f.space then " " else ""
    ensures PrefixText(base, f) == if !f.special then "" else if base == 8 then "0"
                                   else if base != 16 then "" else if f.small then "0x" else "0X"
  {
  }

  /** What is printed without a field width. */
  function Bare(num: int, base: nat, precision: int, f: Flags): string
    requires -0x8000_0000 <= num < 0x8000_0000 && Base(base)
  {
    Text(num, base, 0, precision, f)
  }

  lemma BareIs(num: int, base: nat, precision: int, f: Flags)
    requires -0x8000_0000 <= num < 0x8000_0000 && Base(base)
    ensures Bare(num, base, precision, f) ==
            SignText(num, f) + PrefixText(base, f)
            + Repeat('0', precision - |DigitsOf(Magnitude(num, f), base)|) + DigitText(Magnitude(num, f), base, f.small)
  {
    hide SignText, PrefixText, DigitText, DigitsOf, Magnitude, Repeat;
    var (sign, prefix, digits) := (SignText(num, f), PrefixText(base, f), DigitText(Magnitude(num, f), base, f.small));
    var zeros := Repeat('0', precision - |DigitsOf(Magnitude(num, f), base)|);
    assert Repeat(' ', 0) == "" && Spare(num, base, 0, precision, f) <= 0;
    assert Repeat(' ', if f.left then Spare(num, base, 0, precision, f) else 0) == "";
    assert Repeat(' ', if !f.left && !f.zeropad then Spare(num, base, 0, precision, f) else 0) == "";
    assert Repeat('0', Zeros(num, base, 0, precision, f)) == zeros;
    assert "" + sign + prefix + zeros + digits + "" == sign + prefix + zeros + digits;
  }

  /** A field width adds spaces on the right for LEFT, else on the left, or with ZEROPAD zeros between the
      prefix and the digits, as a larger precision would. */
  lemma Padding(num: int, base: nat, size: int, precision: int, f: Flags)
    requires -0x8000_0000 <= num < 0x8000_0000 && Base(base)
    ensures var (text, bare) := (Text(num, base, size, precision, f), Bare(num, base, precision, f));
            && (f.left ==> text == bare + Repeat(' ', size - |bare|))
            && (!f.left && !f.zeropad ==> text == Repeat(' ', size - |bare|) + bare)
            && (!f.left && f.zeropad ==>
                  text == Bare(num, base, Max(precision, size - |SignText(num, f)| - |PrefixText(base, f)|), f))
  {
    hide Text, Bare, SignText, PrefixText;
    if f.left || !f.zeropad {
      SpacePadding(num, base, size, precision, f);
    } else {
      ZeroPadding(num, base, size, precision, f);
    }
  }

  lemma Joined(a: string, b: string, c: string, d: string, e: string)
    ensures "" + a + b + c + d + e == (a + b + c + d) + e
    ensures e + a + b + c + d + "" == e + (a + b + c + d)
  {
  }

  lemma SpacePadding(num: int, base: nat, size: int, precision: int, f: Flags)
    requires -0x8000_0000 <= num < 0x8000_0000 && Base(base) && (f.left || !f.zeropad)
    ensures var (text, bare) := (Text(num, base, size, precision, f), Bare(num, base, precision, f));
            text == if f.left then bare + Repeat(' ', size - |bare|) else Repeat(' ', size - |bare|) + bare
  {
    hide SignText, PrefixText, DigitText, DigitsOf, Magnitude, Bare;
    var pad, bare := Spare(num, base, size, precision, f), Bare(num, base, precision, f);
    BareIs(num, base, precision, f);
    assert pad == size - |bare|;
    hide Repeat, Spare;
    assert Repeat(' ', 0) == "";
    Joined(SignText(num, f), PrefixText(base, f), Repeat('0', precision - |DigitsOf(Magnitude(num, f), base)|),
           DigitText(Magnitude(num, f), base, f.small), Repeat(' ', pad));
    ZerosAlone(num, base, size, precision, f);
  }

  lemma ZerosAlone(num: int, base: nat, size: int, precision: int, f: Flags)
    requires -0x8000_0000 <= num < 0x8000_0000 && Base(base) && (f.left || !f.zeropad)
    ensures Repeat('0', Zeros(num, base, size, precision, f))
         == Repeat('0', precision - |DigitsOf(Magnitude(num, f), base)|)
  {
    hide DigitsOf, Magnitude;
  }

  lemma ZeroPadding(num: int, base: nat, size: int, precision: int, f: Flags)
    requires -0x8000_0000 <= num < 0x8000_0000 && Base(base) && !f.left && f.zeropad
    ensures var m := Max(precision, size - |SignText(num, f)| - |PrefixText(base, f)|);
            Text(num, base, size, precision, f) == Bare(num, base, m, f)
  {
    hide SignText, PrefixText, DigitText, DigitsOf, Magnitude;
    var n, m := |DigitsOf(Magnitude(num, f), base)|, Max(precision, size - |SignText(num, f)| - |PrefixText(base, f)|);
    BareIs(num, base, m, f);
    RepeatSum('0', if Spare(num, base, size, precision, f) > 0 then Spare(num, base, size, precision, f) else 0,
              if precision > n then precision - n else 0);
  }

  lemma {:induction false} RepeatSum(c: char, a: nat, b: nat)
    ensures Repeat(c, a + b) == Repeat(c, a) + Repeat(c, b)
  {
    if a > 0 { RepeatSum(c, a - 1, b); }
  }

  function Max(a: int, b: int): int { if a > b then a else b }

  /** The length is the field width, or what sign, prefix and digits need if that is more. */
  lemma TextLength(num: int, base: nat, size: int, precision: int, f: Flags)
    requires -0x8000_0000 <= num < 0x8000_0000 && Base(base)
    ensures |Text(num, base, size, precision, f)| ==
            Max(size, |SignText(num, f)| + |PrefixText(base, f)| + Max(precision, |DigitsOf(Magnitude(num, f), base)|))
  {
  }
}

/** number itself, writing through a pointer into the caller's buffer. */
module Vsprintf {
  import opened Common
  import opened Digits
  import opened NumberText

  const NULL: int := -1

  /** while(n-- > 0) *str++ = c */
  method Fill(str: array<char>, at: nat, c: char, n: int) returns (end: nat, left: int)
    requires at + n <= str.Length && at <= str.Length
    modifies str
    ensures end == at + |Repeat(c, n)| && end <= str.Length && left == if n > 0 then -1 else n - 1
    ensures str[..end] == old(str[..at]) + Repeat(c, n)
    ensures forall k :: end <= k < str.Length ==> str[k] == old(str[k])
  {
    end, left := at, n;
    while left > 0
      invariant end == at + (if n > 0 then n - left else 0) && (n > 0 ==> 0 <= left) && left <= n
                && (n <= 0 ==> left == n)
      invariant end <= str.Length && str[..at] == old(str[..at])
      invariant forall k :: end <= k < str.Length ==> str[k] == old(str[k])
      invariant forall k :: at <= k < end ==> str[k] == c
    {
      str[end] := c;
      end := end + 1;
      left := left - 1;
    }
    left := left - 1;
    assert str[..end] == str[..at] + Repeat(c, n);
  }

  lemma NextDigit(n: nat, base: nat)
    requires Base(base)
    ensures n == 0 ==> Reversed(n, base) == []
    ensures n > 0 ==>
              Div(n, base) < n && Mod(n, base) < base
              && Reversed(n, base) == [Mod(n, base)] + Reversed(Div(n, base), base)
  {
    DivMod(n, base);
    DivSmaller(n, base);
  }

  lemma Fits(n: nat, base: nat)
    requires Base(base) && n <= 0xFFFF_FFFF
    ensures |Reversed(n, base)| <= 32
  {
    ThirtyTwo();
    FewDigits(n, base, 32);
  }

  lemma ThirtyTwo()
    ensures Pow2(32) == 0x1_0000_0000
  {
    assert Pow2(8) == 0x100;
    assert Pow2(16) == 0x1_0000;
    assert Pow2(24) == 0x100_0000;
  }

  lemma ZeroChar(small: bool)
    ensures DigitChar(0, small) == '0'
  {
  }

  /** The loop that divides n down to zero. */
  method DivideOut(tmp: array<char>, n: nat, base: nat, small: bool) returns (i: nat)
    requires Base(base) && |Reversed(n, base)| <= tmp.Length
    modifies tmp
    ensures i == |Reversed(n, base)| <= tmp.Length
    ensures forall k :: 0 <= k < i ==> Reversed(n, base)[k] < base && tmp[k] == DigitChar(Reversed(n, base)[k], small)
  {
    hide DigitChar, Div, Mod, Times, Reversed;
    ghost var all := Reversed(n, base);
    ghost var done: seq<nat> := [];
    i := 0;
    var num := n;
    while num != 0
      invariant i == |done| && all == done + Reversed(num, base)
      invariant forall k :: 0 <= k < i ==> done[k] < base && tmp[k] == DigitChar(done[k], small)
      decreases num
    {
      NextDigit(num, base);
      ghost var d, rest := Mod(num, base), Reversed(Div(num, base), base);
      assert done + ([d] + rest) == (done + [d]) + rest;
      tmp[i] := DigitChar(Mod(num, base), small);
      done := done + [d];
      num := Div(num, base);
      i := i + 1;
    }
    NextDigit(0, base);
    assert all == done;
  }

  /** The digits of n in tmp, the last one first. */
  method FillTmp(tmp: array<char>, n: nat, base: nat, small: bool) returns (i: nat)
    requires Base(base) && n <= 0xFFFF_FFFF && tmp.Length == 36
    modifies tmp
    ensures var ds := DigitsOf(n, base);
            i == |ds| <= 32 && forall k :: 0 <= k < i ==> ds[k] < base && tmp[i - 1 - k] == DigitChar(ds[k], small)
  {
    hide DigitChar, Reversed, Flip;
    if n == 0 {
      ZeroChar(small);
      tmp[0] := '0';
      return 1;
    }
    Fits(n, base);
    i := DivideOut(tmp, n, base, small);
  }

  /** while(i-- > 0) *str++ = tmp[i] */
  method CopyTmp(str: array<char>, at: nat, tmp: array<char>, n: nat, ghost text: string) returns (end: nat)
    requires at + n <= str.Length && n == |text| <= tmp.Length && str != tmp
    requires forall k :: 0 <= k < n ==> tmp[n - 1 - k] == text[k]
    modifies str
    ensures end == at + n && str[..end] == old(str[..at]) + text
    ensures forall k :: end <= k < str.Length ==> str[k] == old(str[k])
  {
    end := at;
    var i := n;
    while i > 0
      invariant 0 <= i <= n && end == at + n - i && str[..at] == old(str[..at])
      invariant forall k :: end <= k < str.Length ==> str[k] == old(str[k])
      invariant forall k :: 0 <= k < n - i ==> str[at + k] == text[k]
    {
      i := i - 1;
      assert tmp[n - 1 - (n - 1 - i)] == text[n - 1 - i];
      str[end] := tmp[i];
      end := end + 1;
    }
    assert str[..end] == str[..at] + text;
  }

  /** if(sign) *str++ = sign */
  method PutSign(str: array<char>, at: nat, sign: char, ghost text: string) returns (end: nat)
    requires text == (if sign == '\0' then "" else [sign]) && at + |text| <= str.Length
    modifies str
    ensures end == at + |text| && str[..end] == old(str[..at]) + text
    ensures forall k :: end <= k < str.Length ==> str[k] == old(str[k])
  {
    end := at;
    if sign != '\0' {
      str[end] := sign;
      end := end + 1;
    }
  }

  method PutPrefix(str: array<char>, at: nat, base: nat, f: Flags) returns (end: nat)
    requires at + |PrefixText(base, f)| <= str.Length
    modifies str
    ensures end == at + |PrefixText(base, f)|
    ensures str[..end] == old(str[..at]) + PrefixText(base, f)
    ensures forall k :: end <= k < str.Length ==> str[k] == old(str[k])
  {
    hide DigitChar;
    end := at;
    if f.special {
      if base == 8 {
        str[end] := '0';
        end := end + 1;
      } else if base == 16 {
        str[end] := '0';
        end := end + 1;
        str[end] := DigitChar(33, f.small);
        end := end + 1;
      }
    }
  }

  lemma {:induction false} RepeatSum(c: char, a: int, b: int)
    requires a >= 0 && b >= 0
    ensures Repeat(c, a) + Repeat(c, b) == Repeat(c, a + b)
  {
    if a > 0 {
      RepeatSum(c, a - 1, b);
    }
  }

  /** The parts of number's text, in the order in which it writes them. */
  function Parts(num: int, base: nat, size: int, precision: int, f: Flags): (p: seq<string>)
    requires -0x8000_0000 <= num < 0x8000_0000 && Base(base)
    ensures |p| == 7
  {
    var pad := Spare(num, base, size, precision, f);
    var more := precision - |DigitsOf(Magnitude(num, f), base)|;
    [Repeat(' ', if !f.left && !f.zeropad then pad else 0), SignText(num, f), PrefixText(base, f),
     Repeat('0', if !f.left && f.zeropad then pad else 0), Repeat('0', more),
     DigitText(Magnitude(num, f), base, f.small), Repeat(' ', if f.left then pad else 0)]
  }

  lemma PartsAreText(num: int, base: nat, size: int, precision: int, f: Flags)
    requires -0x8000_0000 <= num < 0x8000_0000 && Base(base)
    ensures var p := Parts(num, base, size, precision, f);
            Text(num, base, size, precision, f) == p[0] + p[1] + p[2] + p[3] + p[4] + p[5] + p[6]
  {
    hide SignText, PrefixText, DigitText, DigitsOf;
    var p := Parts(num, base, size, precision, f);
    RepeatSum('0', |p[3]|, |p[4]|);
    assert p[0] + p[1] + p[2] + p[3] + p[4] == p[0] + p[1] + p[2] + (p[3] + p[4]);
  }

  /** What number writes before the digits: padding on the left, sign and prefix. */
  method EmitFront(str: array<char>, at: nat, sign: char, pad: int, base: nat, f: Flags, ghost p: seq<string>)
    returns (end: nat, left: int)
    requires |p| == 7 && p[0] == Repeat(' ', if !f.left && !f.zeropad then pad else 0)
    requires p[1] == (if sign == '\0' then "" else [sign]) && p[2] == PrefixText(base, f)
    requires p[3] == Repeat('0', if !f.left && f.zeropad then pad else 0)
    requires at + |p[0] + p[1] + p[2] + p[3]| <= str.Length
    modifies str
    ensures end == at + |p[0] + p[1] + p[2] + p[3]| && (if f.left then left == pad else left < 0)
    ensures str[..end] == old(str[..at]) + (p[0] + p[1] + p[2] + p[3])
    ensures forall k :: end <= k < str.Length ==> str[k] == old(str[k])
  {
    hide PrefixText, Repeat;
    NoRepeat(' ', 0);
    NoRepeat('0', 0);
    Chained(str[..at], p[0], p[1], p[2], p[3]);
    left := pad;
    end := at;
    if !f.zeropad && !f.left {
      end, left := Fill(str, end, ' ', left);
    }
    end := PutSign(str, end, sign, p[1]);
    end := PutPrefix(str, end, base, f);
    if !f.left {
      NoRepeat(' ', left);
      end, left := Fill(str, end, if f.zeropad then '0' else ' ', left);
    }
  }

  lemma Chained(s: string, a: string, b: string, c: string, d: string)
    ensures s + a + b + c + d == s + (a + b + c + d)
  {
  }

  lemma NoRepeat(c: char, n: int)
    ensures n <= 0 ==> Repeat(c, n) == ""
  {
  }

  /** What it writes then: zeros up to the precision, the digits, padding on the right. */
  method EmitBack(str: array<char>, at: nat, tmp: array<char>, i: nat, more: int, left: int, ghost p: seq<string>)
    returns (end: nat)
    requires |p| == 7 && p[4] == Repeat('0', more) && p[6] == Repeat(' ', left) && str != tmp
    requires i == |p[5]| <= tmp.Length && forall k :: 0 <= k < i ==> tmp[i - 1 - k] == p[5][k]
    requires at + |p[4] + p[5] + p[6]| <= str.Length
    modifies str
    ensures end == at + |p[4] + p[5] + p[6]| && str[..end] == old(str[..at]) + (p[4] + p[5] + p[6])
    ensures forall k :: end <= k < str.Length ==> str[k] == old(str[k])
  {
    hide Repeat;
    var zeros, rest;
    end, zeros := Fill(str, at, '0', more);
    end := CopyTmp(str, end, tmp, i, p[5]);
    end, rest := Fill(str, end, ' ', left);
  }

  lemma PartsMeasure(num: int, base: nat, size: int, precision: int, f: Flags)
    requires -0x8000_0000 <= num < 0x8000_0000 && Base(base)
    ensures var (p, pad) := (Parts(num, base, size, precision, f), Spare(num, base, size, precision, f));
            && p[0] == Repeat(' ', if !f.left && !f.zeropad then pad else 0)
            && p[3] == Repeat('0', if !f.left && f.zeropad then pad else 0)
            && p[4] == Repeat('0', precision - |DigitsOf(Magnitude(num, f), base)|)
            && p[6] == Repeat(' ', if f.left then pad else 0)
            && p[1] == SignText(num, f) && p[2] == PrefixText(base, f)
            && p[5] == DigitText(Magnitude(num, f), base, f.small)
            && p[0] + p[1] + p[2] + p[3] + p[4] + p[5] + p[6] == (p[0] + p[1] + p[2] + p[3]) + (p[4] + p[5] + p[6])
  {
    hide Repeat, Digits.Div, Digits.Mod, DigitsOf, DigitText, Magnitude, SignText, PrefixText;
  }

  /** The second half of number: everything it writes, from the spare width pad and the digits in tmp. */
  method Emit(str: array<char>, at: nat, tmp: array<char>, i: nat, sign: char, pad: int,
              ghost num: int, base: nat, ghost size: int, precision: int, f: Flags) returns (end: nat)
    requires -0x8000_0000 <= num < 0x8000_0000 && Base(base) && str != tmp
    requires pad == Spare(num, base, size, precision, f) && SignText(num, f) == if sign == '\0' then "" else [sign]
    requires i == |DigitsOf(Magnitude(num, f), base)| <= tmp.Length
    requires forall k :: 0 <= k < i ==> tmp[i - 1 - k] == DigitText(Magnitude(num, f), base, f.small)[k]
    requires at + |Text(num, base, size, precision, f)| <= str.Length
    modifies str
    ensures end == at + |Text(num, base, size, precision, f)|
    ensures str[..end] == old(str[..at]) + Text(num, base, size, precision, f)
    ensures forall k :: end <= k < str.Length ==> str[k] == old(str[k])
  {
    hide Text, Spare, SignText, PrefixText, DigitText, DigitsOf, Repeat, Parts;
    PartsAreText(num, base, size, precision, f);
    PartsMeasure(num, base, size, precision, f);
    ghost var p := Parts(num, base, size, precision, f);
    var left;
    end, left := EmitFront(str, at, sign, pad, base, f, p);
    NoRepeat(' ', left);
    NoRepeat(' ', 0);
    end := EmitBack(str, end, tmp, i, precision - i, left, p);
  }

  /** The first half of number: the sign, and what sign and prefix leave of the field width. */
  method Measure(num: int, base: nat, size: int, f: Flags) returns (sign: char, n: nat, width: int)
    requires -0x8000_0000 <= num < 0x8000_0000 && Base(base)
    ensures n == Magnitude(num, f) && SignText(num, f) == if sign == '\0' then "" else [sign]
    ensures width == size - |SignText(num, f)| - |PrefixText(base, f)|
  {
    hide DigitChar;
    sign, n := '\0', if num < 0 then (if f.signed then -num else num + 0x1_0000_0000) else num;
    if f.signed && num < 0 {
      sign := '-';
    } else if f.plus {
      sign := '+';
    } else if f.space {
      sign := ' ';
    }
    width := size;
    if sign != '\0' {
      width := width - 1;
    }
    if f.special {
      if base == 16 {
        width := width - 2;
      } else if base == 8 {
        width := width - 1;
      }
    }
  }

  /** number: the text at str[at..], and where it ends; NULL for a base it does not know. */
  method Number(str: array<char>, at: nat, num: int, base: int, size: int, precision: int, f: Flags) returns (end: int)
    requires -0x8000_0000 <= num < 0x8000_0000
    requires at <= str.Length && (2 <= base <= 36 ==> at + |Text(num, base, size, precision, f)| <= str.Length)
    modifies str
    ensures !(2 <= base <= 36) ==> end == NULL && str[..] == old(str[..])
    ensures 2 <= base <= 36 ==>
              end == at + |Text(num, base, size, precision, f)|
              && str[..end] == old(str[..at]) + Text(num, base, size, precision, f)
              && forall k :: end <= k < str.Length ==> str[k] == old(str[k])
  {
    hide Text, Reversed, Repeat, SignText, PrefixText, DigitsOf, DigitChar, Magnitude;
    if base < 2 || base > 36 {
      return NULL;
    }
    var sign, n, width := Measure(num, base, size, f);
    var tmp := new char[36];
    var i := FillTmp(tmp, n, base, f.small);
    width := width - if i > precision then i else precision;
    end := Emit(str, at, tmp, i, sign, width, num, base, size, precision, f);
  }
}

/** Printing then parsing gives the number back. */
module NumberRoundTrip {
  import opened Digits
  import opened Numerals
  import opened NumberText
  import opened Strtol

  lemma {:induction false} SkipRepeat(a: int, r: string)
    ensures SkipSpace(Repeat(' ', a) + r) == SkipSpace(r)
  {
    if a > 0 {
      SkipRepeat(a - 1, r);
      assert (Repeat(' ', a) + r)[1..] == Repeat(' ', a - 1) + r;
    } else {
      assert Repeat(' ', a) + r == r;
    }
  }

  ghost predicate AllBelow(ds: seq<nat>, base: nat) { forall k :: 0 <= k < |ds| ==> ds[k] < base }

  lemma {:induction false} RunChars(ds: seq<nat>, small: bool, base: nat, rest: string)
    requires AllBelow(ds, base) && base <= 36 && (rest == "" || DigitValue(rest[0]) >= base)
    ensures Run(Chars(ds, small) + rest, base) == ds
    decreases |ds|
  {
    hide DigitChar, DigitValue, Chars;
    var s := Chars(ds, small) + rest;
    if ds == [] {
      assert s == rest;
    } else {
      RunChars(ds[1..], small, base, rest);
      assert s[1..] == Chars(ds[1..], small) + rest;
      assert s[0] == DigitChar(ds[0], small);
    }
  }

  function ZeroDigits(z: int): (ds: seq<nat>)
    ensures |ds| == (if z > 0 then z else 0) && forall k :: 0 <= k < |ds| ==> ds[k] == 0
  {
    if z <= 0 then [] else [0] + ZeroDigits(z - 1)
  }

  lemma {:induction false} HornerZeros(z: int, ds: seq<nat>, base: nat)
    ensures Horner(ZeroDigits(z) + ds, base, 0) == Horner(ds, base, 0)
  {
    if z > 0 {
      HornerZeros(z - 1, ds, base);
      assert (ZeroDigits(z) + ds)[1..] == ZeroDigits(z - 1) + ds;
    } else {
      assert ZeroDigits(z) + ds == ds;
    }
  }

  lemma {:induction false} HornerLast(ds: seq<nat>, d: nat, base: nat, acc: nat)
    ensures Horner(ds + [d], base, acc) == Times(base, Horner(ds, base, acc)) + d
    decreases |ds|
  {
    if ds == [] {
      assert ds + [d] == [d];
    } else {
      HornerLast(ds[1..], d, base, Times(base, acc) + ds[0]);
      assert (ds + [d])[1..] == ds[1..] + [d];
    }
  }

  lemma {:induction false} HornerFlip(n: nat, base: nat)
    requires Base(base)
    ensures Horner(Flip(Reversed(n, base)), base, 0) == n
  {
    if n > 0 {
      DivMod(n, base);
      DivSmaller(n, base);
      HornerFlip(Div(n, base), base);
      HornerLast(Flip(Reversed(Div(n, base), base)), Mod(n, base), base, 0);
    }
  }

  /** The digits printed are those of the number. */
  lemma DigitsDenote(n: nat, base: nat)
    requires Base(base)
    ensures Horner(DigitsOf(n, base), base, 0) == n
  {
    HornerFlip(n, base);
  }

  /** The base strtol is asked for may be 0 for octal digits behind a 0 and for decimal ones behind none. */
  predicate Asked(asked: nat, ds: seq<nat>, base: nat) {
    ds != [] && (asked == base || (asked == 0 && if ds[0] == 0 then base == 8 else base == 10))
  }

  lemma NotPrefixed(ds: seq<nat>, small: bool, t: int, base: nat, asked: nat)
    requires Base(base) && AllBelow(ds, base) && Asked(asked, ds, base)
    ensures var body := Chars(ds, small) + Repeat(' ', t); !Prefixed(body, asked) && BaseOf(body, asked) == base
  {
    hide DigitChar;
    var body := Chars(ds, small) + Repeat(' ', t);
    assert body[0] == DigitChar(ds[0], small);
    ZeroDigit(ds[0], small);
    if |body| >= 2 {
      assert body[1] == if |ds| >= 2 then DigitChar(ds[1], small) else ' ';
    }
  }

  lemma ZeroDigit(d: nat, small: bool)
    requires d < 36
    ensures DigitChar(d, small) == '0' <==> d == 0
  {
  }

  lemma FirstChar(ds: seq<nat>, small: bool, t: int, base: nat)
    requires Base(base) && ds != [] && AllBelow(ds, base)
    ensures var body := Chars(ds, small) + Repeat(' ', t);
            body != [] && !IsSpace(body[0]) && body[0] != '-' && body[0] != '+'
  {
    var body := Chars(ds, small) + Repeat(' ', t);
    assert body[0] == DigitChar(ds[0], small);
  }

  lemma StopAtSpace(t: int, base: nat)
    requires Base(base)
    ensures Repeat(' ', t) == "" || DigitValue(Repeat(' ', t)[0]) >= base
  {
  }

  /** A numeral between spaces, without a prefix. */
  lemma ParsePlain(a: int, sign: string, ds: seq<nat>, small: bool, t: int, base: nat, asked: nat)
    requires Base(base) && AllBelow(ds, base) && Asked(asked, ds, base)
    requires sign == "" || sign == "-" || sign == "+" || sign == " "
    ensures var n := Parse(Repeat(' ', a) + (sign + (Chars(ds, small) + Repeat(' ', t))), asked);
            n.neg == (sign == "-") && n.base == base && n.ds == ds && |n.rest| == |ds| + |Repeat(' ', t)|
  {
    hide Prefixed, BaseOf, DigitChar, DigitValue, IsSpace, Run, SkipSpace, SkipSign;
    var body := Chars(ds, small) + Repeat(' ', t);
    FirstChar(ds, small, t, base);
    SkipRepeat(a, sign + body);
    AfterSign(sign, body);
    StopAtSpace(t, base);
    RunChars(ds, small, base, Repeat(' ', t));
    NotPrefixed(ds, small, t, base, asked);
  }

  lemma AfterSign(sign: string, body: string)
    requires body != [] && !IsSpace(body[0]) && body[0] != '-' && body[0] != '+'
    requires sign == "" || sign == "-" || sign == "+" || sign == " "
    ensures var t := SkipSpace(sign + body); SkipSign(t) == body && t != [] && (t[0] == '-' <==> sign == "-")
  {
    var s := sign + body;
    if sign == "" {
      assert s == body;
    } else {
      assert s[0] == sign[0] && s[1..] == body;
    }
  }

  /** A numeral in base 16 with its prefix. */
  lemma ParsePrefixed(a: int, sign: string, ds: seq<nat>, small: bool, t: int, asked: nat)
    requires (asked == 16 || asked == 0) && ds != [] && AllBelow(ds, 16)
    requires sign == "" || sign == "-" || sign == "+" || sign == " "
    ensures var n := Parse(Repeat(' ', a) + (sign + (['0', DigitChar(33, small)]
                                                      + (Chars(ds, small) + Repeat(' ', t)))), asked);
            n.neg == (sign == "-") && n.base == 16 && n.ds == ds && |n.rest| == |ds| + |Repeat(' ', t)|
  {
    var body := Chars(ds, small) + Repeat(' ', t);
    var u := ['0', DigitChar(33, small)] + body;
    assert u[0] == '0' && u[1] == DigitChar(33, small) && u[2..] == body;
    SkipRepeat(a, sign + u);
    AfterSign(sign, u);
    RunChars(ds, small, 16, Repeat(' ', t));
  }

  /** The digits of the text, with the zeros before them. */
  function PaddedDigits(num: int, base: nat, size: int, precision: int, f: Flags): (ds: seq<nat>)
    requires -0x8000_0000 <= num < 0x8000_0000 && Base(base)
    ensures ds != [] && AllBelow(ds, base)
  {
    DigitsInBase(Magnitude(num, f), base);
    ZeroDigits(Zeros(num, base, size, precision, f)) + DigitsOf(Magnitude(num, f), base)
  }

  lemma PaddedDenote(num: int, base: nat, size: int, precision: int, f: Flags)
    requires -0x8000_0000 <= num < 0x8000_0000 && Base(base)
    ensures Horner(PaddedDigits(num, base, size, precision, f), base, 0) == Magnitude(num, f)
  {
    DigitsDenote(Magnitude(num, f), base);
    HornerZeros(Zeros(num, base, size, precision, f), DigitsOf(Magnitude(num, f), base), base);
  }

  lemma Grouped(a: string, b: string, c: string, d: string, e: string, g: string)
    ensures a + b + c + d + e + g == a + (b + (c + ((d + e) + g)))
  {
  }

  /** The spaces behind the digits. */
  function Behind(num: int, base: nat, size: int, precision: int, f: Flags): string
    requires -0x8000_0000 <= num < 0x8000_0000 && Base(base)
  {
    Repeat(' ', if f.left then Spare(num, base, size, precision, f) else 0)
  }

  lemma TextParts(num: int, base: nat, size: int, precision: int, f: Flags) returns (a: int, t: int)
    requires -0x8000_0000 <= num < 0x8000_0000 && Base(base)
    ensures Text(num, base, size, precision, f) ==
            Repeat(' ', a) + (SignText(num, f) + (PrefixText(base, f)
              + (Chars(PaddedDigits(num, base, size, precision, f), f.small) + Repeat(' ', t))))
    ensures Repeat(' ', t) == Behind(num, base, size, precision, f)
  {
    hide Horner, DigitsOf, Spare, Zeros, PrefixText, SignText;
    var pad, z := Spare(num, base, size, precision, f), Zeros(num, base, size, precision, f);
    a, t := if !f.left && !f.zeropad then pad else 0, if f.left then pad else 0;
    var ds := DigitText(Magnitude(num, f), base, f.small);
    assert Chars(PaddedDigits(num, base, size, precision, f), f.small) == Repeat('0', z) + ds;
    Grouped(Repeat(' ', a), SignText(num, f), PrefixText(base, f), Repeat('0', z), ds, Repeat(' ', t));
  }

  lemma OctalPrefix(ds: seq<nat>, small: bool, tail: string)
    requires AllBelow(ds, 8)
    ensures AllBelow([0] + ds, 8) && Chars([0] + ds, small) + tail == "0" + (Chars(ds, small) + tail)
    ensures Horner([0] + ds, 8, 0) == Horner(ds, 8, 0)
  {
    hide DigitChar;
    assert ([0] + ds)[1..] == ds;
    assert Chars([0] + ds, small) == "0" + Chars(ds, small);
  }

  /** A text that strtol may be asked to read in that base: its own, or with 0 the one it tells from the text,
      for base 8 and 16 printed with SPECIAL and for base 10 printed without zeros in front. */
  predicate Readable(asked: nat, num: int, base: nat, size: int, precision: int, f: Flags)
    requires -0x8000_0000 <= num < 0x8000_0000 && Base(base)
  {
    || asked == base
    || (asked == 0 && f.special && (base == 8 || base == 16))
    || (asked == 0 && base == 10 && Zeros(num, base, size, precision, f) == 0)
  }

  /** What the text of a number parses to. */
  lemma ParseText(num: int, base: nat, size: int, precision: int, f: Flags, asked: nat)
    requires -0x8000_0000 <= num < 0x8000_0000 && Base(base) && Readable(asked, num, base, size, precision, f)
    ensures var n := Parse(Text(num, base, size, precision, f), asked);
            && n.neg == (f.signed && num < 0) && Value(n) == Magnitude(num, f)
            && (n.base == base || (asked == 0 && num == 0))
            && n.ds != [] && |n.rest| == |n.ds| + |Behind(num, base, size, precision, f)|
  {
    hide Parse, Horner, Text, PaddedDigits, Chars, Repeat, Zeros, DigitsOf, Spare;
    var a, t := TextParts(num, base, size, precision, f);
    PaddedDenote(num, base, size, precision, f);
    var ds, sign := PaddedDigits(num, base, size, precision, f), SignText(num, f);
    if PrefixText(base, f) == "" {
      assert PrefixText(base, f) + (Chars(ds, f.small) + Repeat(' ', t)) == Chars(ds, f.small) + Repeat(' ', t);
      if asked == base {
        ParsePlain(a, sign, ds, f.small, t, base, asked);
      } else {
        FirstDigit(num, base, size, precision, f);
        if num == 0 {
          ParsePlain(a, sign, ds, f.small, t, 8, asked);
          OneZero();
        } else {
          ParsePlain(a, sign, ds, f.small, t, base, asked);
        }
      }
    } else if base == 8 {
      OctalPrefix(ds, f.small, Repeat(' ', t));
      ParsePlain(a, sign, [0] + ds, f.small, t, base, asked);
    } else {
      ParsePrefixed(a, sign, ds, f.small, t, asked);
    }
  }

  lemma OneZero()
    ensures Horner([0], 8, 0) == 0
  {
  }

  lemma FirstDigit(num: int, base: nat, size: int, precision: int, f: Flags)
    requires -0x8000_0000 <= num < 0x8000_0000 && Base(base) && Zeros(num, base, size, precision, f) == 0
    ensures var ds := PaddedDigits(num, base, size, precision, f);
            if num == 0 then ds == [0] else ds[0] != 0
  {
    var n := Magnitude(num, f);
    assert PaddedDigits(num, base, size, precision, f) == DigitsOf(n, base);
    if n > 0 { LastReversed(n, base); }
  }

  lemma {:induction false} LastReversed(n: nat, base: nat)
    requires Base(base) && n > 0
    ensures Reversed(n, base) != [] && Reversed(n, base)[|Reversed(n, base)| - 1] != 0
    decreases n
  {
    DivMod(n, base);
    DivSmaller(n, base);
    if Div(n, base) > 0 {
      LastReversed(Div(n, base), base);
    } else {
      assert Times(base, 0) == 0;
    }
  }

  /** The digits read end where the digits printed do. */
  lemma EndsBehind(num: int, base: nat, size: int, precision: int, f: Flags, asked: nat)
    requires -0x8000_0000 <= num < 0x8000_0000 && Base(base) && Readable(asked, num, base, size, precision, f)
    ensures var (s, n) := (Text(num, base, size, precision, f), Parse(Text(num, base, size, precision, f), asked));
            && n.ds != [] && |n.ds| <= |n.rest| <= |s|
            && s[..|s| - |n.rest| + |n.ds|] + Behind(num, base, size, precision, f) == s
  {
    hide Parse, Text, Readable, Behind;
    ParseText(num, base, size, precision, f, asked);
    var s, n := Text(num, base, size, precision, f), Parse(Text(num, base, size, precision, f), asked);
    TextEnds(num, base, size, precision, f);
    RestIsSuffix(s, asked);
    var k := |s| - |Behind(num, base, size, precision, f)|;
    assert s[..k] + s[k..] == s;
  }

  lemma TextEnds(num: int, base: nat, size: int, precision: int, f: Flags)
    requires -0x8000_0000 <= num < 0x8000_0000 && Base(base)
    ensures var (s, b) := (Text(num, base, size, precision, f), Behind(num, base, size, precision, f));
            |b| <= |s| && s[|s| - |b|..] == b
  {
    hide Repeat, DigitText, SignText, PrefixText, Zeros, Spare;
  }

  lemma {:induction false} SuffixOfSpaces(s: string)
    ensures |SkipSpace(s)| <= |s|
  {
    if s != [] && IsSpace(s[0]) { SuffixOfSpaces(s[1..]); }
  }

  lemma RestIsSuffix(s: string, asked: nat)
    ensures |Parse(s, asked).rest| <= |s|
  {
    SuffixOfSpaces(s);
  }

  /** strtol of a number printed as signed is that number, for every base, width, precision and flags, also
      when it is to tell the base from the text. */
  lemma SignedRoundTrip(num: int, base: nat, size: int, precision: int, f: Flags, asked: nat)
    requires -0x8000_0000 <= num < 0x8000_0000 && Base(base) && f.signed
    requires Readable(asked, num, base, size, precision, f)
    ensures Clamped(Parse(Text(num, base, size, precision, f), asked)) == num
    ensures var (s, n) := (Text(num, base, size, precision, f), Parse(Text(num, base, size, precision, f), asked));
            && n.ds != [] && |n.ds| <= |n.rest| <= |s|
            && s[..|s| - |n.rest| + |n.ds|] + Behind(num, base, size, precision, f) == s
  {
    hide Parse, Text, Readable;
    EndsBehind(num, base, size, precision, f, asked);
    ParseText(num, base, size, precision, f, asked);
  }

  /** strtoul of a number printed as unsigned is that number. */
  lemma UnsignedRoundTrip(num: int, base: nat, size: int, precision: int, f: Flags, asked: nat)
    requires -0x8000_0000 <= num < 0x8000_0000 && Base(base) && !f.signed
    requires Readable(asked, num, base, size, precision, f)
    ensures UnsignedOf(Parse(Text(num, base, size, precision, f), asked))
         == if num >= 0 then num else num + 0x1_0000_0000
  {
    hide Parse, Text, Readable;
    ParseText(num, base, size, precision, f, asked);
  }

  /** strtoul of a number printed as signed is that number modulo 2^32. */
  lemma SignedAsUnsigned(num: int, base: nat, size: int, precision: int, f: Flags, asked: nat)
    requires -0x8000_0000 <= num < 0x8000_0000 && Base(base) && f.signed
    requires Readable(asked, num, base, size, precision, f)
    ensures UnsignedOf(Parse(Text(num, base, size, precision, f), asked)) == num % 0x1_0000_0000
  {
    hide Parse, Text, Readable;
    ParseText(num, base, size, precision, f, asked);
  }
}
