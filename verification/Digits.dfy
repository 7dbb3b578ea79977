/** Products, quotients and remainders by repeated addition and subtraction, so that the proofs about
    block indices stay linear. */
module Digits {

  function Times(e: nat, n: nat): nat { if n == 0 then 0 else Times(e, n - 1) + e }

  function Div(x: nat, e: nat): nat
    requires e > 0
  {
    if x < e then 0 else Div(x - e, e) + 1
  }

  function Mod(x: nat, e: nat): nat
    requires e > 0
  {
    if x < e then x else Mod(x - e, e)
  }

  lemma {:induction false} TimesIsProduct(e: nat, n: nat)
    ensures Times(e, n) == e * n
  {
    if n > 0 { TimesIsProduct(e, n - 1); }
  }

  lemma {:induction false} DivMod(x: nat, e: nat)
    requires e > 0
    ensures Times(e, Div(x, e)) + Mod(x, e) == x && Mod(x, e) < e
  {
    if x >= e { DivMod(x - e, e); }
  }

  /** Quotient and remainder are the only digits. */
  lemma {:induction false} OnlyDigits(e: nat, q: nat, r: nat)
    requires r < e
    ensures Div(Times(e, q) + r, e) == q && Mod(Times(e, q) + r, e) == r
  {
    if q > 0 { OnlyDigits(e, q - 1, r); }
  }

  lemma AsProduct(e: nat, q: nat, r: nat, x: nat)
    requires r < e && e * q + r == x
    ensures Div(x, e) == q && Mod(x, e) == r
  {
    TimesIsProduct(e, q);
    OnlyDigits(e, q, r);
  }

  /** They are the operators of the same name. */
  lemma AreOperators(x: nat, e: nat)
    requires e > 0
    ensures Div(x, e) == x / e && Mod(x, e) == x % e
  {
    AsProduct(e, x / e, x % e, x);
  }

  lemma {:induction false} Below(e: nat, q: nat, r: nat, n: nat)
    requires q < n && r < e
    ensures Times(e, q) + r < Times(e, n)
  {
    if q < n - 1 { Below(e, q, r, n - 1); }
  }

  lemma {:induction false} Above(e: nat, x: nat, n: nat)
    requires e > 0
    ensures Div(x, e) < n <==> x < Times(e, n)
  {
    if n > 0 && x >= e { Above(e, x - e, n - 1); }
  }

  lemma {:induction false} TimesSum(e: nat, a: nat, b: nat)
    ensures Times(e, a + b) == Times(e, a) + Times(e, b)
  {
    if b > 0 { TimesSum(e, a, b - 1); }
  }

  lemma {:induction false} TimesTwice(e: nat, n: nat, i: nat)
    ensures Times(e, Times(n, i)) == Times(Times(e, n), i)
  {
    if i > 0 {
      TimesTwice(e, n, i - 1);
      TimesSum(e, Times(n, i - 1), n);
    }
  }

  lemma {:induction false} TimesOne(n: nat)
    ensures Times(1, n) == n
  {
    if n > 0 { TimesOne(n - 1); }
  }

  /** Dividing by e * e is dividing by e twice. */
  lemma DivideTwice(e: nat, x: nat)
    requires e > 0
    ensures Times(e, e) > 0 && Div(x, Times(e, e)) == Div(Div(x, e), e)
    ensures x == Times(Times(e, e), Div(x, Times(e, e))) + (Times(e, Mod(Div(x, e), e)) + Mod(x, e))
  {
    var y := Div(x, e);
    var i, j, k := Div(y, e), Mod(y, e), Mod(x, e);
    DivMod(x, e);
    DivMod(y, e);
    TimesSum(e, Times(e, i), j);
    TimesTwice(e, e, i);
    Below(e, j, k, e);
    OnlyDigits(Times(e, e), i, Times(e, j) + k);
  }
}
