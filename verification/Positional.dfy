/** Numbers written with a fixed number of digits, most significant digit first. */
module Positional {

  function Pow(base: nat, k: nat): nat {
    if k == 0 then 1 else Times(Pow(base, k - 1), base)
  }

  // Multiplication and division have names so that proofs can hide them.
  function Times(x: nat, y: nat): nat {
    x * y
  }

  function Rest(v: nat, base: nat): nat
    requires base > 0
  {
    v / base
  }

  function Last(v: nat, base: nat): nat
    requires base > 0
  {
    v % base
  }

  function Value(s: seq<nat>, base: nat): nat {
    if |s| == 0 then 0 else Times(Value(s[..|s| - 1], base), base) + s[|s| - 1]
  }

  /** The last `k` digits of `v`. */
  function Digits(v: nat, base: nat, k: nat): (s: seq<nat>)
    requires base > 0
    ensures |s| == k
    decreases k
  {
    if k == 0 then [] else Digits(Rest(v, base), base, k - 1) + [Last(v, base)]
  }

  ghost predicate Proper(s: seq<nat>, base: nat) {
    forall i :: 0 <= i < |s| ==> s[i] < base
  }

  // --------------------------------------------------------------- arithmetic

  lemma Division(v: nat, base: nat)
    requires base > 0
    ensures v == Times(Rest(v, base), base) + Last(v, base) && Last(v, base) < base
  {
  }

  lemma Below(x: nat, y: nat, base: nat, d: nat)
    requires x < y && d < base
    ensures Times(x, base) + d < Times(y, base)
  {
    assert (x + 1) * base <= y * base;
  }

  lemma DivMod(q: nat, base: nat, r: nat)
    requires r < base
    ensures Rest(Times(q, base) + r, base) == q && Last(Times(q, base) + r, base) == r
  {
    hide Times, Rest, Last;
    var v := Times(q, base) + r;
    Division(v, base);
    if Rest(v, base) < q { Below(Rest(v, base), q, base, Last(v, base)); }
    if q < Rest(v, base) { Below(q, Rest(v, base), base, r); }
  }

  lemma Associative(x: nat, y: nat, z: nat)
    ensures Times(Times(x, y), z) == Times(x, Times(y, z))
  {
  }

  lemma Distributive(x: nat, y: nat, z: nat)
    ensures Times(x + y, z) == Times(x, z) + Times(y, z)
  {
  }

  // --------------------------------------------------------------- round trip

  lemma {:induction false} DigitsAreProper(v: nat, base: nat, k: nat)
    requires base > 0
    ensures Proper(Digits(v, base, k), base)
    decreases k
  {
    hide Rest, Last;
    if k > 0 {
      DigitsAreProper(Rest(v, base), base, k - 1);
      Division(v, base);
    }
  }

  lemma {:induction false} DigitsOfValue(s: seq<nat>, base: nat)
    requires base > 0 && Proper(s, base)
    ensures Digits(Value(s, base), base, |s|) == s
  {
    hide Times, Rest, Last;
    if |s| > 0 {
      var t := s[..|s| - 1];
      DigitsOfValue(t, base);
      DivMod(Value(t, base), base, s[|s| - 1]);
      assert s == t + [s[|s| - 1]];
    }
  }

  lemma {:induction false} PowPositive(base: nat, k: nat)
    requires base > 0
    ensures Pow(base, k) > 0
  {
    if k > 0 {
      PowPositive(base, k - 1);
      assert Pow(base, k - 1) * base >= base;
    }
  }

  lemma {:induction false} PowSum(base: nat, i: nat, j: nat)
    ensures Pow(base, i + j) == Times(Pow(base, i), Pow(base, j))
  {
    hide Times;
    if j == 0 {
      TimesOne(Pow(base, i));
    } else {
      PowSum(base, i, j - 1);
      Associative(Pow(base, i), Pow(base, j - 1), base);
    }
  }

  lemma SmallRemainder(x: nat, q: nat)
    requires x < q
    ensures Last(x, q) == x
  {
  }

  lemma TimesOne(x: nat)
    ensures Times(x, 1) == x
  {
  }

  lemma DigitStep(v: nat, base: nat, k: nat)
    requires base > 0
    ensures Digits(v, base, k + 1) == Digits(v / base, base, k) + [v % base]
  {
  }

  /** Only the last `k` digits matter, and they give the number back. */
  lemma {:induction false} ValueOfDigits(v: nat, base: nat, k: nat)
    requires base > 0 && Pow(base, k) > 0
    ensures Value(Digits(v, base, k), base) == Last(v, Pow(base, k))
    decreases k
  {
    hide Times, Rest, Last;
    if k == 0 {
      Division(v, Pow(base, 0));
    } else {
      PowPositive(base, k - 1);
      ValueOfDigits(Rest(v, base), base, k - 1);
      var s := Digits(v, base, k);
      assert s[..k - 1] == Digits(Rest(v, base), base, k - 1);
      ModOfProduct(v, base, Pow(base, k - 1));
    }
  }

  lemma ModOfProduct(v: nat, base: nat, p: nat)
    requires base > 0 && p > 0 && Times(p, base) > 0
    ensures Last(v, Times(p, base)) == Times(Last(Rest(v, base), p), base) + Last(v, base)
  {
    hide Times, Rest, Last;
    var high := Rest(v, base);
    var q, r := Rest(high, p), Last(high, p);
    var low := Times(r, base) + Last(v, base);
    Division(v, base);
    Division(high, p);
    Distributive(Times(q, p), r, base);
    Associative(q, p, base);
    Below(r, p, base, Last(v, base));
    DivMod(q, Times(p, base), low);
  }

  lemma {:induction false} ValueBound(s: seq<nat>, base: nat)
    requires base > 0 && Proper(s, base)
    ensures Value(s, base) < Pow(base, |s|)
  {
    hide Times;
    if |s| > 0 {
      var t := s[..|s| - 1];
      ValueBound(t, base);
      Below(Value(t, base), Pow(base, |t|), base, s[|s| - 1]);
    }
  }

  lemma SameValue(a: seq<nat>, b: seq<nat>, base: nat)
    requires base > 0 && |a| == |b| && Proper(a, base) && Proper(b, base)
    ensures Value(a, base) == Value(b, base) <==> a == b
  {
    DigitsOfValue(a, base);
    DigitsOfValue(b, base);
  }

  /** Two numbers have the same last `k` digits exactly when they are congruent. */
  lemma SameDigits(v: nat, w: nat, base: nat, k: nat)
    requires base > 0 && Pow(base, k) > 0
    ensures Digits(v, base, k) == Digits(w, base, k) <==> v % Pow(base, k) == w % Pow(base, k)
  {
    ValueOfDigits(v, base, k);
    ValueOfDigits(w, base, k);
    DigitsAreProper(v, base, k);
    DigitsAreProper(w, base, k);
    SameValue(Digits(v, base, k), Digits(w, base, k), base);
  }

  // -------------------------------------------------------------------- order

  /** Lexicographic order on sequences of one length. */
  ghost predicate Before(a: seq<nat>, b: seq<nat>)
    requires |a| == |b|
  {
    exists i :: 0 <= i < |a| && a[..i] == b[..i] && a[i] < b[i]
  }

  /** The order of the digits is the order of the numbers. */
  lemma {:induction false} OrderOfDigits(a: seq<nat>, b: seq<nat>, base: nat)
    requires base > 0 && |a| == |b| && Proper(a, base) && Proper(b, base)
    ensures Before(a, b) <==> Value(a, base) < Value(b, base)
  {
    hide Times, Before;
    if |a| == 0 {
      NothingBeforeNothing(a, b);
    } else {
      var n := |a| - 1;
      var x, y := Value(a[..n], base), Value(b[..n], base);
      OrderOfDigits(a[..n], b[..n], base);
      BeforeLast(a, b);
      SameValue(a[..n], b[..n], base);
      if x < y { Below(x, y, base, a[n]); }
      if y < x { Below(y, x, base, b[n]); }
    }
  }

  lemma NothingBeforeNothing(a: seq<nat>, b: seq<nat>)
    requires |a| == |b| == 0
    ensures !Before(a, b)
  {
  }

  lemma BeforeLast(a: seq<nat>, b: seq<nat>)
    requires |a| == |b| > 0
    ensures var n := |a| - 1; Before(a, b) <==> Before(a[..n], b[..n]) || (a[..n] == b[..n] && a[n] < b[n])
  {
    var n := |a| - 1;
    if Before(a, b) {
      var i :| 0 <= i < |a| && a[..i] == b[..i] && a[i] < b[i];
      if i < n {
        assert a[..n][..i] == a[..i] && b[..n][..i] == b[..i];
      }
    }
    if Before(a[..n], b[..n]) {
      var i :| 0 <= i < n && a[..n][..i] == b[..n][..i] && a[..n][i] < b[..n][i];
      assert a[..n][..i] == a[..i] && b[..n][..i] == b[..i];
    }
  }
}
