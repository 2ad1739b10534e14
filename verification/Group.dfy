/**
A group of prime order, written as the integers modulo the order. An element is a
multiple of a fixed base element and a scalar acts by multiplication, so the
identity is 0.
*/
module Group {
  import opened Positional

  predicate Divides(d: nat, n: nat)
    requires d > 0
  {
    Last(n, d) == 0
  }

  ghost predicate Prime(p: nat) {
    p > 1 && forall d :: 1 < d < p ==> !Divides(d, p)
  }

  function ScalarMult(q: nat, secret: nat, element: nat): nat
    requires q > 0
  {
    Last(Times(secret, element), q)
  }

  // -------------------------------------------------------------- arithmetic

  lemma Commutative(x: nat, y: nat)
    ensures Times(x, y) == Times(y, x)
  {
  }

  /** Adding a multiple of the order does not change the remainder. */
  lemma AddMultiple(k: nat, q: nat, x: nat)
    requires q > 0
    ensures Last(Times(k, q) + x, q) == Last(x, q)
  {
    hide Times, Rest, Last;
    Division(x, q);
    Distributive(k, Rest(x, q), q);
    DivMod(k + Rest(x, q), q, Last(x, q));
  }

  /** Numbers with one remainder differ by a multiple of the order. */
  lemma SameRemainder(x: nat, y: nat, q: nat)
    requires q > 0 && Last(x + y, q) == Last(x, q)
    ensures Divides(q, y)
  {
    hide Times, Rest, Last;
    var k, m := Rest(x, q), Rest(x + y, q);
    Division(x, q);
    Division(x + y, q);
    if m < k { Below(m, k, q, Last(x, q)); }
    Distributive(m - k, k, q);
    DivMod(m - k, q, 0);
  }

  lemma MultiplesAreDivided(k: nat, q: nat)
    requires q > 0
    ensures Divides(q, Times(k, q))
  {
    DivMod(k, q, 0);
  }

  /** Euclid's lemma, by Euclid's algorithm on the prime and the first factor. */
  lemma {:induction false} EuclidsLemma(p: nat, a: nat, b: nat)
    requires Prime(p) && 0 < a < p && Divides(p, Times(a, b))
    ensures Divides(p, b)
    decreases a
  {
    hide Times, Rest, Last;
    if a == 1 {
      Commutative(1, b);
      TimesOne(b);
    } else {
      var k, r := Rest(p, a), Last(p, a);
      Division(p, a);
      assert !Divides(a, p);
      RemainderTimes(p, a, b, k, r);
      EuclidsLemma(p, r, b);
    }
  }

  /** From p | a*b and p == k*a + r follows p | r*b. */
  lemma RemainderTimes(p: nat, a: nat, b: nat, k: nat, r: nat)
    requires p > 0 && p == Times(k, a) + r && Divides(p, Times(a, b))
    ensures Divides(p, Times(r, b))
  {
    hide Times, Rest, Last;
    var m := Rest(Times(a, b), p);
    Division(Times(a, b), p);
    Distributive(Times(k, a), r, b);
    Associative(k, a, b);
    Associative(k, m, p);
    Commutative(p, b);
    AddMultiple(Times(k, m), p, Times(r, b));
    MultiplesAreDivided(b, p);
  }

  lemma ZeroTimes(x: nat)
    ensures Times(0, x) == 0 == Times(x, 0)
  {
  }

  // ------------------------------------------------------------ main results

  /** A product of non-zero scalars and elements is not the identity. */
  lemma NoZeroDivisors(q: nat, secret: nat, element: nat)
    requires Prime(q) && secret < q && element < q
    ensures ScalarMult(q, secret, element) == 0 <==> secret == 0 || element == 0
  {
    hide Prime, Times, Last;
    SmallRemainder(element, q);
    SmallRemainder(0, q);
    ZeroTimes(secret);
    ZeroTimes(element);
    if secret > 0 && ScalarMult(q, secret, element) == 0 {
      EuclidsLemma(q, secret, element);
    }
  }

  /** A non-zero secret keeps different elements different. */
  lemma DifferentElementsStayDifferent(q: nat, secret: nat, g: nat, h: nat)
    requires Prime(q) && 0 < secret < q && g < q && h < q
    ensures ScalarMult(q, secret, g) == ScalarMult(q, secret, h) <==> g == h
  {
    if g < h { SmallerStaysDifferent(q, secret, g, h); }
    if h < g { SmallerStaysDifferent(q, secret, h, g); }
  }

  lemma SmallerStaysDifferent(q: nat, secret: nat, g: nat, h: nat)
    requires Prime(q) && 0 < secret < q && g < h < q
    ensures ScalarMult(q, secret, g) != ScalarMult(q, secret, h)
  {
    hide Prime, Times, Last;
    SmallRemainder(h - g, q);
    Distributive(g, h - g, secret);
    Commutative(g, secret);
    Commutative(h, secret);
    Commutative(h - g, secret);
    if ScalarMult(q, secret, g) == ScalarMult(q, secret, h) {
      SameRemainder(Times(secret, g), Times(secret, h - g), q);
      EuclidsLemma(q, secret, h - g);
    }
  }

  /** The order in which two secrets are applied does not matter. */
  lemma SecretsCommute(q: nat, a: nat, b: nat, g: nat)
    requires q > 0
    ensures ScalarMult(q, a, ScalarMult(q, b, g)) == ScalarMult(q, b, ScalarMult(q, a, g))
  {
    hide Times, Last;
    Twice(q, a, b, g);
    Twice(q, b, a, g);
    Associative(a, b, g);
    Associative(b, a, g);
    Commutative(a, b);
  }

  lemma Twice(q: nat, a: nat, b: nat, g: nat)
    requires q > 0
    ensures ScalarMult(q, a, ScalarMult(q, b, g)) == Last(Times(a, Times(b, g)), q)
  {
    hide Times, Rest, Last;
    var n := Times(b, g);
    var k, r := Rest(n, q), Last(n, q);
    Division(n, q);
    Distributive(Times(k, q), r, a);
    Commutative(n, a);
    Commutative(r, a);
    Commutative(Times(k, q), a);
    Associative(a, k, q);
    AddMultiple(Times(a, k), q, Times(a, r));
  }
}
