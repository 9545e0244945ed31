/** Sign and order facts about products and quotients of reals, one multiplication at a time. */
module RealArith {
  lemma MulNonNeg(a: real, b: real)
    requires a >= 0.0 && b >= 0.0
    ensures a * b >= 0.0
  {
  }

  lemma MulPositive(a: real, b: real)
    requires a > 0.0 && b > 0.0
    ensures a * b > 0.0
  {
  }

  lemma MulMono(a: real, b: real, c: real)
    requires a <= b && c >= 0.0
    ensures a * c <= b * c
    ensures c * a <= c * b
  {
    MulNonNeg(b - a, c);
  }

  lemma DivNonNeg(a: real, b: real)
    requires a >= 0.0 && b > 0.0
    ensures a / b >= 0.0
  {
  }

  lemma DivMul(a: real, b: real)
    requires b != 0.0
    ensures a / b * b == a
  {
  }

  lemma DivSign(a: real, b: real)
    requires b > 0.0
    ensures a / b > 0.0 <==> a > 0.0
  {
    DivMul(a, b);
    if a > 0.0 && a / b <= 0.0 {
      MulNonNeg(-(a / b), b);
    }
  }

  lemma SquareNonNeg(a: real)
    ensures a * a >= 0.0
  {
  }

  /** A product with a name, so that a proof can leave it unopened. */
  function Times(a: real, b: real): real { a * b }

  lemma TimesMono(a: real, b: real, c: real)
    requires a <= b && c >= 0.0
    ensures Times(a, c) <= Times(b, c) && Times(c, a) <= Times(c, b)
  {
    MulMono(a, b, c);
  }

  lemma TimesStrict(a: real, b: real, c: real)
    requires a < b && c > 0.0
    ensures Times(a, c) < Times(b, c) && Times(c, a) < Times(c, b)
  {
    assert (b - a) * c > 0.0;
  }

  lemma TimesZero(a: real)
    ensures Times(0.0, a) == 0.0 && Times(a, 0.0) == 0.0
  {
  }

  lemma TimesOne(a: real)
    ensures Times(1.0, a) == a && Times(a, 1.0) == a
  {
  }

  lemma TimesAdd(a: real, b: real, c: real)
    ensures Times(a + b, c) == Times(a, c) + Times(b, c)
    ensures Times(c, a + b) == Times(c, a) + Times(c, b)
  {
  }

  lemma TimesDiv(a: real, b: real)
    requires b != 0.0
    ensures Times(b, a / b) == a && Times(a / b, b) == a
  {
    DivMul(a, b);
  }

  lemma TimesPositive(a: real, b: real)
    requires a > 0.0 && b > 0.0
    ensures Times(a, b) > 0.0
  {
    MulPositive(a, b);
  }

  lemma TimesNegatives(a: real, b: real)
    ensures Times(-a, -b) == Times(a, b)
  {
  }

  lemma NonzeroSquare(a: real)
    requires a != 0.0
    ensures Times(a, a) > 0.0
  {
    hide Times;
    if a > 0.0 {
      TimesPositive(a, a);
    } else {
      TimesPositive(-a, -a);
      TimesNegatives(a, a);
    }
  }

  lemma TimesAssociates(a: real, b: real, c: real)
    ensures Times(Times(a, b), c) == Times(a, Times(b, c))
  {
  }

  lemma TimesCommutes(a: real, b: real)
    ensures Times(a, b) == Times(b, a)
  {
  }

  lemma TimesSwap(a: real, b: real, c: real)
    ensures Times(a, Times(b, c)) == Times(b, Times(a, c))
  {
  }

  function Sum(x: seq<real>): real { if x == [] then 0.0 else Sum(x[..|x| - 1]) + x[|x| - 1] }

  /** A square root enters proofs as a parameter: all that is used of it is the law below. */
  function Root(root: real -> real, x: real): real { root(x) }

  ghost predicate IsRoot(root: real -> real) {
    forall x | x >= 0.0 :: Root(root, x) >= 0.0 && Times(Root(root, x), Root(root, x)) == x
  }
}
