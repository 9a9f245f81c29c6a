/** Bitwise and/or on natural numbers, and how they act on words split into fields. */
module Bits {

  function Pow2(k: nat): (p: nat)
    ensures p > 0
  {
    if k == 0 then 1 else 2 * Pow2(k - 1)
  }

  function BitOr(a: nat, b: nat): nat {
    if a == 0 then b else if b == 0 then a
    else 2 * BitOr(a / 2, b / 2) + (if a % 2 == 1 || b % 2 == 1 then 1 else 0)
  }

  function BitAnd(a: nat, b: nat): nat {
    if a == 0 || b == 0 then 0
    else 2 * BitAnd(a / 2, b / 2) + (if a % 2 == 1 && b % 2 == 1 then 1 else 0)
  }

  /** The word with low `k` bits `a` and the rest `x`. */
  function Join(k: nat, a: nat, x: nat): nat {
    if k == 0 then x else 2 * Join(k - 1, a / 2, x) + a % 2
  }

  lemma Regroup(k: nat, a: nat, b: nat)
    ensures k * (a * b) == (k * a) * b == a * (k * b)
  {
  }

  lemma {:induction false} JoinIs(k: nat, a: nat, x: nat)
    requires a < Pow2(k)
    ensures Join(k, a, x) == a + x * Pow2(k)
  {
    if k > 0 {
      var half, high := a / 2, x * Pow2(k - 1);
      JoinIs(k - 1, half, x);
      Regroup(2, x, Pow2(k - 1));
      assert Join(k, a, x) == 2 * (half + high) + a % 2;
    }
  }

  /** The halves and the low bits of two numbers combine separately. */
  lemma OrHalves(a: nat, b: nat)
    ensures BitOr(a, b) / 2 == BitOr(a / 2, b / 2)
    ensures BitOr(a, b) % 2 == if a % 2 == 1 || b % 2 == 1 then 1 else 0
  {
  }

  lemma AndHalves(a: nat, b: nat)
    ensures BitAnd(a, b) / 2 == BitAnd(a / 2, b / 2)
    ensures BitAnd(a, b) % 2 == if a % 2 == 1 && b % 2 == 1 then 1 else 0
  {
  }

  lemma SameHalves(a: nat, b: nat)
    requires a / 2 == b / 2 && a % 2 == b % 2
    ensures a == b
  {
  }

  lemma JoinHalves(k: nat, a: nat, x: nat)
    requires k > 0
    ensures Join(k, a, x) / 2 == Join(k - 1, a / 2, x) && Join(k, a, x) % 2 == a % 2
  {
  }

  /** Or acts on the low `k` bits and on the rest separately. */
  lemma {:induction false} OrSplit(k: nat, a: nat, x: nat, b: nat, y: nat)
    requires a < Pow2(k) && b < Pow2(k)
    ensures BitOr(Join(k, a, x), Join(k, b, y)) == Join(k, BitOr(a, b), BitOr(x, y))
  {
    if k > 0 {
      OrSplit(k - 1, a / 2, x, b / 2, y);
      JoinHalves(k, a, x);
      JoinHalves(k, b, y);
      OrHalves(Join(k, a, x), Join(k, b, y));
      OrHalves(a, b);
      JoinHalves(k, BitOr(a, b), BitOr(x, y));
      SameHalves(BitOr(Join(k, a, x), Join(k, b, y)), Join(k, BitOr(a, b), BitOr(x, y)));
    }
  }

  /** And acts on the low `k` bits and on the rest separately. */
  lemma {:induction false} AndSplit(k: nat, a: nat, x: nat, b: nat, y: nat)
    requires a < Pow2(k) && b < Pow2(k)
    ensures BitAnd(Join(k, a, x), Join(k, b, y)) == Join(k, BitAnd(a, b), BitAnd(x, y))
  {
    if k > 0 {
      AndSplit(k - 1, a / 2, x, b / 2, y);
      JoinHalves(k, a, x);
      JoinHalves(k, b, y);
      AndHalves(Join(k, a, x), Join(k, b, y));
      AndHalves(a, b);
      JoinHalves(k, BitAnd(a, b), BitAnd(x, y));
      SameHalves(BitAnd(Join(k, a, x), Join(k, b, y)), Join(k, BitAnd(a, b), BitAnd(x, y)));
    }
  }

  /** A mask of `k` ones keeps a `k`-bit number. */
  lemma {:induction false} AndOnes(k: nat, a: nat)
    requires a < Pow2(k)
    ensures BitAnd(a, Pow2(k) - 1) == a
  {
    if k > 0 {
      AndOnes(k - 1, a / 2);
      AndHalves(a, Pow2(k) - 1);
    }
  }

  lemma {:induction false} OrBelow(k: nat, a: nat, b: nat)
    requires a < Pow2(k) && b < Pow2(k)
    ensures BitOr(a, b) < Pow2(k)
  {
    if k > 0 {
      OrBelow(k - 1, a / 2, b / 2);
      OrHalves(a, b);
    }
  }

  lemma {:induction false} AndBelow(a: nat, b: nat)
    ensures BitAnd(a, b) <= b
  {
    if a > 0 && b > 0 {
      AndBelow(a / 2, b / 2);
    }
  }

  /** `OrSplit` for words written as sums. */
  lemma OrSum(k: nat, a: nat, x: nat, b: nat, y: nat)
    requires a < Pow2(k) && b < Pow2(k)
    ensures BitOr(a + x * Pow2(k), b + y * Pow2(k)) == BitOr(a, b) + BitOr(x, y) * Pow2(k)
  {
    JoinIs(k, a, x);
    JoinIs(k, b, y);
    OrSplit(k, a, x, b, y);
    OrBelow(k, a, b);
    JoinIs(k, BitOr(a, b), BitOr(x, y));
  }

  /** `AndSplit` for words written as sums. */
  lemma AndSum(k: nat, a: nat, x: nat, b: nat, y: nat)
    requires a < Pow2(k) && b < Pow2(k)
    ensures BitAnd(a + x * Pow2(k), b + y * Pow2(k)) == BitAnd(a, b) + BitAnd(x, y) * Pow2(k)
  {
    JoinIs(k, a, x);
    JoinIs(k, b, y);
    AndSplit(k, a, x, b, y);
    AndBelow(a, b);
    JoinIs(k, BitAnd(a, b), BitAnd(x, y));
  }

  lemma OrZero(a: nat)
    ensures BitOr(a, 0) == a == BitOr(0, a)
  {
  }

  /** Or of disjoint fields, as a word joined from them. */
  lemma OrDisjoint(k: nat, a: nat, y: nat)
    requires a < Pow2(k)
    ensures BitOr(Join(k, a, 0), Join(k, 0, y)) == Join(k, a, y) == BitOr(Join(k, 0, y), Join(k, a, 0))
  {
    OrZero(a);
    OrZero(y);
    OrSplit(k, a, 0, 0, y);
    OrSplit(k, 0, y, a, 0);
  }

  /** Disjoint fields are joined by adding, in either order. */
  lemma OrFields(k: nat, a: nat, y: nat)
    requires a < Pow2(k)
    ensures BitOr(a, y * Pow2(k)) == a + y * Pow2(k) == BitOr(y * Pow2(k), a)
  {
    OrDisjoint(k, a, y);
    JoinIs(k, a, 0);
    JoinIs(k, 0, y);
    JoinIs(k, a, y);
  }

  lemma {:induction false} Pow2Add(a: nat, b: nat)
    ensures Pow2(a + b) == Pow2(a) * Pow2(b)
  {
    if a > 0 {
      Pow2Add(a - 1, b);
      Regroup(2, Pow2(a - 1), Pow2(b));
    }
  }

  lemma FieldPowers()
    ensures Pow2(16) == 0x1_0000 && Pow2(32) == 0x1_0000_0000 && Pow2(48) == 0x1_0000_0000_0000
    ensures Pow2(62) == 0x4000_0000_0000_0000
  {
    assert Pow2(14) == 0x4000 && Pow2(16) == 0x1_0000;
    Pow2Add(16, 16);
    Pow2Add(16, 32);
    Pow2Add(14, 48);
  }
}
