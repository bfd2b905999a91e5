/** Python's `&`, `|` and `& ~` on nonnegative integers, and what they do to single bits. */
module Bits {
  import opened Arithmetic

  predicate Bit(n: nat, i: nat) {
    if i == 0 then n % 2 == 1 else Bit(n / 2, i - 1)
  }

  /** 2 to the power of `k`. */
  function Two(k: nat): (n: nat)
    ensures n > 0
  {
    if k == 0 then 1 else 2 * Two(k - 1)
  }

  lemma {:induction false} SomeBit(n: nat, k: nat) returns (i: nat)
    requires 0 < n < Two(k)
    ensures i < k && Bit(n, i)
  {
    if n % 2 == 1 {
      i := 0;
    } else {
      i := SomeBit(n / 2, k - 1);
      i := i + 1;
    }
  }

  lemma {:induction false} TwoSum(a: nat, b: nat)
    ensures Two(a + b) == Two(a) * Two(b)
  {
    if a > 0 {
      TwoSum(a - 1, b);
      MulAssociate(2, Two(a - 1), Two(b));
    }
  }

  /** Bit `i` is the digit of weight 2^i. */
  lemma {:induction false} BitIs(n: nat, i: nat)
    ensures Bit(n, i) <==> n / Two(i) % 2 == 1
  {
    if i > 0 {
      BitIs(n / 2, i - 1);
      DivTwice(n, 2, Two(i - 1));
    }
  }

  function Join(low: bool, high: nat): nat {
    2 * high + if low then 1 else 0
  }

  function And(a: nat, b: nat): nat
    decreases a + b
  {
    if a == 0 && b == 0 then 0 else Join(a % 2 == 1 && b % 2 == 1, And(a / 2, b / 2))
  }

  function Or(a: nat, b: nat): nat
    decreases a + b
  {
    if a == 0 && b == 0 then 0 else Join(a % 2 == 1 || b % 2 == 1, Or(a / 2, b / 2))
  }

  /** `a & ~b` */
  function AndNot(a: nat, b: nat): nat
    decreases a + b
  {
    if a == 0 && b == 0 then 0 else Join(a % 2 == 1 && b % 2 == 0, AndNot(a / 2, b / 2))
  }

  lemma JoinParts(low: bool, high: nat)
    ensures Join(low, high) / 2 == high
    ensures Join(low, high) % 2 == 1 <==> low
  {
  }

  lemma {:induction false} AndBit(a: nat, b: nat, i: nat)
    ensures Bit(And(a, b), i) <==> Bit(a, i) && Bit(b, i)
    decreases i
  {
    JoinParts(a % 2 == 1 && b % 2 == 1, And(a / 2, b / 2));
    if i > 0 {
      AndBit(a / 2, b / 2, i - 1);
    }
  }

  lemma {:induction false} OrBit(a: nat, b: nat, i: nat)
    ensures Bit(Or(a, b), i) <==> Bit(a, i) || Bit(b, i)
    decreases i
  {
    JoinParts(a % 2 == 1 || b % 2 == 1, Or(a / 2, b / 2));
    if i > 0 {
      OrBit(a / 2, b / 2, i - 1);
    }
  }

  lemma {:induction false} AndNotBit(a: nat, b: nat, i: nat)
    ensures Bit(AndNot(a, b), i) <==> Bit(a, i) && !Bit(b, i)
    decreases i
  {
    JoinParts(a % 2 == 1 && b % 2 == 0, AndNot(a / 2, b / 2));
    if i > 0 {
      AndNotBit(a / 2, b / 2, i - 1);
    }
  }

  lemma {:induction false} ZeroBit(i: nat)
    ensures !Bit(0, i)
  {
    if i > 0 {
      ZeroBit(i - 1);
    }
  }

  /** A nonzero number has a bit. */
  lemma {:induction false} SomeBitSet(n: nat) returns (i: nat)
    requires n > 0
    ensures Bit(n, i)
  {
    if n % 2 == 1 {
      i := 0;
    } else {
      i := SomeBitSet(n / 2);
      i := i + 1;
    }
  }

  lemma NoCommonBit(a: nat, b: nat)
    ensures And(a, b) == 0 <==> forall i: nat :: Bit(a, i) ==> !Bit(b, i)
  {
    hide Bit, And;
    if And(a, b) == 0 {
      forall i: nat ensures Bit(a, i) ==> !Bit(b, i) {
        AndBit(a, b, i);
        ZeroBit(i);
      }
    } else {
      var i := SomeBitSet(And(a, b));
      AndBit(a, b, i);
    }
  }

  lemma NoBitOutside(a: nat, b: nat)
    ensures AndNot(a, b) == 0 <==> forall i: nat :: Bit(a, i) ==> Bit(b, i)
  {
    hide Bit, AndNot;
    if AndNot(a, b) == 0 {
      forall i: nat ensures Bit(a, i) ==> Bit(b, i) {
        AndNotBit(a, b, i);
        ZeroBit(i);
      }
    } else {
      var i := SomeBitSet(AndNot(a, b));
      AndNotBit(a, b, i);
    }
  }

  /** `a ^ b` */
  function Xor(a: nat, b: nat): nat
    decreases a + b
  {
    if a == 0 && b == 0 then 0 else Join(a % 2 != b % 2, Xor(a / 2, b / 2))
  }

  lemma XorParts(a: nat, b: nat)
    ensures Xor(a, b) / 2 == Xor(a / 2, b / 2)
    ensures Xor(a, b) % 2 == 1 <==> a % 2 != b % 2
  {
    JoinParts(a % 2 != b % 2, Xor(a / 2, b / 2));
  }

  lemma {:induction false} XorBit(a: nat, b: nat, i: nat)
    ensures Bit(Xor(a, b), i) <==> (Bit(a, i) <==> !Bit(b, i))
    decreases i
  {
    XorParts(a, b);
    if i > 0 {
      XorBit(a / 2, b / 2, i - 1);
    }
  }

  lemma {:induction false} XorCommutes(x: nat, a: nat, b: nat)
    ensures Xor(Xor(x, a), b) == Xor(Xor(x, b), a)
    decreases x + a + b
  {
    hide Xor;
    XorParts(x, a);
    XorParts(x, b);
    XorParts(Xor(x, a), b);
    XorParts(Xor(x, b), a);
    if x + a + b > 0 {
      XorCommutes(x / 2, a / 2, b / 2);
    }
    HalvesEqual(Xor(Xor(x, a), b), Xor(Xor(x, b), a));
  }

  lemma HalvesEqual(m: nat, n: nat)
    requires m % 2 == n % 2 && m / 2 == n / 2
    ensures m == n
  {
  }
}
