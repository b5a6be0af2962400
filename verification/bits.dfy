/** The C bit operators on unsigned values, defined bit by bit, and what they mean as arithmetic
    when masks are all ones and fields do not overlap. */
module Bits {

  function Pow2(n: nat): (p: nat)
    ensures p >= 1
  {
    if n == 0 then 1 else 2 * Pow2(n - 1)
  }

  function And(a: nat, b: nat): nat {
    if a == 0 || b == 0 then 0
    else (if a % 2 == 1 && b % 2 == 1 then 1 else 0) + 2 * And(a / 2, b / 2)
  }

  function Or(a: nat, b: nat): nat
    decreases a + b
  {
    if a == 0 then b
    else if b == 0 then a
    else (if a % 2 == 1 || b % 2 == 1 then 1 else 0) + 2 * Or(a / 2, b / 2)
  }

  /** `<<` before any truncation to the width of its type. */
  function Shl(a: nat, n: nat): nat {
    if n == 0 then a else 2 * Shl(a, n - 1)
  }

  function Shr(a: nat, n: nat): nat {
    if n == 0 then a else Shr(a / 2, n - 1)
  }

  /** The low n bits of a value. */
  function Low(x: nat, n: nat): (r: nat)
    ensures r < Pow2(n)
  {
    if n == 0 then 0 else x % 2 + 2 * Low(x / 2, n - 1)
  }

  lemma {:induction false} LowOfZero(n: nat)
    ensures Low(0, n) == 0
  {
    if n > 0 {
      LowOfZero(n - 1);
    }
  }

  /** Masking with n ones keeps the low n bits. */
  lemma {:induction false} AndMask(x: nat, n: nat)
    ensures And(x, Pow2(n) - 1) == Low(x, n)
  {
    if x == 0 {
      LowOfZero(n);
    } else if n > 0 {
      AndMask(x / 2, n - 1);
      assert (Pow2(n) - 1) / 2 == Pow2(n - 1) - 1 && (Pow2(n) - 1) % 2 == 1;
    }
  }

  /** Joining a shifted value with one that fits below it is addition. */
  lemma {:induction false} OrDisjoint(x: nat, y: nat, n: nat)
    requires y < Pow2(n)
    ensures Or(Shl(x, n), y) == Shl(x, n) + y
  {
    if n > 0 {
      OrDisjoint(x, y / 2, n - 1);
    }
  }

  /** A value is its high part and its low n bits. */
  lemma {:induction false} SplitAt(x: nat, n: nat)
    ensures x == Shl(Shr(x, n), n) + Low(x, n)
  {
    if n > 0 {
      SplitAt(x / 2, n - 1);
    }
  }

  /** A shifted value and one that fits below it can be told apart again. */
  lemma {:induction false} SplitSum(x: nat, y: nat, n: nat)
    requires y < Pow2(n)
    ensures Shr(Shl(x, n) + y, n) == x && Low(Shl(x, n) + y, n) == y
  {
    if n > 0 {
      SplitSum(x, y / 2, n - 1);
      assert (Shl(x, n) + y) / 2 == Shl(x, n - 1) + y / 2;
    }
  }

  lemma {:induction false} OrCommutes(a: nat, b: nat)
    ensures Or(a, b) == Or(b, a)
    decreases a + b
  {
    if a > 0 && b > 0 {
      OrCommutes(a / 2, b / 2);
    }
  }

  lemma {:induction false} AndCommutes(a: nat, b: nat)
    ensures And(a, b) == And(b, a)
  {
    if a > 0 && b > 0 {
      AndCommutes(a / 2, b / 2);
    }
  }

  /** Masking with a shifted mask looks at the high part only. */
  lemma {:induction false} AndShifted(x: nat, m: nat, n: nat)
    ensures And(x, Shl(m, n)) == Shl(And(Shr(x, n), m), n)
  {
    if n > 0 {
      AndShifted(x / 2, m, n - 1);
      AndEven(x, Shl(m, n - 1));
    }
  }

  lemma AndEven(x: nat, y: nat)
    ensures And(x, 2 * y) == 2 * And(x / 2, y)
  {
  }

  lemma ShlBy6(x: nat)
    ensures Shl(x, 6) == 64 * x
  {
    assert Shl(x, 1) == 2 * x;
    assert Shl(x, 2) == 4 * x;
    assert Shl(x, 3) == 8 * x;
    assert Shl(x, 4) == 16 * x;
    assert Shl(x, 5) == 32 * x;
  }

  lemma {:induction false} ShlAdd(a: nat, b: nat, n: nat)
    ensures Shl(a + b, n) == Shl(a, n) + Shl(b, n)
  {
    if n > 0 {
      ShlAdd(a, b, n - 1);
    }
  }

  lemma {:induction false} ShlShl(a: nat, m: nat, n: nat)
    ensures Shl(Shl(a, m), n) == Shl(a, m + n)
  {
    if n > 0 {
      ShlShl(a, m, n - 1);
    }
  }

  lemma {:induction false} ShrShr(a: nat, m: nat, n: nat)
    ensures Shr(Shr(a, m), n) == Shr(a, m + n)
  {
    if m > 0 {
      ShrShr(a / 2, m - 1, n);
    }
  }

  /** A field of width m above one of width n fits in m + n bits. */
  lemma {:induction false} FieldsFit(x: nat, m: nat, y: nat, n: nat)
    requires x < Pow2(m) && y < Pow2(n)
    ensures Shl(x, n) + y < Pow2(m + n)
  {
    if n > 0 {
      FieldsFit(x, m, y / 2, n - 1);
    }
  }

  lemma {:induction false} LowSmall(x: nat, n: nat)
    requires x < Pow2(n)
    ensures Low(x, n) == x
  {
    if n > 0 {
      LowSmall(x / 2, n - 1);
    }
  }

  lemma {:induction false} ShrSmall(x: nat, m: nat, n: nat)
    requires x < Pow2(m + n)
    ensures Shr(x, n) < Pow2(m)
  {
    if n > 0 {
      ShrSmall(x / 2, m, n - 1);
    }
  }

  /** The same operators as arithmetic. */
  lemma {:induction false} ShlTimes(a: nat, n: nat)
    ensures Shl(a, n) == a * Pow2(n)
  {
    if n > 0 {
      ShlTimes(a, n - 1);
    }
  }

  lemma {:induction false} SplitDiv(a: nat, n: nat)
    ensures Shr(a, n) == a / Pow2(n) && Low(a, n) == a % Pow2(n)
  {
    SplitAt(a, n);
    ShlTimes(Shr(a, n), n);
    hide Shr, Shl, Low, Pow2;
    QuotientIs(a, Pow2(n), Shr(a, n), Low(a, n));
  }

  lemma QuotientIs(a: nat, m: nat, q: nat, r: nat)
    requires m > 0 && r < m && a == q * m + r
    ensures q == a / m && r == a % m
  {
    var d := a / m - q;
    assert d * m == r - a % m;
    Multiple(d, m);
    Multiple(-d, m);
  }

  lemma Multiple(d: int, m: nat)
    ensures d > 0 ==> d * m >= m
  {
  }
}
