/** Bitwise operators on unbounded non-negative integers, as Python defines them. */
module Bits {

  function Pow2(k: nat): (r: nat)
    ensures r >= 1
  {
    if k == 0 then 1 else 2 * Pow2(k - 1)
  }

  function And(a: nat, b: nat): nat {
    if a == 0 || b == 0 then 0
    else (if a % 2 == 1 && b % 2 == 1 then 1 else 0) + 2 * And(a / 2, b / 2)
  }

  function Or(a: nat, b: nat): nat {
    if a == 0 then b
    else if b == 0 then a
    else (if a % 2 == 1 || b % 2 == 1 then 1 else 0) + 2 * Or(a / 2, b / 2)
  }

  function Shl(a: nat, k: nat): nat {
    a * Pow2(k)
  }

  function Shr(a: nat, k: nat): nat {
    if k == 0 then a else Shr(a / 2, k - 1)
  }

  lemma Pow2Add(i: nat, j: nat)
    ensures Pow2(i + j) == Pow2(i) * Pow2(j)
  {
    if i > 0 {
      Pow2Add(i - 1, j);
    }
  }

  /** Halving commutes with taking a remainder by an even power of two. */
  lemma HalfMod(x: nat, m: nat)
    requires m > 0
    ensures x % (2 * m) == x % 2 + 2 * ((x / 2) % m)
  {
    var q, r := x / 2 / m, x / 2 % m;
    assert x / 2 == m * q + r;
    DoubleProduct(m, q);
    DivModUnique(x, 2 * m, q, 2 * r + x % 2);
  }

  /** Shifting right is division by the power of two. */
  lemma {:induction false} ShrDivides(a: nat, k: nat)
    ensures Shr(a, k) == a / Pow2(k)
  {
    if k > 0 {
      ShrDivides(a / 2, k - 1);
      HalfDiv(a, Pow2(k - 1));
    }
  }

  lemma HalfDiv(x: nat, m: nat)
    requires m > 0
    ensures x / (2 * m) == x / 2 / m
  {
    var q, r := x / 2 / m, x / 2 % m;
    assert x / 2 == m * q + r;
    DoubleProduct(m, q);
    DivModUnique(x, 2 * m, q, 2 * r + x % 2);
  }

  lemma DoubleProduct(m: nat, q: nat)
    ensures (2 * m) * q == 2 * (m * q)
  {
  }

  lemma DivModUnique(x: int, d: int, q: int, r: int)
    requires 0 <= r < d && x == d * q + r
    ensures x / d == q && x % d == r
  {
    var t := x / d - q;
    assert d * t == r - x % d by {
      assert d * t == d * (x / d) - d * q;
    }
    if t >= 1 {
      MulAtLeast(d, t);
    } else if t <= -1 {
      MulAtLeast(d, -t);
    }
  }

  lemma MulAtLeast(d: nat, t: nat)
    requires t >= 1
    ensures d * t >= d
  {
    assert d * t == d + d * (t - 1);
  }

  lemma AndOddMask(x: nat, m: nat)
    requires m >= 1
    ensures And(x, 2 * m - 1) == x % 2 + 2 * And(x / 2, m - 1)
  {
    assert (2 * m - 1) % 2 == 1 && (2 * m - 1) / 2 == m - 1;
  }

  lemma AndMaskNext(x: nat, m: nat)
    requires m >= 1 && And(x / 2, m - 1) == x / 2 % m
    ensures And(x, 2 * m - 1) == x % (2 * m)
  {
    hide And;
    AndOddMask(x, m);
    HalfMod(x, m);
  }

  /** Masking with 2^k - 1 is the remainder by 2^k. */
  lemma {:induction false} AndMask(x: nat, k: nat)
    ensures And(x, Pow2(k) - 1) == x % Pow2(k)
  {
    if k == 0 {
      assert And(x, 0) == 0;
    } else {
      AndMask(x / 2, k - 1);
      AndMaskNext(x, Pow2(k - 1));
    }
  }

  /** Or-ing a value below 2^k into a multiple of 2^k is addition: the fields do not overlap. */
  lemma {:induction false} OrDisjoint(x: nat, y: nat, k: nat)
    requires y < Pow2(k)
    ensures Or(Shl(x, k), y) == Shl(x, k) + y
  {
    if k == 0 || x == 0 || y == 0 {
    } else {
      var m := Pow2(k - 1);
      assert x * (2 * m) == 2 * (x * m);
      assert Shl(x, k) == 2 * Shl(x, k - 1);
      OrDisjoint(x, y / 2, k - 1);
    }
  }

  lemma {:induction false} AndAtMost(a: nat, b: nat)
    ensures And(a, b) <= b
  {
    if a != 0 && b != 0 {
      AndAtMost(a / 2, b / 2);
    }
  }

  lemma {:induction false} OrBelow(a: nat, b: nat, n: nat)
    requires a < Pow2(n) && b < Pow2(n)
    ensures Or(a, b) < Pow2(n)
  {
    if a != 0 && b != 0 {
      OrBelow(a / 2, b / 2, n - 1);
    }
  }

  /** Bit k of w. */
  predicate Bit(w: nat, k: nat) {
    if k == 0 then w % 2 == 1 else Bit(w / 2, k - 1)
  }

  lemma {:induction false} ZeroHasNoBit(k: nat)
    ensures !Bit(0, k)
  {
    if k > 0 {
      ZeroHasNoBit(k - 1);
    }
  }

  lemma {:induction false} BitOfOr(a: nat, b: nat, k: nat)
    ensures Bit(Or(a, b), k) <==> Bit(a, k) || Bit(b, k)
  {
    ZeroHasNoBit(k);
    if k > 0 && a != 0 && b != 0 {
      BitOfOr(a / 2, b / 2, k - 1);
    }
  }

  lemma {:induction false} BitOfAnd(a: nat, b: nat, k: nat)
    ensures Bit(And(a, b), k) <==> Bit(a, k) && Bit(b, k)
  {
    ZeroHasNoBit(k);
    if k > 0 && a != 0 && b != 0 {
      BitOfAnd(a / 2, b / 2, k - 1);
    }
  }

  lemma {:induction false} BitOfPow2(i: nat, k: nat)
    ensures Bit(Pow2(i), k) <==> i == k
  {
    if i > 0 && k > 0 {
      BitOfPow2(i - 1, k - 1);
    } else if k > 0 {
      ZeroHasNoBit(k - 1);
    }
  }

  lemma {:induction false} AndPow2(w: nat, k: nat)
    ensures And(w, Pow2(k)) != 0 <==> Bit(w, k)
  {
    if w == 0 {
      ZeroHasNoBit(k);
    } else if k > 0 {
      AndPow2(w / 2, k - 1);
    } else {
      assert And(w / 2, 0) == 0;
    }
  }

  lemma {:induction false} AndPow2Is(w: nat, k: nat)
    ensures And(w, Pow2(k)) == if Bit(w, k) then Pow2(k) else 0
  {
    if w == 0 {
      ZeroHasNoBit(k);
    } else if k > 0 {
      AndPow2Is(w / 2, k - 1);
    } else {
      assert And(w / 2, 0) == 0;
    }
  }

  /** Complementing an n-bit word flips each of its bits. */
  lemma {:induction false} BitOfComplement(m: nat, n: nat, k: nat)
    requires m < Pow2(n) && k < n
    ensures Bit(Pow2(n) - 1 - m, k) <==> !Bit(m, k)
  {
    var c := Pow2(n) - 1 - m;
    if k > 0 {
      assert c / 2 == Pow2(n - 1) - 1 - m / 2;
      BitOfComplement(m / 2, n - 1, k - 1);
    }
  }

  lemma {:induction false} Pow2Monotone(i: nat, j: nat)
    requires i < j
    ensures Pow2(i) < Pow2(j)
  {
    if i > 0 {
      Pow2Monotone(i - 1, j - 1);
    } else if j > 1 {
      Pow2Monotone(0, j - 1);
    }
  }
}
