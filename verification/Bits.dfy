/** Machine words as natural numbers: bits, and the bitwise operators the transport
    uses (on header bytes, varint prefixes and the 128-bit duplicate window). */
module Bits {

  function Pow2(k: nat): (p: nat)
    ensures 0 < p
  {
    if k == 0 then 1 else 2 * Pow2(k - 1)
  }

  /** The width of `n` in bits: `u64::BITS - n.leading_zeros()`. */
  function Width(n: nat): nat { if n == 0 then 0 else 1 + Width(n / 2) }

  lemma {:induction false} WidthMono(a: nat, b: nat)
    requires a <= b
    ensures Width(a) <= Width(b)
  {
    if a > 0 { WidthMono(a / 2, b / 2); }
  }

  predicate Bit(n: nat, i: nat)
  {
    if i == 0 then n % 2 == 1 else Bit(n / 2, i - 1)
  }

  function And(a: nat, b: nat): nat
  {
    if a == 0 then 0 else 2 * And(a / 2, b / 2) + a % 2 * (b % 2)
  }

  function Or(a: nat, b: nat): nat
  {
    if a == 0 then b else 2 * Or(a / 2, b / 2) + if a % 2 == 0 && b % 2 == 0 then 0 else 1
  }

  function Xor(a: nat, b: nat): nat
    decreases a + b
  {
    if a == 0 && b == 0 then 0
    else 2 * Xor(a / 2, b / 2) + if a % 2 == b % 2 then 0 else 1
  }

  /** `n << k` in a word of `width` bits. */
  function ShiftLeft(n: nat, k: nat, width: nat): nat
  {
    n * Pow2(k) % Pow2(width)
  }

  lemma BitStep(n: nat, i: nat)
    ensures Bit(n, i) <==> if i == 0 then n % 2 == 1 else Bit(n / 2, i - 1)
  {
  }

  /** Bit `i + 2` is bit `i` of the fourth. */
  lemma BitOfFourth(n: nat, i: nat)
    ensures Bit(n, i + 2) <==> Bit(n / 4, i)
  {
    BitStep(n, i + 2);
    BitStep(n / 2, i + 1);
    assert n / 4 == n / 2 / 2;
  }

  // ---------------------------------------------------------------- bits of results

  lemma {:induction false} BitOfAnd(a: nat, b: nat, i: nat)
    ensures Bit(And(a, b), i) <==> Bit(a, i) && Bit(b, i)
  {
    if a == 0 {
      ZeroHasNoBits(i);
    } else {
      Halves(And(a / 2, b / 2), a % 2 * (b % 2));
      if i > 0 { BitOfAnd(a / 2, b / 2, i - 1); }
    }
  }

  lemma {:induction false} BitOfOr(a: nat, b: nat, i: nat)
    ensures Bit(Or(a, b), i) <==> Bit(a, i) || Bit(b, i)
  {
    if a == 0 {
      ZeroHasNoBits(i);
    } else if i > 0 {
      BitOfOr(a / 2, b / 2, i - 1);
    }
  }

  /** Bit `i` is the parity of the quotient by 2^i. */
  lemma {:induction false} BitIsParity(n: nat, i: nat)
    ensures Bit(n, i) <==> n / Pow2(i) % 2 == 1
  {
    if i > 0 {
      BitIsParity(n / 2, i - 1);
      DivTwice(n, Pow2(i - 1));
    }
  }

  lemma {:induction false} ZeroHasNoBits(i: nat)
    ensures !Bit(0, i)
  {
    if i > 0 { ZeroHasNoBits(i - 1); }
  }

  lemma Halves(q: nat, r: nat)
    requires r < 2
    ensures (2 * q + r) / 2 == q && (2 * q + r) % 2 == r
  {
  }

  lemma {:induction false} BitOfPow2(k: nat, i: nat)
    ensures Bit(Pow2(k), i) <==> i == k
  {
    if k == 0 {
      if i > 0 { ZeroHasNoBits(i - 1); }
    } else if i > 0 {
      BitOfPow2(k - 1, i - 1);
    }
  }

  lemma {:induction false} NonZeroHasBit(n: nat) returns (i: nat)
    requires n > 0
    ensures Bit(n, i)
  {
    if n % 2 == 1 {
      i := 0;
    } else {
      i := NonZeroHasBit(n / 2);
      i := i + 1;
    }
  }

  /** Masking with a single bit tests that bit. */
  lemma SingleBitMask(n: nat, k: nat)
    ensures And(n, Pow2(k)) != 0 <==> Bit(n, k)
  {
    if And(n, Pow2(k)) != 0 {
      var i := NonZeroHasBit(And(n, Pow2(k)));
      BitOfAnd(n, Pow2(k), i);
      BitOfPow2(k, i);
    } else {
      BitOfAnd(n, Pow2(k), k);
      BitOfPow2(k, k);
      ZeroHasNoBits(k);
    }
  }

  /** Dropping the bits from `width` on does not change the lower ones. */
  lemma {:induction false} BitOfMod(n: nat, width: nat, i: nat)
    ensures Bit(n % Pow2(width), i) <==> i < width && Bit(n, i)
  {
    if width == 0 {
      ZeroHasNoBits(i);
    } else {
      var p := Pow2(width - 1);
      HalfMod(n, p);
      if i > 0 { BitOfMod(n / 2, width - 1, i - 1); }
    }
  }

  lemma HalfMod(n: nat, p: nat)
    requires 0 < p
    ensures n % (2 * p) / 2 == n / 2 % p && n % (2 * p) % 2 == n % 2
  {
    var q, r := n / 2 / p, n / 2 % p;
    assert n / 2 == q * p + r;
    assert n == q * (2 * p) + (2 * r + n % 2);
    DivModUnique(n, 2 * p, q, 2 * r + n % 2);
  }

  lemma DivModUnique(n: nat, d: nat, q: nat, r: nat)
    requires 0 < d && r < d && n == q * d + r
    ensures n / d == q && n % d == r
  {
    var q', r' := n / d, n % d;
    assert n == q' * d + r';
    assert (q - q') * d == r' - r;
    AtLeast(q - q', d);
    AtLeast(q' - q, d);
  }

  lemma AtLeast(a: int, d: nat)
    ensures a >= 1 ==> a * d >= d
  {
  }

  lemma {:induction false} BitOfScaled(n: nat, k: nat, i: nat)
    ensures Bit(n * Pow2(k), i) <==> k <= i && Bit(n, i - k)
  {
    if k > 0 {
      var m := n * Pow2(k - 1);
      assert n * Pow2(k) == 2 * m;
      if i > 0 { BitOfScaled(n, k - 1, i - 1); }
    }
  }

  lemma BitOfShift(n: nat, k: nat, width: nat, i: nat)
    ensures Bit(ShiftLeft(n, k, width), i) <==> k <= i < width && Bit(n, i - k)
  {
    BitOfMod(n * Pow2(k), width, i);
    BitOfScaled(n, k, i);
  }

  // --------------------------------------------------------------- xor and or as sums

  /** Xor is the bitwise difference. */
  lemma {:induction false} BitOfXor(a: nat, b: nat, i: nat)
    ensures Bit(Xor(a, b), i) <==> Bit(a, i) != Bit(b, i)
    decreases i
  {
    if a == 0 && b == 0 {
      ZeroHasNoBits(i);
    } else {
      Halves(Xor(a / 2, b / 2), if a % 2 == b % 2 then 0 else 1);
      if i > 0 { BitOfXor(a / 2, b / 2, i - 1); }
    }
  }

  lemma {:induction false} XorTwice(a: nat, b: nat)
    ensures Xor(Xor(a, b), b) == a
    decreases a + b
  {
    if a != 0 || b != 0 {
      XorTwice(a / 2, b / 2);
      Halves(Xor(a / 2, b / 2), if a % 2 == b % 2 then 0 else 1);
    }
  }

  /** Xor with a value below 2^k leaves everything above the low `k` bits alone. */
  lemma {:induction false} XorLow(a: nat, b: nat, k: nat)
    requires b < Pow2(k)
    ensures Xor(a, b) / Pow2(k) == a / Pow2(k)
    decreases k
  {
    if k == 0 {
      XorZero(a);
    } else {
      XorLow(a / 2, b / 2, k - 1);
      DivTwice(a, Pow2(k - 1));
      DivTwice(Xor(a, b), Pow2(k - 1));
      assert a != 0 || b != 0 ==> Xor(a, b) / 2 == Xor(a / 2, b / 2);
    }
  }

  lemma {:induction false} XorZero(a: nat)
    ensures Xor(a, 0) == a
  {
    if a != 0 { XorZero(a / 2); }
  }

  lemma DivTwice(a: nat, p: nat)
    requires 0 < p
    ensures a / (2 * p) == a / 2 / p
  {
    var q, r := a / 2 / p, a / 2 % p;
    assert a == q * (2 * p) + (2 * r + a % 2);
    DivModUnique(a, 2 * p, q, 2 * r + a % 2);
  }

  lemma {:induction false} XorBound(a: nat, b: nat, k: nat)
    requires a < Pow2(k) && b < Pow2(k)
    ensures Xor(a, b) < Pow2(k)
    decreases k
  {
    if k > 0 && (a != 0 || b != 0) { XorBound(a / 2, b / 2, k - 1); }
  }

  /** Or of values that share no bits is their sum. */
  lemma {:induction false} OrHigh(a: nat, h: nat, k: nat)
    requires a < Pow2(k)
    ensures Or(a, h * Pow2(k)) == a + h * Pow2(k)
    decreases k
  {
    if k > 0 && a != 0 {
      var m := h * Pow2(k - 1);
      assert h * Pow2(k) == 2 * m;
      OrHigh(a / 2, h, k - 1);
    }
  }

  lemma {:induction false} OrZero(a: nat)
    ensures Or(a, 0) == a
  {
    if a > 0 { OrZero(a / 2); }
  }

  lemma {:induction false} OrCommutes(a: nat, b: nat)
    ensures Or(a, b) == Or(b, a)
  {
    if a == 0 {
      OrZero(b);
    } else if b == 0 {
      OrZero(a);
    } else {
      OrCommutes(a / 2, b / 2);
    }
  }

  lemma {:induction false} AndAll(n: nat, w: nat)
    requires n < Pow2(w)
    ensures And(n, Pow2(w) - 1) == n
  {
    if w > 0 && n > 0 {
      AndAll(n / 2, w - 1);
      Halves(Pow2(w - 1) - 1, 1);
    }
  }

  lemma {:induction false} Pow2Mono(a: nat, b: nat)
    requires a <= b
    ensures Pow2(a) <= Pow2(b)
  {
    if a < b { Pow2Mono(a, b - 1); }
  }

  lemma Pow2Step(k: nat)
    ensures Pow2(k) == if k == 0 then 1 else 2 * Pow2(k - 1)
  {
  }

  /** Masking with all bits of a `w`-bit word but the lowest `k` rounds down. */
  lemma {:induction false} AndHigh(n: nat, k: nat, w: nat)
    requires k <= w && n < Pow2(w)
    ensures Pow2(k) <= Pow2(w)
    ensures And(n, Pow2(w) - Pow2(k)) == n - n % Pow2(k)
    decreases w
  {
    hide And; hide Pow2;
    Pow2Mono(k, w);
    Pow2Step(k);
    Pow2Step(w);
    if k == 0 {
      AndAll(n, w);
    } else {
      AndHigh(n / 2, k - 1, w - 1);
      HalfMod(n, Pow2(k - 1));
      AndDouble(n, Pow2(w - 1) - Pow2(k - 1), n / 2 % Pow2(k - 1), n % Pow2(k));
    }
  }

  lemma AndDouble(n: nat, m: nat, half: nat, rest: nat)
    requires And(n / 2, m) == n / 2 - half && rest / 2 == half && rest % 2 == n % 2
    ensures And(n, 2 * m) == n - rest
  {
    Halves(m, 0);
  }

  lemma OrHalf(a: nat, b: nat)
    ensures Or(a, 2 * b) == 2 * Or(a / 2, b) + a % 2
  {
    Halves(b, 0);
  }

  lemma OrQuarter(a: nat, b: nat)
    ensures Or(a, 4 * b) == 4 * Or(a / 4, b) + a % 4
  {
    hide Or;
    OrHalf(a, 2 * b);
    OrHalf(a / 2, b);
  }

  lemma OrEighth(a: nat, b: nat)
    ensures Or(a, 8 * b) == 8 * Or(a / 8, b) + a % 8
  {
    hide Or;
    OrHalf(a, 4 * b);
    OrQuarter(a / 2, b);
  }

  lemma OrOne(t: nat)
    ensures Or(t, 1) == t / 2 * 2 + 1
  {
    if t > 0 { OrZero(t / 2); }
  }
}
