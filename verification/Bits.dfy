/** Bitwise operations of C on unsigned values, and the two-bit fields kept in registers. */
module Bits {
  import opened Ring

  function Power2(n: nat): (p: nat)
    ensures p > 0
  {
    if n == 0 then 1 else 2 * Power2(n - 1)
  }

  /** `a & b` */
  function And(a: nat, b: nat): nat {
    if a == 0 then 0 else 2 * And(a / 2, b / 2) + (if a % 2 == 1 && b % 2 == 1 then 1 else 0)
  }

  /** `a & ~b` */
  function AndNot(a: nat, b: nat): nat {
    if a == 0 then 0 else 2 * AndNot(a / 2, b / 2) + (if a % 2 == 1 && b % 2 == 0 then 1 else 0)
  }

  /** `a | b` */
  function Or(a: nat, b: nat): nat
    decreases a + b
  {
    if a == 0 then b else if b == 0 then a
    else 2 * Or(a / 2, b / 2) + (if a % 2 == 1 || b % 2 == 1 then 1 else 0)
  }

  /** `a << n` */
  function Shl(a: nat, n: nat): nat {
    if n == 0 then a else 2 * Shl(a, n - 1)
  }

  /** `a >> n` */
  function Shr(a: nat, n: nat): nat {
    if n == 0 then a else Shr(a / 2, n - 1)
  }

  /** Masking with a power of two less one is the remainder. */
  lemma {:induction false} MaskIsRemainder(a: nat, n: nat)
    ensures And(a, Power2(n) - 1) == a % Power2(n)
  {
    if n == 0 {
      AndZero(a);
    } else {
      var p, whole, m := Power2(n - 1), Power2(n), a / 2;
      assert whole == 2 * p;
      AndHalves(a, whole - 1);
      MaskIsRemainder(m, n - 1);
      hide And, Power2;
      assert (whole - 1) / 2 == p - 1 && (whole - 1) % 2 == 1;
      var masked := And(a, whole - 1);
      assert masked == 2 * (m % p) + a % 2;
      DoubledRemainder(a, p);
    }
  }

  lemma DoubledRemainder(a: nat, p: nat)
    requires p > 0
    ensures a % (2 * p) == 2 * (a / 2 % p) + a % 2
  {
    var m := a / 2;
    assert m == p * (m / p) + m % p;
    assert 2 * p * (m / p) == 2 * (p * (m / p));
    ModUnique(a, m / p, 2 * (m % p) + a % 2, 2 * p);
  }

  lemma {:induction false} AndZero(a: nat)
    ensures And(a, 0) == 0 && AndNot(a, 0) == a
  {
    if a > 0 {
      AndZero(a / 2);
    }
  }

  lemma OrHalves(a: nat, b: nat)
    ensures Or(a, b) / 2 == Or(a / 2, b / 2)
    ensures Or(a, b) % 2 == if a % 2 == 1 || b % 2 == 1 then 1 else 0
  {
  }

  lemma AndHalves(a: nat, b: nat)
    ensures And(a, b) / 2 == And(a / 2, b / 2)
    ensures And(a, b) % 2 == if a % 2 == 1 && b % 2 == 1 then 1 else 0
    ensures AndNot(a, b) / 2 == AndNot(a / 2, b / 2)
    ensures AndNot(a, b) % 2 == if a % 2 == 1 && b % 2 == 0 then 1 else 0
  {
  }

  lemma {:induction false} OrWidth(a: nat, b: nat, width: nat)
    requires a < Power2(width) && b < Power2(width)
    ensures Or(a, b) < Power2(width)
  {
    if a > 0 && b > 0 {
      OrHalves(a, b);
      OrWidth(a / 2, b / 2, width - 1);
    }
  }

  lemma {:induction false} AndLess(a: nat, b: nat)
    ensures And(a, b) <= a
  {
    if a > 0 {
      AndLess(a / 2, b / 2);
    }
  }

  /** Bits that a mask keeps out do not change the bits below the mask. */
  lemma {:induction false} OrAboveMask(a: nat, b: nat, mask: nat, n: nat)
    requires mask % Power2(n) == 0
    ensures Or(a, And(b, mask)) % Power2(n) == a % Power2(n)
  {
    if n > 0 {
      var p, m := Power2(n - 1), And(b, mask);
      DoubledRemainder(mask, p);
      AndHalves(b, mask);
      OrHalves(a, m);
      OrAboveMask(a / 2, b / 2, mask / 2, n - 1);
      DoubledRemainder(a, p);
      DoubledRemainder(Or(a, m), p);
    }
  }

  // ------------------------------------------------------------------------ two-bit fields

  /** `(reg & (3 << n)) >> n` */
  function Field(reg: nat, n: nat): nat {
    Shr(And(reg, Shl(3, n)), n)
  }

  /** `(reg & ~(3 << n)) | (value << n)` */
  function WithField(reg: nat, n: nat, value: nat): nat {
    Or(AndNot(reg, Shl(3, n)), Shl(value, n))
  }

  lemma FieldStep(reg: nat, n: nat)
    ensures n > 0 ==> Field(reg, n) == Field(reg / 2, n - 1)
    ensures n == 0 ==> Field(reg, n) == reg % 2 + 2 * (reg / 2 % 2)
  {
    AndHalves(reg, Shl(3, n));
    if n == 0 {
      AndHalves(reg / 2, 1);
      AndZero(reg / 2 / 2);
    }
  }

  lemma WithFieldStep(reg: nat, n: nat, value: nat)
    requires n > 0
    ensures WithField(reg, n, value) / 2 == WithField(reg / 2, n - 1, value)
    ensures WithField(reg, n, value) % 2 == reg % 2
  {
    AndHalves(reg, Shl(3, n));
    OrHalves(AndNot(reg, Shl(3, n)), Shl(value, n));
  }

  lemma WithFieldZero(reg: nat, value: nat)
    requires value < 8
    ensures var r := WithField(reg, 0, value);
            && r % 2 == value % 2 && r / 2 % 2 == value / 2 % 2 && r / 2 / 2 / 2 == reg / 2 / 2 / 2
            && (value < 4 ==> r / 2 / 2 == reg / 2 / 2)
  {
    hide AndNot, Or;
    var cleared, rest := AndNot(reg, 3), reg / 2 / 2;
    AndHalves(reg, 3);
    AndHalves(reg / 2, 1);
    AndZero(rest);
    assert cleared % 2 == 0 && cleared / 2 % 2 == 0 && cleared / 2 / 2 == rest;
    OrHalves(cleared, value);
    OrHalves(cleared / 2, value / 2);
    OrHalves(rest, value / 2 / 2);
    OrZero(rest);
    OrZero(rest / 2);
  }

  lemma OrZero(a: nat)
    ensures Or(a, 0) == a
  {
  }

  /** A field of two bits reads back the lower two of the three bits that were written to it,
      and every field the written bits do not reach keeps its value. */
  lemma {:induction false} FieldAfterWrite(reg: nat, n: nat, value: nat, m: nat)
    requires value < 8 && (m == n || m + 2 <= n || n + 3 <= m || (value < 4 && n + 2 <= m))
    ensures Field(WithField(reg, n, value), m) == if m == n then value % 4 else Field(reg, m)
    decreases n
  {
    var r := WithField(reg, n, value);
    hide WithField, Field;
    FieldStep(r, m);
    FieldStep(reg, m);
    if n > 0 {
      WithFieldStep(reg, n, value);
      if m > 0 {
        FieldAfterWrite(reg / 2, n - 1, value, m - 1);
      } else {
        WithFieldStep(reg / 2, n - 1, value);
      }
    } else {
      WithFieldZero(reg, value);
      if m > 0 {
        FieldStep(r / 2, m - 1);
        FieldStep(reg / 2, m - 1);
      }
      if m > 2 {
        FieldStep(r / 2 / 2, m - 2);
        FieldStep(reg / 2 / 2, m - 2);
      }
    }
  }

  lemma CutHalves(a: nat, width: nat)
    requires width > 0
    ensures a % Power2(width) / 2 == a / 2 % Power2(width - 1) && a % Power2(width) % 2 == a % 2
  {
    DoubledRemainder(a, Power2(width - 1));
  }

  /** Bits above a width that is cut off do not reach the fields inside it. */
  lemma {:induction false} FieldBelow(reg: nat, width: nat, m: nat)
    requires m + 2 <= width
    ensures Field(reg % Power2(width), m) == Field(reg, m)
    decreases m
  {
    var cut := reg % Power2(width);
    CutHalves(reg, width);
    CutHalves(reg / 2, width - 1);
    hide Field, Power2;
    FieldStep(reg, m);
    FieldStep(cut, m);
    if m > 0 {
      FieldBelow(reg / 2, width - 1, m - 1);
    }
  }

  lemma FieldIsSmall(reg: nat, n: nat)
    ensures Field(reg, n) < 4
    decreases n
  {
    FieldStep(reg, n);
    if n > 0 {
      FieldIsSmall(reg / 2, n - 1);
    }
  }

  // ------------------------------------------------------- one bit of a mask

  /** `mask & (1 << sn)` */
  predicate IsSet(mask: nat, sn: nat) {
    if sn == 0 then mask % 2 == 1 else IsSet(mask / 2, sn - 1)
  }

  /** `mask | (1 << sn)` */
  function With(mask: nat, sn: nat): nat {
    if sn == 0 then mask - mask % 2 + 1 else 2 * With(mask / 2, sn - 1) + mask % 2
  }

  /** `mask & ~(1 << sn)` */
  function Without(mask: nat, sn: nat): nat {
    if sn == 0 then mask - mask % 2 else 2 * Without(mask / 2, sn - 1) + mask % 2
  }

  lemma {:induction false} NoBits(sn: nat)
    ensures !IsSet(0, sn)
  {
    if sn > 0 {
      NoBits(sn - 1);
    }
  }

  lemma {:induction false} SetBit(mask: nat, sn: nat, j: nat)
    ensures IsSet(With(mask, sn), j) == (j == sn || IsSet(mask, j))
  {
    if sn > 0 && j > 0 {
      var half := With(mask / 2, sn - 1);
      assert With(mask, sn) / 2 == half;
      SetBit(mask / 2, sn - 1, j - 1);
    }
  }

  lemma {:induction false} ClearBit(mask: nat, sn: nat, j: nat)
    ensures IsSet(Without(mask, sn), j) == (j != sn && IsSet(mask, j))
  {
    if sn > 0 && j > 0 {
      var half := Without(mask / 2, sn - 1);
      assert Without(mask, sn) / 2 == half;
      ClearBit(mask / 2, sn - 1, j - 1);
    }
  }

  /** Setting or clearing the bit of one socket leaves the bits of the others alone. */
  lemma BitsAreIndependent(mask: nat, sn: nat)
    ensures forall j: nat :: IsSet(With(mask, sn), j) == (j == sn || IsSet(mask, j))
    ensures forall j: nat :: IsSet(Without(mask, sn), j) == (j != sn && IsSet(mask, j))
  {
    forall j: nat
      ensures IsSet(With(mask, sn), j) == (j == sn || IsSet(mask, j))
      ensures IsSet(Without(mask, sn), j) == (j != sn && IsSet(mask, j))
    {
      SetBit(mask, sn, j);
      ClearBit(mask, sn, j);
    }
  }

  /** The three operations are the bitwise ones with the mask `1 << sn`. */
  lemma {:induction false} BitsOfMask(mask: nat, sn: nat)
    ensures IsSet(mask, sn) <==> And(mask, Shl(1, sn)) != 0
    ensures With(mask, sn) == Or(mask, Shl(1, sn))
    ensures Without(mask, sn) == AndNot(mask, Shl(1, sn))
  {
    AndHalves(mask, Shl(1, sn));
    OrHalves(mask, Shl(1, sn));
    if sn > 0 {
      BitsOfMask(mask / 2, sn - 1);
    } else {
      AndZero(mask / 2);
      OrZero(mask / 2);
    }
  }

  lemma {:induction false} WithIsByte(mask: nat, sn: nat, width: nat)
    requires sn < width && mask < Power2(width)
    ensures With(mask, sn) < Power2(width)
  {
    var p, q, b := Power2(width - 1), mask / 2, mask % 2;
    assert Power2(width) == 2 * p && mask == 2 * q + b && q < p;
    if sn == 0 {
      assert With(mask, sn) == 2 * q + 1;
    } else {
      WithIsByte(q, sn - 1, width - 1);
      var half := With(q, sn - 1);
      assert With(mask, sn) == 2 * half + b;
      hide With, Power2;
      assert half <= p - 1;
    }
  }

  /** `|` and `&` bit by bit. */
  lemma {:induction false} BitOfOrAnd(a: nat, b: nat, n: nat)
    ensures IsSet(Or(a, b), n) <==> IsSet(a, n) || IsSet(b, n)
    ensures IsSet(And(a, b), n) <==> IsSet(a, n) && IsSet(b, n)
    decreases n
  {
    OrHalves(a, b);
    AndHalves(a, b);
    if n > 0 {
      BitOfOrAnd(a / 2, b / 2, n - 1);
    }
  }
}
