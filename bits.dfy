/**
 * Bitwise AND and OR on non-negative integers, defined bit by bit, with the
 * facts that turn the masks and shifts of the driver's C expressions into
 * ordinary arithmetic.
 */
module Bits {

  function Pow2(k: nat): (p: nat)
    ensures p >= 1
  {
    if k == 0 then 1 else 2 * Pow2(k - 1)
  }

  /** The powers of two the driver's masks and shifts use. */
  lemma Pow2Values()
    ensures Pow2(7) == 0x80 && Pow2(8) == 0x100 && Pow2(15) == 0x8000
  {
    assert Pow2(4) == 0x10;
  }

  /** `x & y`, least significant bit first. */
  function And(x: nat, y: nat): (r: nat)
    decreases x
  {
    if x == 0 || y == 0 then 0 else 2 * And(x / 2, y / 2) + (x % 2) * (y % 2)
  }

  /** `x | y`, least significant bit first. */
  function Or(x: nat, y: nat): (r: nat)
    decreases x
  {
    if x == 0 then y
    else if y == 0 then x
    else 2 * Or(x / 2, y / 2) + (if x % 2 == 1 || y % 2 == 1 then 1 else 0)
  }

  /** Division and remainder are unique. */
  lemma DivModUnique(x: nat, d: nat, q: nat, r: nat)
    requires 0 <= r < d && x == d * q + r
    ensures x / d == q && x % d == r
  {
    var q', r' := x / d, x % d;
    var t := q - q';
    assert d * t == r' - r;
    MultipleBounds(d, t);
  }

  lemma MultipleBounds(d: int, t: int)
    ensures d > 0 && t >= 1 ==> d * t >= d
    ensures d > 0 && t <= -1 ==> d * t <= -d
  {
  }

  /** Removing the lowest bit first and then dividing by p is dividing by 2p. */
  lemma HalveThenDivide(x: nat, p: nat)
    requires p >= 1
    ensures x / (2 * p) == (x / 2) / p
    ensures x % (2 * p) == 2 * ((x / 2) % p) + x % 2
  {
    var q, r := (x / 2) / p, (x / 2) % p;
    assert x / 2 == p * q + r;
    assert x == (2 * p) * q + (2 * r + x % 2);
    DivModUnique(x, 2 * p, q, 2 * r + x % 2);
  }

  /** Masking with k low one-bits keeps the remainder modulo 2^k. */
  lemma {:induction false} AndLowMask(x: nat, k: nat)
    ensures And(x, Pow2(k) - 1) == x % Pow2(k)
  {
    if k == 0 {
      assert Pow2(k) == 1;
    } else if x == 0 {
      DivModUnique(0, Pow2(k), 0, 0);
    } else {
      var p := Pow2(k - 1);
      var m := Pow2(k) - 1;
      assert Pow2(k) == 2 * p;
      assert m / 2 == p - 1 && m % 2 == 1 by {
        OddHalf(p);
      }
      var low := And(x / 2, p - 1);
      assert And(x, m) == 2 * low + x % 2;
      assert low == (x / 2) % p by {
        AndLowMask(x / 2, k - 1);
      }
      assert x % (2 * p) == 2 * ((x / 2) % p) + x % 2 by {
        HalveThenDivide(x, p);
      }
    }
  }

  /** Halving 2p - 1 gives p - 1 and drops a one bit. */
  lemma OddHalf(p: nat)
    requires p >= 1
    ensures (2 * p - 1) / 2 == p - 1 && (2 * p - 1) % 2 == 1
  {
  }

  /** Masking with the single bit 2^k keeps bit k. */
  lemma {:induction false} AndBit(x: nat, k: nat)
    ensures And(x, Pow2(k)) == if (x / Pow2(k)) % 2 == 1 then Pow2(k) else 0
  {
    if x == 0 {
    } else if k == 0 {
      assert And(x / 2, 0) == 0;
    } else {
      var p := Pow2(k - 1);
      assert Pow2(k) == 2 * p;
      assert (2 * p) / 2 == p && (2 * p) % 2 == 0;
      var bit := ((x / 2) / p) % 2;
      assert And(x, 2 * p) == 2 * And(x / 2, p);
      AndBit(x / 2, k - 1);
      assert And(x / 2, p) == if bit == 1 then p else 0;
      HalveThenDivide(x, p);
      assert (x / (2 * p)) % 2 == bit;
    }
  }

  lemma {:induction false} OrSymmetric(x: nat, y: nat)
    ensures Or(x, y) == Or(y, x)
    decreases x
  {
    if x != 0 && y != 0 {
      OrSymmetric(x / 2, y / 2);
    }
  }

  /** OR with a value below 2^k after a shift by k is addition. */
  lemma {:induction false} OrDisjoint(hi: nat, lo: nat, k: nat)
    requires lo < Pow2(k)
    ensures Or(hi * Pow2(k), lo) == hi * Pow2(k) + lo
    ensures Or(lo, hi * Pow2(k)) == hi * Pow2(k) + lo
  {
    var x := hi * Pow2(k);
    OrSymmetric(lo, x);
    if hi == 0 {
      assert x == 0;
    } else if lo == 0 {
    } else {
      assert k != 0;
      var p := Pow2(k - 1);
      var h := hi * p;
      ShiftOnce(hi, p);
      assert x == 2 * h && h > 0;
      assert x / 2 == h && x % 2 == 0;
      assert lo / 2 < p;
      assert Or(x, lo) == 2 * Or(h, lo / 2) + lo % 2;
      OrDisjoint(hi, lo / 2, k - 1);
    }
  }

  /** OR commutes with a shift by k. */
  lemma {:induction false} OrShifted(a: nat, b: nat, k: nat)
    ensures Or(a * Pow2(k), b * Pow2(k)) == Or(a, b) * Pow2(k)
  {
    if a == 0 {
      assert a * Pow2(k) == 0;
    } else if b == 0 {
      assert b * Pow2(k) == 0;
    } else if k != 0 {
      var p := Pow2(k - 1);
      var x, y := a * p, b * p;
      assert a * Pow2(k) == 2 * x && x > 0 by {
        ShiftOnce(a, p);
      }
      assert b * Pow2(k) == 2 * y && y > 0 by {
        ShiftOnce(b, p);
      }
      assert Or(2 * x, 2 * y) == 2 * Or(x, y);
      OrShifted(a, b, k - 1);
      assert Or(a, b) * Pow2(k) == 2 * (Or(a, b) * p) by {
        ShiftOnce(Or(a, b), p);
      }
    }
  }

  lemma ShiftOnce(a: nat, p: nat)
    ensures a * (2 * p) == 2 * (a * p)
    ensures a > 0 && p > 0 ==> a * p > 0
  {
  }

  /** Setting bit 0 adds one to an even number and leaves an odd one alone. */
  lemma OrOne(x: nat)
    ensures Or(x, 1) == if x % 2 == 0 then x + 1 else x
  {
    if x != 0 {
      assert Or(x / 2, 0) == x / 2;
    }
  }

  /** `x & 0x7F`: the seven low bits. */
  lemma Mask7(x: nat)
    ensures And(x, 0x7F) == x % 0x80
  {
    Pow2Values();
    AndLowMask(x, 7);
  }

  /** `x & 0xFF`: the low byte. */
  lemma Mask8(x: nat)
    ensures And(x, 0xFF) == x % 0x100
  {
    Pow2Values();
    AndLowMask(x, 8);
  }

  /** `x & 0xFF` leaves a byte unchanged. */
  lemma MaskByte(x: nat)
    requires x < 0x100
    ensures And(x, 0xFF) == x
  {
    Mask8(x);
  }

  /** `x & 0x8000`: bit 15 alone. */
  lemma Bit15(x: nat)
    ensures And(x, 0x8000) == if (x / 0x8000) % 2 == 1 then 0x8000 else 0
  {
    Pow2Values();
    AndBit(x, 15);
  }

  /** `x | 0x80` for x below 0x80 sets bit 7 by adding it. */
  lemma SetBit7(x: nat)
    requires x < 0x80
    ensures Or(x, 0x80) == x + 0x80
  {
    Pow2Values();
    OrDisjoint(1, x, 7);
  }

  /** `(hi << 8) | lo` for a byte lo places hi above lo. */
  lemma JoinBytes(hi: nat, lo: nat)
    requires lo < 0x100
    ensures Or(hi * 0x100, lo) == hi * 0x100 + lo
  {
    Pow2Values();
    OrDisjoint(hi, lo, 8);
  }

  /** `(a << 8) | 0x100` is `(a | 1) << 8`. */
  lemma SetBit8(a: nat)
    ensures Or(a * 0x100, 0x100) == Or(a, 1) * 0x100
  {
    Pow2Values();
    OrShifted(a, 1, 8);
  }
}
