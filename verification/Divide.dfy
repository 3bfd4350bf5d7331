/** The shift-and-subtract division that the interpreter's 16-bit divide routine
    follows (documents/divide.py), for a register of any width. */
module Divide {

  function Pow2(e: nat): (r: nat)
    ensures r >= 1
  {
    if e == 0 then 1 else 2 * Pow2(e - 1)
  }

  lemma {:induction false} Pow2Split(a: nat, b: nat)
    ensures Pow2(a + b) == Pow2(a) * Pow2(b)
  {
    if a > 0 {
      Pow2Split(a - 1, b);
      Associate(2, Pow2(a - 1), Pow2(b));
    }
  }

  lemma Associate(x: int, y: int, z: int)
    ensures x * (y * z) == (x * y) * z
  {
  }

  lemma Scale(x: int, y: int, z: int)
    requires x <= y && z >= 0
    ensures x * z <= y * z
  {
  }

  lemma Distribute(x: int, y: int, z: int)
    ensures (x + y) * z == x * z + y * z
  {
  }

  /** A quotient and remainder are determined by what they must satisfy. */
  lemma QuotientIs(n: int, d: int, q: int, r: int)
    requires d > 0 && 0 <= r < d && n == q * d + r
    ensures n / d == q && n % d == r
  {
    var e := n / d - q;
    Distribute(n / d, -q, d);
    assert e * d == r - n % d;
    if e >= 1 {
      Scale(1, e, d);
    } else if e <= -1 {
      Scale(e, -1, d);
    }
  }

  /** What the registers hold after `done` iterations with `left` to go: `low` is the part
      of the dividend not yet shifted in, kept above the quotient bits found so far. */
  ghost predicate Halfway(done: nat, left: nat, dividend: nat, divisor: nat, a: int, q: int, found: int, low: int)
  {
    && 0 <= a < divisor
    && 0 <= found < Pow2(done)
    && 0 <= low < Pow2(left)
    && dividend == (found * divisor + a) * Pow2(left) + low
    && q == low * Pow2(done) + found
  }

  /** The remainder never outgrows the part of the dividend consumed. */
  lemma RemainderBounded(done: nat, left: nat, dividend: nat, divisor: nat, a: int, q: int, found: int, low: int)
    requires dividend < Pow2(done + left)
    requires Halfway(done, left, dividend, divisor, a, q, found, low)
    ensures a < Pow2(done)
  {
    var top := found * divisor + a;
    Scale(0, found, divisor);
    if top >= Pow2(done) {
      Scale(Pow2(done), top, Pow2(left));
      Pow2Split(done, left);
    }
  }

  /** So shifting it up loses nothing to the register mask, even for divisors above half range. */
  lemma ShiftFits(done: nat, left: nat, a: int, bit: int)
    requires left > 0 && 0 <= a < Pow2(done) && 0 <= bit <= 1
    ensures (2 * a + bit) % Pow2(done + left) == 2 * a + bit
  {
    Pow2Split(done + 1, left - 1);
    Scale(1, Pow2(left - 1), Pow2(done + 1));
    QuotientIs(2 * a + bit, Pow2(done + left), 0, 2 * a + bit);
  }

  /** The quotient register shifted up: its top bit falls out, the rest moves along. */
  lemma ShiftQuotient(done: nat, left: nat, q: int, found: int, low: int, bit: int)
    requires left > 0 && 0 <= bit <= 1 && 0 <= found < Pow2(done)
    requires 0 <= low - bit * Pow2(left - 1) < Pow2(left - 1)
    requires q == low * Pow2(done) + found
    ensures q / Pow2(done + left - 1) % 2 == bit
    ensures 2 * q % Pow2(done + left) == (low - bit * Pow2(left - 1)) * Pow2(done + 1) + 2 * found
  {
    var p, t := Pow2(left - 1), Pow2(done);
    var rest := low - bit * p;
    Pow2Split(left - 1, done);
    Distribute(bit * p, rest, t);
    Associate(bit, p, t);
    assert q == bit * (p * t) + (rest * t + found);
    Scale(rest + 1, p, t);
    Distribute(rest, 1, t);
    Scale(0, rest, t);
    QuotientIs(q, p * t, bit, rest * t + found);
    Associate(rest, 2, t);
    Associate(2, rest, t);
    Associate(bit, 2, p * t);
    Associate(2, bit, p * t);
    QuotientIs(2 * q, 2 * (p * t), bit, 2 * (rest * t) + 2 * found);
  }

  /** Bringing one more bit of the dividend down to the remainder. */
  lemma NextBit(found: int, divisor: int, a: int, left: nat, low: int, bit: int, dividend: int)
    requires left > 0 && dividend == (found * divisor + a) * Pow2(left) + low
    ensures dividend == (2 * found * divisor + (2 * a + bit)) * Pow2(left - 1) + (low - bit * Pow2(left - 1))
    ensures (2 * found + 1) * divisor + (2 * a + bit - divisor) == 2 * found * divisor + (2 * a + bit)
  {
    var p, top := Pow2(left - 1), found * divisor + a;
    Associate(top, 2, p);
    Associate(2, found, divisor);
    Distribute(top * 2, bit, p);
    Distribute(2 * found, 1, divisor);
  }

  /** One iteration on a half-done division. */
  lemma Step(done: nat, left: nat, dividend: nat, divisor: nat, a: int, q: int, found: int, low: int)
      returns (bit: int, newA: int, newQ: int, newFound: int)
    requires left > 0 && dividend < Pow2(done + left)
    requires Halfway(done, left, dividend, divisor, a, q, found, low)
    ensures bit == q / Pow2(done + left - 1) % 2
    ensures newA == (2 * a + bit) % Pow2(done + left)
    ensures newQ == 2 * q % Pow2(done + left)
    ensures if newA - divisor >= 0
            then Halfway(done + 1, left - 1, dividend, divisor, newA - divisor, newQ + 1, newFound,
              low - bit * Pow2(left - 1))
            else Halfway(done + 1, left - 1, dividend, divisor, newA, newQ, newFound, low - bit * Pow2(left - 1))
  {
    bit := if low >= Pow2(left - 1) then 1 else 0;
    ShiftQuotient(done, left, q, found, low, bit);
    RemainderBounded(done, left, dividend, divisor, a, q, found, low);
    ShiftFits(done, left, a, bit);
    NextBit(found, divisor, a, left, low, bit, dividend);
    newA, newQ := 2 * a + bit, (low - bit * Pow2(left - 1)) * Pow2(done + 1) + 2 * found;
    newFound := if newA - divisor >= 0 then 2 * found + 1 else 2 * found;
  }

  /** Restoring division on registers of `width` bits; the program uses width 16. */
  method Divide(width: nat, dividend: nat, divisor: nat) returns (quotient: nat, remainder: nat)
    requires width > 0 && dividend < Pow2(width)
    requires divisor >= 1
    ensures quotient == dividend / divisor && remainder == dividend % divisor
  {
    var a, q := 0, dividend;
    ghost var found, low := 0, dividend;
    for i := 0 to width
      invariant Halfway(i, width - i, dividend, divisor, a, q, found, low)
    {
      ghost var bit, newA, newQ, newFound := Step(i, width - i, dividend, divisor, a, q, found, low);
      // the carry out of the quotient goes into the remainder
      a := (2 * a + q / Pow2(width - 1) % 2) % Pow2(width);
      q := 2 * q % Pow2(width);
      found, low := newFound, low - bit * Pow2(width - i - 1);
      var t := a - divisor;
      if t >= 0 {
        q := q + 1;          // the low bit is clear after the shift, so this is q | 1
        a := t;
      }
    }
    quotient, remainder := q, a;
    QuotientIs(dividend, divisor, found, a);
  }
}
