/** Values of either register width: as unsigned and signed numbers, bit by bit, and as N and Z show them
    (emulator/65816core.c). */
module Widths {
  import opened Primitives
  import opened Machine

  /** How many values a register of this width has. */
  function Size(bits8: bool): nat {
    if bits8 then 0x100 else 0x10000
  }

  /** And the weight of its top bit. */
  function Half(bits8: bool): nat {
    if bits8 then 0x80 else 0x8000
  }

  /** A number cut down to the width, and a value read as a signed number. */
  function Cut(v: int, bits8: bool): Word {
    if bits8 then v % 0x100 else v % 0x10000
  }

  function Signed(v: int, bits8: bool): int {
    if v < Half(bits8) then v else v - Size(bits8)
  }

  predicate InSignedRange(v: int, bits8: bool) {
    var h: int := Half(bits8);
    -h <= v < h
  }

  /** N is the sign of this value and Z says whether it is 0. */
  predicate Shown(s: State, v: Word, bits8: bool) {
    s.Sign() == (v >= Half(bits8)) && s.Zero() == (v == 0)
  }

  // ----- bits

  function Shifted(v: nat, k: nat): nat {
    if k == 0 then v else Shifted(v / 2, k - 1)
  }

  /** Bit k of a number. */
  predicate HasBit(v: nat, k: nat) {
    Shifted(v, k) % 2 == 1
  }

  lemma {:induction false} BitwiseBits(op: BitOp, a: nat, b: nat, n: nat, k: nat)
    requires k < n
    ensures HasBit(Bitwise(op, a, b, n), k) <==>
              match op
              case AndBits => HasBit(a, k) && HasBit(b, k)
              case OrBits => HasBit(a, k) || HasBit(b, k)
              case XorBits => HasBit(a, k) != HasBit(b, k)
    decreases n
  {
    var rest := Bitwise(op, a / 2, b / 2, n - 1);
    Doubled(rest, Bitwise(op, a, b, n) - 2 * rest);
    if k > 0 {
      BitwiseBits(op, a / 2, b / 2, n - 1, k - 1);
      hide Bitwise;
    }
  }

  lemma Doubled(v: int, b: int)
    requires 0 <= b <= 1
    ensures (2 * v + b) / 2 == v && (2 * v + b) % 2 == b
  {
  }

  /** The three operations on words, bit by bit. */
  lemma BitByBit(a: Word, b: Word, k: nat)
    requires k < 16
    ensures HasBit(BitAnd(a, b), k) <==> HasBit(a, k) && HasBit(b, k)
    ensures HasBit(BitOr(a, b), k) <==> HasBit(a, k) || HasBit(b, k)
    ensures HasBit(BitXor(a, b), k) <==> HasBit(a, k) != HasBit(b, k)
  {
    hide HasBit, Bitwise;
    BitwiseBits(AndBits, a, b, 16, k);
    BitwiseBits(OrBits, a, b, 16, k);
    BitwiseBits(XorBits, a, b, 16, k);
  }

  lemma {:induction false} BitwiseFits(op: BitOp, a: nat, b: nat, n: nat, m: nat)
    requires a < Weight(m) && b < Weight(m) && m <= n
    ensures Bitwise(op, a, b, n) < Weight(m)
    decreases n
  {
    if m > 0 {
      BitwiseFits(op, a / 2, b / 2, n - 1, m - 1);
    } else if n > 0 {
      BitwiseFits(op, 0, 0, n - 1, 0);
    }
  }

  lemma {:induction false} OrNothing(a: nat, b: nat, n: nat)
    requires a < Weight(n) && b < Weight(n)
    ensures Bitwise(OrBits, a, b, n) == 0 <==> a == 0 && b == 0
  {
    if n > 0 {
      OrNothing(a / 2, b / 2, n - 1);
    }
  }

  lemma OrOfBytes(low: Byte, high: Byte)
    ensures BitOr(low, high) < 0x100 && (BitOr(low, high) == 0 <==> low == 0 && high == 0)
  {
    hide Bitwise;
    Weights();
    BitwiseFits(OrBits, low, high, 16, 8);
    OrNothing(low, high, 16);
  }

  lemma WordOf(v: int)
    ensures v % 0x10000 == Lo(v) + 0x100 * Hi(v)
  {
  }

  /** What SetNZ is for. */
  lemma Shows(s: State, v: int, bits8: bool, t: State)
    requires t == s.SetNZ(v, bits8)
    ensures Shown(t, Cut(v, bits8), bits8) && t == s.(n := t.n, z := t.z)
  {
    hide BitOr;
    if !bits8 {
      OrOfBytes(Lo(v), Hi(v));
      WordOf(v);
    }
  }
}
